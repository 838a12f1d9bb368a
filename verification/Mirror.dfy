/** The incremental scene mirror: what one synchronisation with the server does, call by call,
    to the three client-side records and to the objects registered on the server. */
module Mirror {
  import opened Interfaces
  import opened Names

  datatype Kind = Box | Sphere | Cylinder | Mesh | Unsupported

  datatype Solid = Solid(kind: Kind, size: seq<Scalar>)

  /** One shape at its world pose: what a request to add an object carries besides the name. */
  datatype Part = Part(solid: Solid, pose: seq<Scalar>)

  datatype Body = Body(base: string, solids: seq<Solid>, poses: seq<seq<Scalar>>)

  datatype Scene = Scene(world: seq<Body>, attached: seq<string>)

  /** The server objects recorded for one scene object. */
  datatype Group = Group(base: string, members: seq<string>)

  /** What becomes of a service call: it is answered, it is never carried out (unavailable,
      lost, rejected), or it is carried out but the reply comes too late to be seen. */
  datatype Outcome = Answered | Unserved | LateReply

  /** How the n-th service call fares, and the signature of a part. */
  datatype Env = Env(reply: nat -> Outcome, sign: Part -> string)

  datatype World = World(
    groups: seq<Group>,
    sigs: map<string, string>,
    geometry: map<string, Part>,
    server: map<string, Part>,
    calls: nat)

  function Unsynced(server: map<string, Part>): World {
    World([], map[], map[], server, 0)
  }

  // ---- one call ----

  /** Adding is refused for a name the server already has. */
  function Add(env: Env, w: World, name: string, part: Part): (World, bool) {
    var o := env.reply(w.calls);
    var next := w.(calls := w.calls + 1);
    if o.Unserved? || name in w.server then (next, false)
    else (next.(server := w.server[name := part]), o.Answered?)
  }

  /** The records of a removed object are dropped whatever the call returned. */
  function RemoveMember(env: Env, w: World, name: string): World {
    w.(calls := w.calls + 1,
    server := if env.reply(w.calls).Unserved? then w.server else w.server - {name},
    sigs := w.sigs - {name},
    geometry := w.geometry - {name})
  }

  /** Drops the first `i` of the named objects. */
  function RemoveAll(env: Env, w: World, names: seq<string>, i: nat): World
    requires i <= |names|
  {
    if i == 0 then w else RemoveMember(env, RemoveAll(env, w, names, i - 1), names[i - 1])
  }

  // ---- one object ----

  /** Brings one part up to date; the flag says whether it is mirrored now. */
  function SyncPart(env: Env, w: World, name: string, part: Part): (World, bool) {
    if name in w.sigs && w.sigs[name] == env.sign(part) then (w, true)
    else if part.solid.kind.Unsupported? then (w, false)
    else
      var cleared := if name in w.sigs then RemoveMember(env, w, name) else w;
      var (added, ok) := Add(env, cleared, name, part);
      if !ok then (added, false)
      else (added.(sigs := added.sigs[name := env.sign(part)], geometry := added.geometry[name := part]), true)
  }

  function Least(a: nat, b: nat): nat {
    if a < b then a else b
  }

  function PartsOf(body: Body): (parts: seq<Part>)
    ensures |parts| == Least(|body.solids|, |body.poses|)
  {
    seq(Least(|body.solids|, |body.poses|),
        i requires 0 <= i < Least(|body.solids|, |body.poses|) => Part(body.solids[i], body.poses[i]))
  }

  /** The first `i` parts of an object, and the names of those that are mirrored now. */
  function SyncParts(env: Env, w: World, base: string, parts: seq<Part>, i: nat): (World, seq<string>)
    requires i <= |parts|
  {
    if i == 0 then (w, []) else
    var (before, members) := SyncParts(env, w, base, parts, i - 1);
    var name := MemberName(base, i - 1, |parts|);
    var (after, kept) := SyncPart(env, before, name, parts[i - 1]);
    (after, if kept then members + [name] else members)
  }

  function Lookup(world: seq<Body>, base: string): (found: seq<Body>)
    ensures |found| <= 1
  {
    if world == [] then []
    else if world[0].base == base then [world[0]]
    else Lookup(world[1..], base)
  }

  function Find(groups: seq<Group>, base: string): (found: seq<Group>)
    ensures |found| <= 1
    ensures |found| == 1 ==> found[0] in groups && found[0].base == base
  {
    if groups == [] then []
    else if groups[0].base == base then [groups[0]]
    else Find(groups[1..], base)
  }

  /** The parts an id has as a static world object: none when absent, empty or attached. */
  function StaticParts(scene: Scene, base: string): seq<Part> {
    var found := Lookup(scene.world, base);
    if base in scene.attached || found == [] then [] else PartsOf(found[0])
  }

  /** One id of the wanted list: an attached one carries its old group over. */
  function SyncBase(env: Env, w: World, scene: Scene, base: string): (World, seq<Group>) {
    if base in scene.attached then (w, Find(w.groups, base))
    else
      var parts := StaticParts(scene, base);
      var (after, members) := SyncParts(env, w, base, parts, |parts|);
      (after, if members == [] then [] else [Group(base, members)])
  }

  // ---- the whole scene ----

  function Bases(world: seq<Body>): (bases: seq<string>)
    ensures |bases| == |world|
    ensures forall k :: 0 <= k < |world| ==> bases[k] == world[k].base
  {
    seq(|world|, k requires 0 <= k < |world| => world[k].base)
  }

  /** World ids first, then the attached ids that are not among them. */
  function WantedTo(scene: Scene, i: nat): (wanted: seq<string>)
    requires i <= |scene.attached|
    ensures forall b :: b in wanted <==> b in Bases(scene.world) || b in scene.attached[..i]
  {
    if i == 0 then Bases(scene.world) else
    var wanted := WantedTo(scene, i - 1);
    assert scene.attached[..i] == scene.attached[..i - 1] + [scene.attached[i - 1]];
    if scene.attached[i - 1] in wanted then wanted else wanted + [scene.attached[i - 1]]
  }

  function Wanted(scene: Scene): seq<string> {
    WantedTo(scene, |scene.attached|)
  }

  /** Removal of the members of the unwanted ones among the first `i` groups. */
  function DropStale(env: Env, w: World, wanted: seq<string>, i: nat): World
    requires i <= |w.groups|
    ensures DropStale(env, w, wanted, i).groups == w.groups
  {
    if i == 0 then w else
    var before := DropStale(env, w, wanted, i - 1);
    var g := w.groups[i - 1];
    if g.base in wanted then before else DropGroup(env, before, g)
  }

  function DropGroup(env: Env, w: World, g: Group): (r: World)
    ensures r.groups == w.groups
  {
    RemoveKeepsGroups(env, w, g.members, |g.members|);
    RemoveAll(env, w, g.members, |g.members|)
  }

  lemma {:induction false} RemoveKeepsGroups(env: Env, w: World, names: seq<string>, i: nat)
    requires i <= |names|
    ensures RemoveAll(env, w, names, i).groups == w.groups
  {
    if i > 0 {
      RemoveKeepsGroups(env, w, names, i - 1);
    }
  }

  function KeepWanted(groups: seq<Group>, wanted: seq<string>): (kept: seq<Group>)
    ensures forall g :: g in kept <==> g in groups && g.base in wanted
  {
    if groups == [] then [] else
    var kept := KeepWanted(groups[..|groups| - 1], wanted);
    var g := groups[|groups| - 1];
    assert groups == groups[..|groups| - 1] + [g];
    if g.base in wanted then kept + [g] else kept
  }

  /** The first `i` wanted ids, and the new groups so far. */
  function SyncBases(env: Env, w: World, scene: Scene, wanted: seq<string>, i: nat): (World, seq<Group>)
    requires i <= |wanted|
  {
    if i == 0 then (w, []) else
    var (before, groups) := SyncBases(env, w, scene, wanted, i - 1);
    var (after, group) := SyncBase(env, before, scene, wanted[i - 1]);
    (after, groups + group)
  }

  function WithoutStale(env: Env, w: World, wanted: seq<string>): World {
    DropStale(env, w, wanted, |w.groups|).(groups := KeepWanted(w.groups, wanted))
  }

  function Sync(env: Env, w: World, scene: Scene): World {
    var wanted := Wanted(scene);
    var (after, groups) := SyncBases(env, WithoutStale(env, w, wanted), scene, wanted, |wanted|);
    after.(groups := groups)
  }

  function SyncAll(env: Env, w: World, scenes: seq<Scene>): World {
    if scenes == [] then w
    else Sync(env, SyncAll(env, w, scenes[..|scenes| - 1]), scenes[|scenes| - 1])
  }
}
