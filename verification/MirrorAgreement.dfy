/** When every call is answered, the incremental mirror against a full rebuild. */
module MirrorAgreement {
  import opened Names
  import opened Mirror
  import opened MirrorSafety

  ghost predicate Served(env: Env) {
    forall n :: env.reply(n).Answered?
  }

  /** Among the parts in play no two share a signature. */
  ghost predicate Distinguishes(sign: Part -> string, play: set<Part>) {
    forall p, q :: p in play && q in play && sign(p) == sign(q) ==> p == q
  }

  ghost predicate Reliable(env: Env, play: set<Part>) {
    Served(env) && Distinguishes(env.sign, play)
  }

  /** The recorded parts, and those of a scene, are in play. */
  ghost predicate GeometryIn(geometry: map<string, Part>, play: set<Part>) {
    forall m :: m in geometry ==> geometry[m] in play
  }

  ghost predicate PartsIn(parts: seq<Part>, play: set<Part>) {
    forall k :: 0 <= k < |parts| ==> parts[k] in play
  }

  ghost predicate SceneIn(scene: Scene, play: set<Part>) {
    forall b :: PartsIn(StaticParts(scene, b), play)
  }

  /** Where a part first occurs. */
  function Occurrence(parts: seq<Part>, part: Part): (i: nat)
    ensures i <= |parts| && (part in parts ==> i < |parts| && parts[i] == part)
  {
    if parts == [] || parts[0] == part then 0 else 1 + Occurrence(parts[1..], part)
  }

  /** Whatever the parts in play, some signature tells them apart. */
  lemma SignatureExists(parts: seq<Part>) returns (sign: Part -> string)
    ensures Distinguishes(sign, set p | p in parts)
  {
    sign := p => ToString(Occurrence(parts, p));
    forall p, q | p in parts && q in parts && sign(p) == sign(q) ensures p == q {
      ToStringInjective(Occurrence(parts, p), Occurrence(parts, q));
    }
  }

  /** The mirrored objects of a list of parts, by name. */
  function Expand(base: string, parts: seq<Part>, i: nat): map<string, Part>
    requires i <= |parts|
  {
    if i == 0 then map[] else
    var before := Expand(base, parts, i - 1);
    if parts[i - 1].solid.kind.Unsupported? then before
    else before[MemberName(base, i - 1, |parts|) := parts[i - 1]]
  }

  function ExpandBase(scene: Scene, base: string): map<string, Part> {
    var parts := StaticParts(scene, base);
    Expand(base, parts, |parts|)
  }

  function Layers(scene: Scene, wanted: seq<string>): (layers: seq<map<string, Part>>)
    ensures |layers| == |wanted| && forall k :: 0 <= k < |layers| ==> layers[k] == ExpandBase(scene, wanted[k])
  {
    seq(|wanted|, k requires 0 <= k < |wanted| => ExpandBase(scene, wanted[k]))
  }

  /** The first `i` layers, one over the other. */
  function Merged(layers: seq<map<string, Part>>, i: nat): map<string, Part>
    requires i <= |layers|
  {
    if i == 0 then map[] else Merged(layers, i - 1) + layers[i - 1]
  }

  /** What a scene should look like on the server, one object per supported static shape. */
  function Expansion(scene: Scene): map<string, Part> {
    Merged(Layers(scene, Wanted(scene)), |Wanted(scene)|)
  }

  /** Objects on the server that are not ours. */
  ghost predicate Foreign(w: World, m: string) {
    m in w.server && m !in w.sigs
  }

  /** `v` is `w` with the objects of `e` put in place. */
  ghost predicate Placed(w: World, v: World, e: map<string, Part>) {
    && v.groups == w.groups
    && v.geometry == w.geometry + e
    && v.server == w.server + e
  }

  /** `v` is `w` without the objects named in `gone`. */
  ghost predicate Cleared(w: World, v: World, gone: set<string>) {
    && v.groups == w.groups
    && v.geometry == w.geometry - gone
    && v.sigs == w.sigs - gone
    && v.server == w.server - gone
  }

  // ---- placing ----

  lemma AddSame(m: map<string, Part>, name: string, part: Part)
    requires name in m && m[name] == part
    ensures m + map[name := part] == m
  {
  }

  lemma AddNone(w: World)
    ensures Placed(w, w, map[])
  {
    assert w.geometry + map[] == w.geometry && w.server + map[] == w.server;
  }

  lemma AddTwice(a: map<string, Part>, d: map<string, Part>, e: map<string, Part>)
    ensures (a + d) + e == a + (d + e)
  {
  }

  lemma AddOne(m: map<string, Part>, name: string, part: Part)
    ensures m + map[name := part] == m[name := part]
    ensures (m - {name})[name := part] == m[name := part]
  {
  }

  lemma SyncPartPlaces(env: Env, play: set<Part>, w: World, name: string, part: Part)
    requires Reliable(env, play) && GeometryIn(w.geometry, play) && part in play
    requires Sound(env, w) && !Foreign(w, name)
    ensures var r := SyncPart(env, w, name, part);
            && r.1 == !part.solid.kind.Unsupported?
            && Placed(w, r.0, if r.1 then map[name := part] else map[])
  {
    AddNone(w);
    if name in w.sigs && w.sigs[name] == env.sign(part) {
      assert w.geometry[name] == part;
      AddSame(w.geometry, name, part);
      AddSame(w.server, name, part);
    } else if !part.solid.kind.Unsupported? {
      AddOne(w.geometry, name, part);
      AddOne(w.server, name, part);
      var cleared := if name in w.sigs then RemoveMember(env, w, name) else w;
      assert name !in cleared.server;
    }
  }

  lemma PlacedTwice(u: World, v: World, w: World, d: map<string, Part>, e: map<string, Part>)
    requires Placed(u, v, d) && Placed(v, w, e)
    ensures Placed(u, w, d + e)
  {
    AddTwice(u.geometry, d, e);
    AddTwice(u.server, d, e);
  }

  /** Placing parts in play keeps the record in play. */
  lemma PlacedIn(u: World, v: World, e: map<string, Part>, play: set<Part>)
    requires Placed(u, v, e) && GeometryIn(u.geometry, play) && GeometryIn(e, play)
    ensures GeometryIn(v.geometry, play)
  {
  }

  lemma {:induction false} ExpandIn(base: string, parts: seq<Part>, i: nat, play: set<Part>)
    requires i <= |parts| && PartsIn(parts, play)
    ensures GeometryIn(Expand(base, parts, i), play)
  {
    if i > 0 {
      ExpandIn(base, parts, i - 1, play);
    }
  }

  lemma {:induction false} MergedIn(layers: seq<map<string, Part>>, i: nat, play: set<Part>)
    requires i <= |layers| && forall e :: e in layers ==> GeometryIn(e, play)
    ensures GeometryIn(Merged(layers, i), play)
  {
    if i > 0 {
      MergedIn(layers, i - 1, play);
      assert layers[i - 1] in layers;
    }
  }

  lemma LayersIn(scene: Scene, wanted: seq<string>, play: set<Part>)
    requires SceneIn(scene, play)
    ensures var layers := Layers(scene, wanted);
            forall i: nat :: i <= |layers| ==> GeometryIn(Merged(layers, i), play)
  {
    var layers := Layers(scene, wanted);
    forall e | e in layers ensures GeometryIn(e, play) {
      var k :| 0 <= k < |layers| && layers[k] == e;
      var parts := StaticParts(scene, wanted[k]);
      ExpandIn(wanted[k], parts, |parts|, play);
    }
    forall i: nat | i <= |layers| ensures GeometryIn(Merged(layers, i), play) {
      MergedIn(layers, i, play);
    }
  }

  /** Placing recorded objects makes nothing foreign. */
  lemma PlacedForeign(env: Env, u: World, v: World, e: map<string, Part>, m: string)
    requires Sound(env, u) && Sound(env, v) && Placed(u, v, e)
    ensures Foreign(v, m) ==> Foreign(u, m)
  {
  }

  /** The names of the supported parts, in order. */
  function SupportedNames(base: string, parts: seq<Part>, i: nat): seq<string>
    requires i <= |parts|
  {
    if i == 0 then [] else
    SupportedNames(base, parts, i - 1) +
    (if parts[i - 1].solid.kind.Unsupported? then [] else [MemberName(base, i - 1, |parts|)])
  }

  ghost predicate NoneForeign(w: World, base: string) {
    forall m :: Foreign(w, m) ==> !Family(base, m)
  }

  lemma ExpandStep(base: string, parts: seq<Part>, i: nat)
    requires i < |parts|
    ensures var d := if parts[i].solid.kind.Unsupported? then map[] else map[MemberName(base, i, |parts|) := parts[i]];
            Expand(base, parts, i + 1) == Expand(base, parts, i) + d
  {
    var e := Expand(base, parts, i);
    AddOne(e, MemberName(base, i, |parts|), parts[i]);
    assert e + map[] == e;
  }

  lemma {:induction false} SyncPartsPlace(env: Env, play: set<Part>, w: World, base: string, parts: seq<Part>, i: nat,
                                          r: (World, seq<string>))
    requires i <= |parts| && r == SyncParts(env, w, base, parts, i)
    requires Reliable(env, play) && GeometryIn(w.geometry, play) && PartsIn(parts, play)
    requires Sound(env, w) && NoneForeign(w, base)
    ensures Placed(w, r.0, Expand(base, parts, i)) && r.1 == SupportedNames(base, parts, i)
  {
    if i == 0 {
      AddNone(w);
    } else {
      var before := SyncParts(env, w, base, parts, i - 1);
      SyncPartsPlace(env, play, w, base, parts, i - 1, before);
      NextPart(env, w, base, parts, i - 1);
      SyncPartsSound(env, w, base, parts, i - 1);
      PlaceNext(env, play, w, before, base, parts, i - 1);
    }
  }

  lemma PlaceNext(env: Env, play: set<Part>, w: World, before: (World, seq<string>), base: string,
                  parts: seq<Part>, k: nat)
    requires k < |parts| && Placed(w, before.0, Expand(base, parts, k)) && before.1 == SupportedNames(base, parts, k)
    requires Reliable(env, play) && GeometryIn(w.geometry, play) && PartsIn(parts, play)
    requires Sound(env, w) && NoneForeign(w, base) && Sound(env, before.0)
    ensures var name := MemberName(base, k, |parts|);
            var s := SyncPart(env, before.0, name, parts[k]);
            && Placed(w, s.0, Expand(base, parts, k + 1))
            && SupportedNames(base, parts, k + 1) == if s.1 then before.1 + [name] else before.1
  {
    var name := MemberName(base, k, |parts|);
    MemberFamily(base, k, |parts|);
    PlacedForeign(env, w, before.0, Expand(base, parts, k), name);
    ExpandIn(base, parts, k, play);
    PlacedIn(w, before.0, Expand(base, parts, k), play);
    SyncPartPlaces(env, play, before.0, name, parts[k]);
    var (after, kept) := SyncPart(env, before.0, name, parts[k]);
    PlacedTwice(w, before.0, after, Expand(base, parts, k), if kept then map[name := parts[k]] else map[]);
    ExpandStep(base, parts, k);
    assert before.1 + [] == before.1;
  }

  /** The group an id ends up with. */
  function GroupOf(groups: seq<Group>, scene: Scene, base: string): (mine: seq<Group>)
    ensures |mine| <= 1 && forall g :: g in mine ==> g.base == base
  {
    if base in scene.attached then Find(groups, base) else
    var parts := StaticParts(scene, base);
    var members := SupportedNames(base, parts, |parts|);
    if members == [] then [] else [Group(base, members)]
  }

  function Blocks(groups: seq<Group>, scene: Scene, wanted: seq<string>): (blocks: seq<seq<Group>>)
    ensures |blocks| == |wanted|
    ensures forall k :: 0 <= k < |blocks| ==> blocks[k] == GroupOf(groups, scene, wanted[k])
  {
    seq(|wanted|, k requires 0 <= k < |wanted| => GroupOf(groups, scene, wanted[k]))
  }

  /** The first `i` blocks, one after the other. */
  function Joined(blocks: seq<seq<Group>>, i: nat): seq<Group>
    requires i <= |blocks|
  {
    if i == 0 then [] else Joined(blocks, i - 1) + blocks[i - 1]
  }

  function GroupsOf(groups: seq<Group>, scene: Scene, wanted: seq<string>): seq<Group> {
    Joined(Blocks(groups, scene, wanted), |wanted|)
  }

  lemma SyncBasePlaces(env: Env, play: set<Part>, w: World, scene: Scene, base: string)
    requires Reliable(env, play) && GeometryIn(w.geometry, play) && SceneIn(scene, play)
    requires Sound(env, w) && NoneForeign(w, base)
    ensures var r := SyncBase(env, w, scene, base);
            Placed(w, r.0, ExpandBase(scene, base)) && r.1 == GroupOf(w.groups, scene, base)
  {
    var parts := StaticParts(scene, base);
    SyncPartsPlace(env, play, w, base, parts, |parts|, SyncParts(env, w, base, parts, |parts|));
    if base in scene.attached {
      assert parts == [];
      AddNone(w);
    }
  }

  ghost predicate NoForeignIds(w: World, wanted: seq<string>) {
    forall b :: b in wanted ==> NoneForeign(w, b)
  }

  lemma NextBase(env: Env, w: World, scene: Scene, wanted: seq<string>, i: nat)
    requires i < |wanted|
    ensures var r := SyncBases(env, w, scene, wanted, i);
            var s := SyncBase(env, r.0, scene, wanted[i]);
            SyncBases(env, w, scene, wanted, i + 1) == (s.0, r.1 + s.1)
  {
  }

  lemma StaysOurs(env: Env, w: World, v: World, e: map<string, Part>, base: string)
    requires Sound(env, w) && Sound(env, v) && Placed(w, v, e) && NoneForeign(w, base)
    ensures NoneForeign(v, base)
  {
    forall m | Foreign(v, m) ensures !Family(base, m) {
      PlacedForeign(env, w, v, e, m);
    }
  }

  lemma PlaceNextBase(env: Env, play: set<Part>, w: World, before: World, scene: Scene, base: string,
                      e: map<string, Part>)
    requires Reliable(env, play) && GeometryIn(w.geometry, play) && SceneIn(scene, play) && GeometryIn(e, play)
    requires Sound(env, w) && Sound(env, before) && Placed(w, before, e) && NoneForeign(w, base)
    ensures var s := SyncBase(env, before, scene, base);
            Placed(w, s.0, e + ExpandBase(scene, base)) && s.1 == GroupOf(w.groups, scene, base)
  {
    StaysOurs(env, w, before, e, base);
    PlacedIn(w, before, e, play);
    SyncBasePlaces(env, play, before, scene, base);
    PlacedTwice(w, before, SyncBase(env, before, scene, base).0, e, ExpandBase(scene, base));
  }

  /** The layers and the blocks of these ids. */
  ghost predicate Laid(groups: seq<Group>, scene: Scene, wanted: seq<string>, layers: seq<map<string, Part>>,
                       blocks: seq<seq<Group>>)
  {
    && |layers| == |blocks| == |wanted|
    && (forall k :: 0 <= k < |wanted| ==> layers[k] == ExpandBase(scene, wanted[k]))
    && (forall k :: 0 <= k < |wanted| ==> blocks[k] == GroupOf(groups, scene, wanted[k]))
  }

  /** The result `r` of a sync so far has put `e` in place and gives the groups `g`. */
  ghost predicate Reaches(w: World, r: (World, seq<Group>), e: map<string, Part>, g: seq<Group>) {
    Placed(w, r.0, e) && r.1 == g
  }

  lemma SyncNextPlaces(env: Env, play: set<Part>, w: World, scene: Scene, wanted: seq<string>,
                       layers: seq<map<string, Part>>, blocks: seq<seq<Group>>, i: nat)
    requires i < |wanted| && Laid(w.groups, scene, wanted, layers, blocks)
    requires Reliable(env, play) && GeometryIn(w.geometry, play) && SceneIn(scene, play)
    requires Sound(env, w) && NoForeignIds(w, wanted) && GeometryIn(Merged(layers, i), play)
    requires Reaches(w, SyncBases(env, w, scene, wanted, i), Merged(layers, i), Joined(blocks, i))
    ensures Reaches(w, SyncBases(env, w, scene, wanted, i + 1), Merged(layers, i + 1), Joined(blocks, i + 1))
  {
    var before := SyncBases(env, w, scene, wanted, i);
    NextBase(env, w, scene, wanted, i);
    assert NoneForeign(w, wanted[i]);
    SyncBasesSound(env, w, scene, wanted, i);
    PlaceNextBase(env, play, w, before.0, scene, wanted[i], Merged(layers, i));
  }

  lemma SyncBasesPlace(env: Env, play: set<Part>, w: World, scene: Scene, wanted: seq<string>,
                       layers: seq<map<string, Part>>, blocks: seq<seq<Group>>)
    requires Laid(w.groups, scene, wanted, layers, blocks)
    requires Reliable(env, play) && GeometryIn(w.geometry, play) && SceneIn(scene, play)
    requires Sound(env, w) && NoForeignIds(w, wanted)
    requires forall i: nat :: i <= |layers| ==> GeometryIn(Merged(layers, i), play)
    ensures Reaches(w, SyncBases(env, w, scene, wanted, |wanted|), Merged(layers, |wanted|), Joined(blocks, |wanted|))
  {
    AddNone(w);
    for i := 0 to |wanted|
      invariant Reaches(w, SyncBases(env, w, scene, wanted, i), Merged(layers, i), Joined(blocks, i))
    {
      SyncNextPlaces(env, play, w, scene, wanted, layers, blocks, i);
    }
  }

  // ---- clearing ----

  function Elements(members: seq<string>): set<string> {
    set m | m in members
  }

  lemma {:induction false} RemoveAllClears(env: Env, w: World, names: seq<string>, i: nat)
    requires i <= |names| && Served(env)
    ensures Cleared(w, RemoveAll(env, w, names, i), Elements(names[..i]))
  {
    if i > 0 {
      RemoveAllClears(env, w, names, i - 1);
      assert Elements(names[..i]) == Elements(names[..i - 1]) + {names[i - 1]};
    }
  }

  /** The names in the groups of ids nobody wants any more. */
  function Stale(groups: seq<Group>, wanted: seq<string>, i: nat): set<string>
    requires i <= |groups|
  {
    if i == 0 then {} else
    Stale(groups, wanted, i - 1) + (if groups[i - 1].base in wanted then {} else Elements(groups[i - 1].members))
  }

  lemma {:induction false} DropStaleClears(env: Env, w: World, wanted: seq<string>, i: nat)
    requires i <= |w.groups| && Served(env)
    ensures Cleared(w, DropStale(env, w, wanted, i), Stale(w.groups, wanted, i))
  {
    if i > 0 {
      DropStaleClears(env, w, wanted, i - 1);
      var g := w.groups[i - 1];
      if g.base !in wanted {
        var before := DropStale(env, w, wanted, i - 1);
        RemoveAllClears(env, before, g.members, |g.members|);
        assert g.members[..|g.members|] == g.members;
        ClearedTwice(w, before, DropGroup(env, before, g), Stale(w.groups, wanted, i - 1), Elements(g.members));
      }
    }
  }

  lemma ClearedTwice(u: World, v: World, w: World, d: set<string>, e: set<string>)
    requires Cleared(u, v, d) && Cleared(v, w, e)
    ensures Cleared(u, w, d + e)
  {
    assert (u.geometry - d) - e == u.geometry - (d + e);
    assert (u.sigs - d) - e == u.sigs - (d + e);
    assert (u.server - d) - e == u.server - (d + e);
  }

  // ---- the whole sync ----

  function StaleNames(w: World, scene: Scene): set<string> {
    Stale(w.groups, Wanted(scene), |w.groups|)
  }

  /** With every call answered, a sync removes exactly the members of the groups no longer wanted
      and puts the expansion of the scene in place; everything else stays as it was. */
  lemma SyncPlaces(env: Env, play: set<Part>, w: World, scene: Scene)
    requires Reliable(env, play) && GeometryIn(w.geometry, play) && SceneIn(scene, play)
    requires Sound(env, w) && NoForeignIds(w, Wanted(scene))
    ensures var v := Sync(env, w, scene);
            && v.geometry == w.geometry - StaleNames(w, scene) + Expansion(scene)
            && v.server == w.server - StaleNames(w, scene) + Expansion(scene)
            && v.groups == GroupsOf(KeepWanted(w.groups, Wanted(scene)), scene, Wanted(scene))
            && Sound(env, v) && GeometryIn(v.geometry, play)
  {
    var wanted := Wanted(scene);
    DropStaleClears(env, w, wanted, |w.groups|);
    DropStaleSound(env, w, wanted, |w.groups|);
    var u := WithoutStale(env, w, wanted);
    forall b, m | b in wanted && Foreign(u, m) ensures !Family(b, m) {
      assert NoneForeign(w, b) && Foreign(w, m);
    }
    var layers, blocks := Layers(scene, wanted), Blocks(u.groups, scene, wanted);
    LayersIn(scene, wanted, play);
    SyncBasesPlace(env, play, u, scene, wanted, layers, blocks);
    SyncBasesSound(env, u, scene, wanted, |wanted|);
  }
}
