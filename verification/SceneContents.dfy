/** What the mirror shows of a scene, in terms of the scene's own objects. */
module SceneContents {
  import opened Names
  import opened Mirror
  import opened MirrorSafety
  import opened MirrorAgreement
  import opened MirrorRebuild
  import opened MirrorRuns

  /** Looking an id up gives the first object that has it. */
  lemma {:induction false} LookupFirst(world: seq<Body>, k: nat)
    requires k < |world| && forall j :: 0 <= j < k ==> world[j].base != world[k].base
    ensures Lookup(world, world[k].base) == [world[k]]
  {
    if k > 0 {
      LookupFirst(world[1..], k - 1);
    }
  }

  /** So does looking up a group. */
  lemma {:induction false} FindFirst(groups: seq<Group>, k: nat)
    requires k < |groups| && forall j :: 0 <= j < k ==> groups[j].base != groups[k].base
    ensures Find(groups, groups[k].base) == [groups[k]]
  {
    if k > 0 {
      FindFirst(groups[1..], k - 1);
    }
  }

  /** Shape `i` of object `k` is there, supported and static, and `m` is the name it is mirrored under. */
  predicate ShapeAt(scene: Scene, k: nat, i: nat, m: string) {
    k < |scene.world| &&
    var body := scene.world[k];
    var n := if |body.poses| < |body.solids| then |body.poses| else |body.solids|;
    && i < n && body.base !in scene.attached && !body.solids[i].kind.Unsupported? && m == MemberName(body.base, i, n)
  }

  lemma StaticShapes(scene: Scene, k: nat)
    requires WellFormed(scene) && k < |scene.world|
    ensures var body, parts := scene.world[k], StaticParts(scene, scene.world[k].base);
            && body.base in Wanted(scene)
            && (body.base in scene.attached ==> parts == [])
            && (body.base !in scene.attached ==>
                  |parts| == (if |body.poses| < |body.solids| then |body.poses| else |body.solids|)
                  && forall i :: 0 <= i < |parts| ==> parts[i] == Part(body.solids[i], body.poses[i]))
  {
    var bases := Bases(scene.world);
    forall j | 0 <= j < k ensures scene.world[j].base != scene.world[k].base {
      assert bases[j] != bases[k];
    }
    LookupFirst(scene.world, k);
    assert bases[k] in bases;
  }

  /** Every shape is mirrored, as it is and where it is. */
  lemma ShapeExpands(scene: Scene, ids: set<string>, k: nat, i: nat, m: string)
    requires WellFormed(scene) && IdsOf(scene, ids) && Apart(ids) && ShapeAt(scene, k, i, m)
    ensures m in Expansion(scene) && Expansion(scene)[m] == Part(scene.world[k].solids[i], scene.world[k].poses[i])
  {
    var b := scene.world[k].base;
    StaticShapes(scene, k);
    var parts := StaticParts(scene, b);
    ExpandAt(b, parts, |parts|, i);
    ExpandsAt(scene, ids, b, m);
  }

  /** Nothing else is. */
  lemma ExpansionShape(scene: Scene, m: string) returns (k: nat, i: nat)
    requires WellFormed(scene) && m in Expansion(scene)
    ensures ShapeAt(scene, k, i, m)
  {
    var b := ExpandsFrom(scene, m);
    var parts := StaticParts(scene, b);
    i := ExpandOnly(b, parts, |parts|, m);
    if b !in Bases(scene.world) {
      NotFound(scene.world, b);
    }
    k :| 0 <= k < |scene.world| && Bases(scene.world)[k] == b;
    StaticShapes(scene, k);
  }

  ghost predicate Depicts(scene: Scene, m: string) {
    exists k: nat, i: nat :: ShapeAt(scene, k, i, m)
  }

  /** The parts a scene asks for are exactly the supported shapes of its objects that are not attached, each
      under its member name, as it is and where it is. */
  lemma ExpansionExactly(scene: Scene, ids: set<string>)
    requires WellFormed(scene) && IdsOf(scene, ids) && Apart(ids)
    ensures forall m :: m in Expansion(scene) <==> Depicts(scene, m)
    ensures forall k: nat, i: nat, m :: ShapeAt(scene, k, i, m) ==>
              m in Expansion(scene) && Expansion(scene)[m] == Part(scene.world[k].solids[i], scene.world[k].poses[i])
  {
    forall k: nat, i: nat, m | ShapeAt(scene, k, i, m)
      ensures m in Expansion(scene) && Expansion(scene)[m] == Part(scene.world[k].solids[i], scene.world[k].poses[i])
    {
      ShapeExpands(scene, ids, k, i, m);
    }
    forall m | m in Expansion(scene) ensures Depicts(scene, m) {
      var k, i := ExpansionShape(scene, m);
    }
  }

  /** A first sync with every call answered puts every such shape on the server and records it; beside them
      the server has only what it had. */
  lemma FirstSyncShows(env: Env, play: set<Part>, server: map<string, Part>, scene: Scene, ids: set<string>)
    requires Reliable(env, play) && SceneIn(scene, play) && FreeNames(server, ids)
    requires WellFormed(scene) && IdsOf(scene, ids) && Apart(ids)
    ensures var v := Sync(env, Unsynced(server), scene);
            && (forall m :: m in v.server <==> m in server || Depicts(scene, m))
            && forall k: nat, i: nat, m :: ShapeAt(scene, k, i, m) ==>
                 && m in v.server && v.server[m] == Part(scene.world[k].solids[i], scene.world[k].poses[i])
                 && m in v.geometry && v.geometry[m] == v.server[m]
  {
    FirstSync(env, play, server, scene, ids);
    ExpansionExactly(scene, ids);
  }
}
