/** A run of scenes that leaves an object behind: an object of two shapes that becomes one of one. */
module LeftObjects {
  import opened Names
  import opened Mirror
  import opened MirrorSafety
  import opened MirrorAgreement
  import opened MirrorRebuild
  import opened MirrorRuns

  function SceneOf(b: string, parts: seq<Part>): Scene {
    Scene([Body(b, seq(|parts|, k requires 0 <= k < |parts| => parts[k].solid),
                   seq(|parts|, k requires 0 <= k < |parts| => parts[k].pose))], [])
  }

  lemma SceneIs(b: string, parts: seq<Part>, c: string)
    ensures StaticParts(SceneOf(b, parts), c) == if c == b then parts else []
    ensures Wanted(SceneOf(b, parts)) == [b] && WellFormed(SceneOf(b, parts))
  {
    var world := SceneOf(b, parts).world;
    assert Lookup(world[1..], c) == [];
    assert PartsOf(world[0]) == parts;
  }

  lemma SceneOfIn(b: string, parts: seq<Part>, play: set<Part>)
    requires PartsIn(parts, play)
    ensures SceneIn(SceneOf(b, parts), play)
  {
    forall c ensures PartsIn(StaticParts(SceneOf(b, parts), c), play) {
      SceneIs(b, parts, c);
    }
  }

  lemma SecondLacks(b: string, p: Part, q: Part)
    requires !q.solid.kind.Unsupported?
    ensures See(SceneOf(b, [p, q]), b, MemberName(b, 1, 2)) == Uses
    ensures See(SceneOf(b, [p]), b, MemberName(b, 1, 2)) == Lacks
  {
    SceneIs(b, [p, q], b);
    SceneIs(b, [p], b);
    ExpandAt(b, [p, q], 2, 1);
    if MemberName(b, 1, 2) in ExpandBase(SceneOf(b, [p]), b) {
      var k := ExpandOnly(b, [p], 1, MemberName(b, 1, 2));
      SuffixLonger(b, 1);
    }
  }

  lemma SecondStays(t: seq<Sight>)
    requires t == [Uses, Lacks]
    ensures Mirrored(t) && !Grouped(t)
  {
    assert t[..1] == [Uses];
  }

  lemma ScenesFit(b: string, p: Part, q: Part, scenes: seq<Scene>)
    requires scenes == [SceneOf(b, [p, q]), SceneOf(b, [p])]
    ensures ScenesIn(scenes, {p, q}) && ScenesOver(scenes, {b}) && Apart({b})
  {
    SceneIs(b, [p, q], b);
    SceneIs(b, [p], b);
    SceneOfIn(b, [p, q], {p, q});
    SceneOfIn(b, [p], {p, q});
  }

  /** A name used and then lacking is left behind. */
  lemma LackingLeft(v: World, server: map<string, Part>, scenes: seq<Scene>, ids: set<string>, b: string, m: string)
    requires Follows(v, server, scenes, ids) && b in ids && Family(b, m) && Sights(scenes, b, m) == [Uses, Lacks]
    ensures m in v.server && m in v.geometry && m !in MembersAt(v.groups, b)
  {
    SecondStays(Sights(scenes, b, m));
  }

  lemma LackingCounts(scenes: seq<Scene>, b: string, m: string)
    requires Sights(scenes, b, m) == [Uses, Lacks]
    ensures !NothingLeft(scenes)
  {
    assert LastUse(Sights(scenes, b, m), 0);
  }

  /** Two supported shapes and then one, every call answered: the second shape's object stays on the
      server under a name that is no longer in the object's group, so a rebuild differs. */
  lemma SecondShapeLeft(env: Env, server: map<string, Part>, b: string, p: Part, q: Part, scenes: seq<Scene>)
    requires Reliable(env, {p, q}) && FreeNames(server, {b}) && !q.solid.kind.Unsupported?
    requires scenes == [SceneOf(b, [p, q]), SceneOf(b, [p])]
    ensures var v := SyncAll(env, Unsynced(server), scenes);
            var m := MemberName(b, 1, 2);
            && m in v.server && m in v.geometry && m !in MembersAt(v.groups, b)
            && !SameMirror(v, Sync(env, Unsynced(server), SceneOf(b, [p])))
  {
    ScenesFit(b, p, q, scenes);
    MemberFamily(b, 1, 2);
    SecondLacks(b, p, q);
    var m := MemberName(b, 1, 2);
    assert Sights(scenes, b, m) == [Uses, Lacks];
    RunFollows(env, {p, q}, server, scenes, {b});
    LackingLeft(SyncAll(env, Unsynced(server), scenes), server, scenes, {b}, b, m);
    LackingCounts(scenes, b, m);
    AgreementExactly(env, {p, q}, server, scenes, {b});
  }
}
