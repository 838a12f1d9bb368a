/** What the scene mirror keeps whatever calls fail. */
module MirrorSafety {
  import opened Names
  import opened Mirror
  import opened Chains

  /** The caches cover the same names, describe objects really on the server, and agree. */
  ghost predicate Sound(env: Env, w: World) {
    w.sigs.Keys == w.geometry.Keys &&
    forall m :: m in w.geometry ==>
                  && m in w.server && w.server[m] == w.geometry[m]
                  && w.sigs[m] == env.sign(w.geometry[m])
                  && !w.geometry[m].solid.kind.Unsupported?
  }

  lemma SyncPartSound(env: Env, w: World, name: string, part: Part)
    requires Sound(env, w)
    ensures Sound(env, SyncPart(env, w, name, part).0)
  {
  }

  lemma {:induction false} RemoveAllSound(env: Env, w: World, names: seq<string>, i: nat)
    requires i <= |names| && Sound(env, w)
    ensures Sound(env, RemoveAll(env, w, names, i))
  {
    if i > 0 {
      RemoveAllSound(env, w, names, i - 1);
    }
  }

  lemma {:induction false} SyncPartsSound(env: Env, w: World, base: string, parts: seq<Part>, i: nat)
    requires i <= |parts| && Sound(env, w)
    ensures Sound(env, SyncParts(env, w, base, parts, i).0)
  {
    if i > 0 {
      SyncPartsSound(env, w, base, parts, i - 1);
      SyncPartSound(env, SyncParts(env, w, base, parts, i - 1).0, MemberName(base, i - 1, |parts|), parts[i - 1]);
    }
  }

  lemma {:induction false} DropStaleSound(env: Env, w: World, wanted: seq<string>, i: nat)
    requires i <= |w.groups| && Sound(env, w)
    ensures Sound(env, DropStale(env, w, wanted, i))
  {
    if i > 0 {
      DropStaleSound(env, w, wanted, i - 1);
      var g := w.groups[i - 1];
      RemoveAllSound(env, DropStale(env, w, wanted, i - 1), g.members, |g.members|);
    }
  }

  lemma {:induction false} SyncBasesSound(env: Env, w: World, scene: Scene, wanted: seq<string>, i: nat)
    requires i <= |wanted| && Sound(env, w)
    ensures Sound(env, SyncBases(env, w, scene, wanted, i).0)
  {
    if i > 0 {
      SyncBasesSound(env, w, scene, wanted, i - 1);
      var parts := StaticParts(scene, wanted[i - 1]);
      SyncPartsSound(env, SyncBases(env, w, scene, wanted, i - 1).0, wanted[i - 1], parts, |parts|);
    }
  }

  lemma SyncSound(env: Env, w: World, scene: Scene)
    requires Sound(env, w)
    ensures Sound(env, Sync(env, w, scene))
  {
    var wanted := Wanted(scene);
    DropStaleSound(env, w, wanted, |w.groups|);
    SyncBasesSound(env, WithoutStale(env, w, wanted), scene, wanted, |wanted|);
  }

  // ---- group members stay recorded, as long as no id is another id's member name ----

  /** The names the parts of `base` can get. */
  ghost predicate Family(base: string, m: string) {
    m == base || Extends(base, m)
  }

  ghost predicate Apart(ids: set<string>) {
    forall b, c :: b in ids && c in ids && b != c ==> !Extends(b, c)
  }

  lemma FamiliesApart(ids: set<string>, b: string, c: string, m: string)
    requires Apart(ids) && b in ids && c in ids && Family(b, m) && Family(c, m)
    ensures b == c
  {
    if m != b && m != c {
      var i: nat :| m == b + "__" + ToString(i);
      var j: nat :| m == c + "__" + ToString(j);
      SuffixUnique(b, i, c, j);
    }
  }

  /** Names outside the family of `base` are recorded in `v` as they were in `w`. */
  ghost predicate KeptOutside(base: string, w: World, v: World) {
    forall m :: !Family(base, m) ==> (m in v.sigs <==> m in w.sigs)
  }

  lemma {:induction false} RemoveAllTouches(env: Env, w: World, base: string, names: seq<string>, i: nat)
    requires i <= |names| && forall m :: m in names ==> Family(base, m)
    ensures KeptOutside(base, w, RemoveAll(env, w, names, i))
  {
    if i > 0 {
      RemoveAllTouches(env, w, base, names, i - 1);
      assert names[i - 1] in names;
    }
  }

  lemma SyncPartTouches(env: Env, w: World, name: string, part: Part)
    ensures forall m :: m != name ==> (m in SyncPart(env, w, name, part).0.sigs <==> m in w.sigs)
    ensures SyncPart(env, w, name, part).1 ==> name in SyncPart(env, w, name, part).0.sigs
    ensures SyncPart(env, w, name, part).0.groups == w.groups
  {
  }

  lemma MemberFamily(base: string, i: nat, n: nat)
    requires i < n
    ensures Family(base, MemberName(base, i, n))
  {
  }

  lemma NextPart(env: Env, w: World, base: string, parts: seq<Part>, i: nat)
    requires i < |parts|
    ensures var r := SyncParts(env, w, base, parts, i);
            var s := SyncPart(env, r.0, MemberName(base, i, |parts|), parts[i]);
            SyncParts(env, w, base, parts, i + 1) == (s.0, if s.1 then r.1 + [MemberName(base, i, |parts|)] else r.1)
  {
  }

  /** The names in `members` are recorded and belong to the first `i` of `n` parts. */
  ghost predicate KeptOf(base: string, n: nat, i: nat, v: World, members: seq<string>) {
    forall m :: m in members ==> m in v.sigs && exists k: nat :: k < i && k < n && m == MemberName(base, k, n)
  }

  lemma KeepsNext(env: Env, w: World, base: string, parts: seq<Part>, i: nat, members: seq<string>)
    requires i < |parts| && KeptOf(base, |parts|, i, w, members)
    ensures var name := MemberName(base, i, |parts|);
            var s := SyncPart(env, w, name, parts[i]);
            && s.0.groups == w.groups && KeptOutside(base, w, s.0)
            && KeptOf(base, |parts|, i + 1, s.0, if s.1 then members + [name] else members)
  {
    var name := MemberName(base, i, |parts|);
    SyncPartTouches(env, w, name, parts[i]);
    MemberFamily(base, i, |parts|);
    forall m | m in members ensures m in SyncPart(env, w, name, parts[i]).0.sigs {
      var k: nat :| k < i && k < |parts| && m == MemberName(base, k, |parts|);
      if m == name {
        MemberInjective(base, k, i, |parts|);
      }
    }
  }

  /** Handling the first `i` parts keeps to the family, and every name kept is recorded. */
  lemma {:induction false} SyncPartsTouches(env: Env, w: World, base: string, parts: seq<Part>, i: nat,
                                            r: (World, seq<string>))
    requires i <= |parts| && r == SyncParts(env, w, base, parts, i)
    ensures r.0.groups == w.groups && KeptOutside(base, w, r.0) && KeptOf(base, |parts|, i, r.0, r.1)
  {
    if i > 0 {
      var before := SyncParts(env, w, base, parts, i - 1);
      SyncPartsTouches(env, w, base, parts, i - 1, before);
      NextPart(env, w, base, parts, i - 1);
      KeepsNext(env, before.0, base, parts, i - 1, before.1);
    }
  }

  ghost predicate Recorded(sigs: map<string, string>, members: seq<string>) {
    forall m :: m in members ==> m in sigs
  }

  ghost predicate MembersRecorded(w: World) {
    forall g :: g in w.groups ==> Recorded(w.sigs, g.members)
  }

  ghost predicate OfFamily(g: Group) {
    forall m :: m in g.members ==> Family(g.base, m)
  }

  /** Every group of one of the ids in `ids` that `which` picks is recorded, under names of its own. */
  ghost predicate Tracked(ids: set<string>, groups: seq<Group>, sigs: map<string, string>) {
    forall g :: g in groups ==> g.base in ids && OfFamily(g) && Recorded(sigs, g.members)
  }

  /** Groups of other ids survive work on `base`. */
  lemma TrackedOutside(ids: set<string>, base: string, groups: seq<Group>, w: World, v: World)
    requires Apart(ids) && base in ids && KeptOutside(base, w, v)
    requires Tracked(ids, groups, w.sigs) && forall g :: g in groups ==> g.base != base
    ensures Tracked(ids, groups, v.sigs)
  {
    forall g, m | g in groups && m in g.members ensures m in v.sigs {
      assert Family(g.base, m) && m in w.sigs;
      if Family(base, m) {
        FamiliesApart(ids, base, g.base, m);
      }
    }
  }

  lemma {:induction false} DropStaleTracked(env: Env, w: World, ids: set<string>, wanted: seq<string>, i: nat)
    requires i <= |w.groups| && Apart(ids) && Tracked(ids, w.groups, w.sigs)
    ensures Tracked(ids, KeepWanted(w.groups, wanted), DropStale(env, w, wanted, i).sigs)
  {
    if i > 0 {
      DropStaleTracked(env, w, ids, wanted, i - 1);
      var g := w.groups[i - 1];
      var before := DropStale(env, w, wanted, i - 1);
      if g.base !in wanted {
        assert OfFamily(g);
        RemoveAllTouches(env, before, g.base, g.members, |g.members|);
        TrackedOutside(ids, g.base, KeepWanted(w.groups, wanted), before, DropGroup(env, before, g));
      }
    }
  }

  /** The groups of attached ids, which are carried over. */
  function Carried(groups: seq<Group>, scene: Scene): seq<Group> {
    KeepWanted(groups, scene.attached)
  }

  lemma SyncBaseTracked(env: Env, w: World, ids: set<string>, scene: Scene, base: string, done: seq<Group>)
    requires Apart(ids) && base in ids
    requires Tracked(ids, Carried(w.groups, scene), w.sigs)
    requires Tracked(ids, done, w.sigs) && forall g :: g in done ==> g.base != base
    ensures SyncBase(env, w, scene, base).0.groups == w.groups
    ensures Tracked(ids, Carried(w.groups, scene), SyncBase(env, w, scene, base).0.sigs)
    ensures Tracked(ids, done + SyncBase(env, w, scene, base).1, SyncBase(env, w, scene, base).0.sigs)
    ensures forall g :: g in SyncBase(env, w, scene, base).1 ==> g.base == base
  {
    if base !in scene.attached {
      var parts := StaticParts(scene, base);
      var (after, members) := SyncParts(env, w, base, parts, |parts|);
      SyncPartsTouches(env, w, base, parts, |parts|, (after, members));
      TrackedOutside(ids, base, Carried(w.groups, scene), w, after);
      TrackedOutside(ids, base, done, w, after);
      forall m | m in members ensures Family(base, m) {
        var k: nat :| k < |parts| && m == MemberName(base, k, |parts|);
        MemberFamily(base, k, |parts|);
      }
    }
  }

  /** After the ids `upto`: the groups made so far and the ones still to carry over are tracked. */
  ghost predicate Progress(ids: set<string>, w: World, scene: Scene, now: World, groups: seq<Group>,
                           upto: seq<string>)
  {
    && now.groups == w.groups
    && Tracked(ids, Carried(w.groups, scene), now.sigs)
    && Tracked(ids, groups, now.sigs)
    && forall g :: g in groups ==> g.base in upto
  }

  lemma NextProgress(env: Env, ids: set<string>, w: World, scene: Scene, now: World, groups: seq<Group>,
                     upto: seq<string>, base: string)
    requires Apart(ids) && base in ids && base !in upto && Progress(ids, w, scene, now, groups, upto)
    ensures var r := SyncBase(env, now, scene, base);
            Progress(ids, w, scene, r.0, groups + r.1, upto + [base])
  {
    SyncBaseTracked(env, now, ids, scene, base, groups);
  }

  lemma TakeNext(names: seq<string>, i: nat)
    requires 0 < i <= |names| && NoDup(names)
    ensures names[..i] == names[..i - 1] + [names[i - 1]]
    ensures names[i - 1] !in names[..i - 1] && names[i - 1] in names
  {
  }

  lemma {:induction false} SyncBasesTracked(env: Env, w: World, ids: set<string>, scene: Scene, wanted: seq<string>,
                                            i: nat)
    requires i <= |wanted| && Apart(ids) && NoDup(wanted) && forall b :: b in wanted ==> b in ids
    requires Tracked(ids, Carried(w.groups, scene), w.sigs)
    ensures var r := SyncBases(env, w, scene, wanted, i);
            Progress(ids, w, scene, r.0, r.1, wanted[..i])
  {
    if i > 0 {
      SyncBasesTracked(env, w, ids, scene, wanted, i - 1);
      var (before, groups) := SyncBases(env, w, scene, wanted, i - 1);
      TakeNext(wanted, i);
      NextProgress(env, ids, w, scene, before, groups, wanted[..i - 1], wanted[i - 1]);
    }
  }

  /** World ids are distinct: the world keeps its objects in a map. */
  ghost predicate WellFormed(scene: Scene) {
    NoDup(Bases(scene.world))
  }

  lemma {:induction false} WantedNoDup(scene: Scene, i: nat)
    requires i <= |scene.attached| && WellFormed(scene)
    ensures NoDup(WantedTo(scene, i))
  {
    if i > 0 {
      WantedNoDup(scene, i - 1);
    }
  }

  /** The ids a sync goes through: those of the world, as listed, then the attached ones not among them. */
  lemma {:induction false} WantedInOrder(scene: Scene, i: nat)
    requires i < |scene.attached|
    ensures Bases(scene.world) <= WantedTo(scene, i)
    ensures var id := scene.attached[i];
            WantedTo(scene, i + 1) == WantedTo(scene, i) + if id in WantedTo(scene, i) then [] else [id]
  {
    if i > 0 {
      WantedInOrder(scene, i - 1);
    }
  }

  ghost predicate IdsOf(scene: Scene, ids: set<string>) {
    forall b :: b in Wanted(scene) ==> b in ids
  }

  lemma SyncTracked(env: Env, w: World, ids: set<string>, scene: Scene)
    requires Apart(ids) && WellFormed(scene) && IdsOf(scene, ids)
    requires Tracked(ids, w.groups, w.sigs)
    ensures Tracked(ids, Sync(env, w, scene).groups, Sync(env, w, scene).sigs)
  {
    var wanted := Wanted(scene);
    WantedNoDup(scene, |scene.attached|);
    DropStaleTracked(env, w, ids, wanted, |w.groups|);
    SyncBasesTracked(env, WithoutStale(env, w, wanted), ids, scene, wanted, |wanted|);
  }

  ghost predicate ScenesOver(scenes: seq<Scene>, ids: set<string>) {
    forall k :: 0 <= k < |scenes| ==> WellFormed(scenes[k]) && IdsOf(scenes[k], ids)
  }

  /** Over every run, however the calls fare: the two caches cover the same names and describe
      objects really on the server. */
  lemma {:induction false} RunSound(env: Env, server: map<string, Part>, scenes: seq<Scene>)
    ensures Sound(env, SyncAll(env, Unsynced(server), scenes))
  {
    if scenes != [] {
      RunSound(env, server, scenes[..|scenes| - 1]);
      SyncSound(env, SyncAll(env, Unsynced(server), scenes[..|scenes| - 1]), scenes[|scenes| - 1]);
    }
  }

  lemma {:induction false} RunTracked(env: Env, server: map<string, Part>, scenes: seq<Scene>, ids: set<string>)
    requires Apart(ids) && ScenesOver(scenes, ids)
    ensures Tracked(ids, SyncAll(env, Unsynced(server), scenes).groups, SyncAll(env, Unsynced(server), scenes).sigs)
  {
    if scenes != [] {
      var n := |scenes| - 1;
      RunTracked(env, server, scenes[..n], ids);
      assert ScenesOver([scenes[n]], ids) by { assert WellFormed(scenes[n]) && IdsOf(scenes[n], ids); }
      SyncTracked(env, SyncAll(env, Unsynced(server), scenes[..n]), ids, scenes[n]);
    }
  }

  // ---- and only then ----

  ghost predicate AnsweredBelow(env: Env, n: nat) {
    forall c: nat :: c < n ==> env.reply(c).Answered?
  }

  /** `members` are the names of the first parts of `parts`, and all that is recorded, each with the
      signature of its part; it took one call each. */
  ghost predicate Freshly(env: Env, base: string, parts: seq<Part>, r: World, members: seq<string>) {
    && r.calls == |members| <= |parts| && r.groups == []
    && (forall m :: m in r.server || m in r.sigs ==> m in members)
    && forall k :: 0 <= k < |members| ==> FreshAt(env, base, parts, r, members, k)
  }

  ghost predicate FreshAt(env: Env, base: string, parts: seq<Part>, r: World, members: seq<string>, k: nat)
    requires k < |members| <= |parts|
  {
    && members[k] == MemberName(base, k, |parts|)
    && members[k] in r.server && members[k] in r.sigs && r.sigs[members[k]] == env.sign(parts[k])
  }

  lemma NewName(env: Env, base: string, parts: seq<Part>, r: World, members: seq<string>)
    requires Freshly(env, base, parts, r, members) && |members| < |parts|
    ensures MemberName(base, |members|, |parts|) !in members
  {
    forall k | 0 <= k < |members| ensures members[k] != MemberName(base, |members|, |parts|) {
      assert FreshAt(env, base, parts, r, members, k);
      if members[k] == MemberName(base, |members|, |parts|) {
        MemberInjective(base, k, |members|, |parts|);
      }
    }
  }

  lemma FreshPart(env: Env, base: string, parts: seq<Part>, r: World, members: seq<string>)
    requires Freshly(env, base, parts, r, members) && |members| < |parts|
    requires !parts[|members|].solid.kind.Unsupported? && AnsweredBelow(env, |members| + 1)
    ensures var name := MemberName(base, |members|, |parts|);
            var s := SyncPart(env, r, name, parts[|members|]);
            s.1 && Freshly(env, base, parts, s.0, members + [name])
  {
    var i := |members|;
    var name := MemberName(base, i, |parts|);
    NewName(env, base, parts, r, members);
    var s := SyncPart(env, r, name, parts[i]);
    forall k | 0 <= k <= i ensures FreshAt(env, base, parts, s.0, members + [name], k) {
      if k < i {
        assert FreshAt(env, base, parts, r, members, k);
      }
    }
  }

  lemma {:induction false} FreshParts(env: Env, base: string, parts: seq<Part>, i: nat, r: (World, seq<string>))
    requires i <= |parts| && forall k :: 0 <= k < |parts| ==> !parts[k].solid.kind.Unsupported?
    requires AnsweredBelow(env, i) && r == SyncParts(env, Unsynced(map[]), base, parts, i)
    ensures Freshly(env, base, parts, r.0, r.1) && |r.1| == i
  {
    if i > 0 {
      var before := SyncParts(env, Unsynced(map[]), base, parts, i - 1);
      FreshParts(env, base, parts, i - 1, before);
      FreshPart(env, base, parts, before.0, before.1);
      NextPart(env, Unsynced(map[]), base, parts, i - 1);
    }
  }

  /** Two scene objects, the id of the second being a member name of the first. */
  function ClashScene(b: string, i: nat, c: string, p: Part, q: Part): Scene {
    Scene([Body(b, seq(i + 2, _ => p.solid), seq(i + 2, _ => p.pose)), Body(c, [q.solid], [q.pose])], [])
  }

  function FailAt(n: nat): nat -> Outcome {
    k => if k == n then Unserved else Answered
  }

  /** When the second object's add fails, the first one's group names an unrecorded object. */
  lemma ClashLosesMember(sign: Part -> string, b: string, i: nat, p: Part, q: Part)
    requires sign(p) != sign(q)
    requires !p.solid.kind.Unsupported? && !q.solid.kind.Unsupported?
    ensures var c := b + "__" + ToString(i);
            !MembersRecorded(Sync(Env(FailAt(i + 3), sign), Unsynced(map[]), ClashScene(b, i, c, p, q)))
  {
    var c := b + "__" + ToString(i);
    var env := Env(FailAt(i + 3), sign);
    var scene := ClashScene(b, i, c, p, q);
    SuffixLonger(b, i);
    var wanted := Wanted(scene);
    assert scene.attached[..0] == [];
    assert wanted == [b, c];
    var w := WithoutStale(env, Unsynced(map[]), wanted);
    assert w == Unsynced(map[]);
    ClashFirst(env, scene, b, i, p);
    assert SyncBases(env, w, scene, wanted, 0) == (w, []) && wanted[0] == b;
    var (first, groups) := SyncBases(env, w, scene, wanted, 1);
    assert first.calls == i + 2;
    assert scene.world[1..] == [scene.world[1]];
    assert Lookup(scene.world, c) == [scene.world[1]];
    var parts := StaticParts(scene, c);
    assert parts == [q];
    ClashSecond(env, first, c, q);
    var after := SyncBases(env, w, scene, wanted, 2);
    assert groups[0] in after.1 && c in groups[0].members;
    assert !Recorded(after.0.sigs, groups[0].members);
  }

  lemma ClashFirst(env: Env, scene: Scene, b: string, i: nat, p: Part)
    requires AnsweredBelow(env, i + 2) && !p.solid.kind.Unsupported?
    requires scene.attached == [] && |scene.world| > 0
    requires scene.world[0] == Body(b, seq(i + 2, _ => p.solid), seq(i + 2, _ => p.pose))
    ensures var r := SyncBase(env, Unsynced(map[]), scene, b);
            && r.0.calls == i + 2 && r.0.groups == [] && |r.1| == 1
            && MemberName(b, i, i + 2) in r.1[0].members
            && MemberName(b, i, i + 2) in r.0.sigs && MemberName(b, i, i + 2) in r.0.server
            && r.0.sigs[MemberName(b, i, i + 2)] == env.sign(p)
  {
    var parts := StaticParts(scene, b);
    assert |parts| == i + 2 && forall k :: 0 <= k < i + 2 ==> parts[k] == p;
    var r := SyncParts(env, Unsynced(map[]), b, parts, i + 2);
    FreshParts(env, b, parts, i + 2, r);
    assert FreshAt(env, b, parts, r.0, r.1, i);
  }

  /** The changed part is removed, and its add is not served. */
  lemma ClashSecond(env: Env, w: World, c: string, q: Part)
    requires env.reply(w.calls + 1).Unserved? && !q.solid.kind.Unsupported?
    requires c in w.sigs && w.sigs[c] != env.sign(q)
    ensures SyncParts(env, w, c, [q], 1).1 == [] && c !in SyncParts(env, w, c, [q], 1).0.sigs
  {
    assert MemberName(c, 0, 1) == c;
    assert SyncParts(env, w, c, [q], 0) == (w, []);
  }

  /** Group members are recorded after every run over `ids`, however the calls fare, exactly
      when no id of `ids` is a name that another one gives to one of several shapes. */
  lemma {:induction false} MembersRecordedExactly(sign: Part -> string, ids: set<string>, p: Part, q: Part)
    requires sign(p) != sign(q)
    requires !p.solid.kind.Unsupported? && !q.solid.kind.Unsupported?
    ensures (forall reply: nat -> Outcome, server, scenes :: ScenesOver(scenes, ids) ==>
               MembersRecorded(SyncAll(Env(reply, sign), Unsynced(server), scenes)))
            <==> Apart(ids)
  {
    if Apart(ids) {
      forall reply: nat -> Outcome, server, scenes | ScenesOver(scenes, ids)
        ensures MembersRecorded(SyncAll(Env(reply, sign), Unsynced(server), scenes))
      {
        RunTracked(Env(reply, sign), server, scenes, ids);
      }
    } else {
      var b, c :| b in ids && c in ids && b != c && Extends(b, c);
      var i: nat :| c == b + "__" + ToString(i);
      var scene := ClashScene(b, i, c, p, q);
      assert scene.attached[..0] == [];
      assert ScenesOver([scene], ids);
      ClashLosesMember(sign, b, i, p, q);
      var env := Env(FailAt(i + 3), sign);
      assert [scene][..0] == [];
      assert SyncAll(env, Unsynced(map[]), [scene][..0]) == Unsynced(map[]);
      assert !MembersRecorded(SyncAll(env, Unsynced(map[]), [scene]));
    }
  }
}
