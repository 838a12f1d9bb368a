/** The incremental mirror after a whole run of scenes, against a rebuild from the last one. */
module MirrorRuns {
  import opened Names
  import opened Mirror
  import opened Chains
  import opened MirrorSafety
  import opened MirrorAgreement
  import opened MirrorRebuild

  // ---- one name over a run ----

  /** What a scene does with a name of an object: it has a shape of that name, it attaches the
      object, it wants the object without that name, or it does not want the object. */
  datatype Sight = Uses | Attaches | Lacks | Omits

  function See(scene: Scene, b: string, m: string): Sight {
    if m in ExpandBase(scene, b) then Uses
    else if b in scene.attached then Attaches
    else if b in Wanted(scene) then Lacks
    else Omits
  }

  function Sights(scenes: seq<Scene>, b: string, m: string): (t: seq<Sight>)
    ensures |t| == |scenes| && forall k :: 0 <= k < |t| ==> t[k] == See(scenes[k], b, m)
  {
    seq(|scenes|, k requires 0 <= k < |scenes| => See(scenes[k], b, m))
  }

  /** The name is in the object's group; an attached object keeps its group. */
  ghost predicate Grouped(t: seq<Sight>) {
    t != [] && (t[|t| - 1].Uses? || (t[|t| - 1].Attaches? && Grouped(t[..|t| - 1])))
  }

  /** The name is mirrored; of an omitted object only what is in its group is removed. */
  ghost predicate Mirrored(t: seq<Sight>) {
    t != [] &&
    (t[|t| - 1].Uses? || (Mirrored(t[..|t| - 1]) && !(t[|t| - 1].Omits? && Grouped(t[..|t| - 1]))))
  }

  ghost predicate LastUse(t: seq<Sight>, j: nat) {
    j < |t| && t[j].Uses? && forall i :: j < i < |t| ==> !t[i].Uses?
  }

  ghost predicate AttachedBetween(t: seq<Sight>, j: nat, i: nat)
    requires i <= |t|
  {
    forall k :: j < k < i ==> t[k].Attaches?
  }

  /** The first scene after `j` that does not attach the object omits it. */
  ghost predicate Dismissed(t: seq<Sight>, j: nat) {
    exists i :: j < i < |t| && t[i].Omits? && AttachedBetween(t, j, i)
  }

  /** Every name last used before the last scene belongs to an object dismissed after that use. */
  ghost predicate NothingLeft(scenes: seq<Scene>) {
    forall b, m, j: nat :: j < |scenes| - 1 && LastUse(Sights(scenes, b, m), j) ==> Dismissed(Sights(scenes, b, m), j)
  }

  lemma {:induction false} NeverUsed(t: seq<Sight>)
    requires forall i :: 0 <= i < |t| ==> !t[i].Uses?
    ensures !Mirrored(t) && !Grouped(t)
  {
    if t != [] {
      NeverUsed(t[..|t| - 1]);
    }
  }

  lemma DismissedStep(t: seq<Sight>, j: nat)
    requires j < |t| - 1
    ensures var n := |t| - 1;
            Dismissed(t, j) <==> Dismissed(t[..n], j) || (t[n].Omits? && AttachedBetween(t[..n], j, n))
  {
    var n := |t| - 1;
    var before := t[..n];
    if i :| j < i < |t| && t[i].Omits? && AttachedBetween(t, j, i) {
      assert i < n ==> before[i].Omits? && AttachedBetween(before, j, i);
    }
    if i :| j < i < n && before[i].Omits? && AttachedBetween(before, j, i) {
      assert t[i].Omits? && AttachedBetween(t, j, i);
    }
    if t[n].Omits? && AttachedBetween(before, j, n) {
      assert AttachedBetween(t, j, n);
    }
  }

  /** What the recursion comes to: a name is mirrored unless its object was dismissed after its
      last use, and in the group while its object has been attached since. */
  lemma {:induction false} AfterLastUse(t: seq<Sight>, j: nat)
    requires LastUse(t, j)
    ensures Mirrored(t) <==> !Dismissed(t, j)
    ensures Grouped(t) <==> AttachedBetween(t, j, |t|)
  {
    var n := |t| - 1;
    if j < n {
      AfterLastUse(t[..n], j);
      DismissedStep(t, j);
      assert AttachedBetween(t, j, |t|) <==> AttachedBetween(t[..n], j, n) && t[n].Attaches?;
    }
  }

  lemma {:induction false} LastUseExists(t: seq<Sight>, i: nat) returns (j: nat)
    requires i < |t| && t[i].Uses?
    ensures LastUse(t, j) && i <= j
    decreases |t| - i
  {
    if k :| i < k < |t| && t[k].Uses? {
      j := LastUseExists(t, k);
    } else {
      j := i;
    }
  }

  lemma {:induction false} GroupedMirrored(t: seq<Sight>)
    ensures Grouped(t) ==> Mirrored(t)
  {
    if t != [] {
      GroupedMirrored(t[..|t| - 1]);
    }
  }

  /** Nothing but a use in the last scene leaves a name mirrored, exactly when the name's object was
      dismissed after an earlier last use. */
  lemma LeftExactly(t: seq<Sight>)
    requires t != []
    ensures (Mirrored(t) ==> t[|t| - 1].Uses?) <==>
            forall j: nat :: j < |t| - 1 && LastUse(t, j) ==> Dismissed(t, j)
  {
    if i :| 0 <= i < |t| && t[i].Uses? {
      var j := LastUseExists(t, i);
      AfterLastUse(t, j);
    } else {
      NeverUsed(t);
    }
  }

  lemma {:induction false} GroupedFamily(scenes: seq<Scene>, b: string, m: string)
    requires Grouped(Sights(scenes, b, m))
    ensures Family(b, m)
  {
    var s := scenes[|scenes| - 1];
    if m in ExpandBase(s, b) {
      ExpandFamily(s, b, m);
    } else {
      assert Sights(scenes, b, m)[..|scenes| - 1] == Sights(scenes[..|scenes| - 1], b, m);
      GroupedFamily(scenes[..|scenes| - 1], b, m);
    }
  }

  lemma SightsStep(scenes: seq<Scene>, b: string, m: string)
    requires scenes != []
    ensures var n := |scenes| - 1;
            && Sights(scenes, b, m)[..n] == Sights(scenes[..n], b, m)
            && Sights(scenes, b, m)[n] == See(scenes[n], b, m)
  {
  }

  // ---- the groups over a run ----

  /** The members recorded for an object. */
  function MembersAt(groups: seq<Group>, b: string): seq<string> {
    if Find(groups, b) == [] then [] else Find(groups, b)[0].members
  }

  /** One group per object, and none without members. */
  ghost predicate Findable(groups: seq<Group>) {
    forall g :: g in groups ==> Find(groups, g.base) == [g] && g.members != []
  }

  ghost predicate GroupsFollow(groups: seq<Group>, scenes: seq<Scene>, ids: set<string>) {
    && Findable(groups)
    && forall b, m :: b in ids ==> (m in MembersAt(groups, b) <==> Grouped(Sights(scenes, b, m)))
  }

  lemma KeepStep(init: seq<Group>, g: Group, wanted: seq<string>)
    ensures KeepWanted(init + [g], wanted) == KeepWanted(init, wanted) + if g.base in wanted then [g] else []
  {
    assert (init + [g])[..|init|] == init;
  }

  lemma FindLast(init: seq<Group>, g: Group, b: string)
    ensures Find(init + [g], b) == if Find(init, b) != [] then Find(init, b) else if g.base == b then [g] else []
  {
    FindConcat(init, [g], b);
  }

  lemma FindKeptNext(init: seq<Group>, g: Group, wanted: seq<string>, b: string)
    requires b in wanted && Find(KeepWanted(init, wanted), b) == Find(init, b)
    ensures Find(KeepWanted(init + [g], wanted), b) == Find(init + [g], b)
  {
    KeepStep(init, g, wanted);
    FindLast(init, g, b);
    FindLast(KeepWanted(init, wanted), g, b);
    assert KeepWanted(init, wanted) + [] == KeepWanted(init, wanted);
  }

  lemma {:induction false} FindKept(groups: seq<Group>, wanted: seq<string>, b: string)
    requires b in wanted
    ensures Find(KeepWanted(groups, wanted), b) == Find(groups, b)
  {
    if groups != [] {
      var init, g := groups[..|groups| - 1], groups[|groups| - 1];
      FindKept(init, wanted, b);
      FindKeptNext(init, g, wanted, b);
      assert groups == init + [g];
    }
  }

  lemma KeptFindable(groups: seq<Group>, wanted: seq<string>)
    requires Findable(groups)
    ensures Findable(KeepWanted(groups, wanted))
  {
    forall g | g in KeepWanted(groups, wanted) ensures Find(KeepWanted(groups, wanted), g.base) == [g] {
      FindKept(groups, wanted, g.base);
    }
  }

  lemma NewFindable(groups: seq<Group>, scene: Scene, wanted: seq<string>)
    requires Findable(groups) && NoDup(wanted)
    ensures Findable(GroupsOf(groups, scene, wanted))
  {
    var all := GroupsOf(groups, scene, wanted);
    forall g | g in all ensures Find(all, g.base) == [g] && g.members != [] {
      GroupFrom(groups, scene, wanted, g);
      FindInGroups(groups, scene, wanted, g.base, all);
    }
  }

  /** The group of an id after a sync, from the groups before it. */
  lemma FindNew(groups: seq<Group>, scene: Scene, b: string, all: seq<Group>)
    requires WellFormed(scene)
    requires all == GroupsOf(KeepWanted(groups, Wanted(scene)), scene, Wanted(scene))
    ensures Find(all, b) == if b in Wanted(scene) then GroupOf(groups, scene, b) else []
  {
    var wanted := Wanted(scene);
    var kept := KeepWanted(groups, wanted);
    WantedNoDup(scene, |scene.attached|);
    if b in wanted {
      FindInGroups(kept, scene, wanted, b, all);
      FindKept(groups, wanted, b);
    } else if Find(all, b) != [] {
      GroupFrom(kept, scene, wanted, Find(all, b)[0]);
    }
  }

  lemma MembersNew(groups: seq<Group>, scene: Scene, b: string, m: string, all: seq<Group>)
    requires WellFormed(scene)
    requires all == GroupsOf(KeepWanted(groups, Wanted(scene)), scene, Wanted(scene))
    ensures m in MembersAt(all, b) <==>
            See(scene, b, m).Uses? || (See(scene, b, m).Attaches? && m in MembersAt(groups, b))
  {
    FindNew(groups, scene, b, all);
    var parts := StaticParts(scene, b);
    MembersOf(b, parts, |parts|, m);
    NotShown(scene, b);
  }

  /** An attached or unwanted id has no static shapes. */
  lemma NotShown(scene: Scene, b: string)
    ensures b in scene.attached ==> b in Wanted(scene)
    ensures b in scene.attached || b !in Wanted(scene) ==> ExpandBase(scene, b) == map[]
  {
    assert scene.attached[..|scene.attached|] == scene.attached;
    if b !in Wanted(scene) {
      NotFound(scene.world, b);
    }
  }

  lemma {:induction false} NotFound(world: seq<Body>, b: string)
    requires b !in Bases(world)
    ensures Lookup(world, b) == []
  {
    if world != [] {
      assert Bases(world)[0] == world[0].base;
      assert forall k :: 0 <= k < |world[1..]| ==> Bases(world[1..])[k] == Bases(world)[k + 1];
      NotFound(world[1..], b);
    }
  }

  lemma GroupsStep(groups: seq<Group>, scenes: seq<Scene>, ids: set<string>, all: seq<Group>)
    requires scenes != [] && WellFormed(scenes[|scenes| - 1])
    requires GroupsFollow(groups, scenes[..|scenes| - 1], ids)
    requires var s := scenes[|scenes| - 1]; all == GroupsOf(KeepWanted(groups, Wanted(s)), s, Wanted(s))
    ensures GroupsFollow(all, scenes, ids)
  {
    var s := scenes[|scenes| - 1];
    WantedNoDup(s, |s.attached|);
    KeptFindable(groups, Wanted(s));
    NewFindable(KeepWanted(groups, Wanted(s)), s, Wanted(s));
    forall b, m | b in ids ensures m in MembersAt(all, b) <==> Grouped(Sights(scenes, b, m)) {
      MembersNew(groups, s, b, m, all);
      SightsStep(scenes, b, m);
    }
  }

  // ---- the geometry over a run ----

  ghost predicate OursOnly(geometry: map<string, Part>, ids: set<string>) {
    forall m :: m in geometry ==> exists b :: b in ids && Family(b, m)
  }

  ghost predicate GeometryFollows(geometry: map<string, Part>, scenes: seq<Scene>, ids: set<string>) {
    && OursOnly(geometry, ids)
    && forall b, m :: b in ids && Family(b, m) ==> (m in geometry <==> Mirrored(Sights(scenes, b, m)))
  }

  lemma {:induction false} StaleHas(groups: seq<Group>, wanted: seq<string>, i: nat, m: string)
    requires i <= |groups|
    ensures m in Stale(groups, wanted, i) <==>
            exists k :: 0 <= k < i && groups[k].base !in wanted && m in groups[k].members
  {
    if i > 0 {
      StaleHas(groups, wanted, i - 1, m);
    }
  }

  /** A stale name of an id's family belongs to that id. */
  lemma StaleOf(groups: seq<Group>, wanted: seq<string>, ids: set<string>, b: string, m: string)
    requires Apart(ids) && b in ids && Family(b, m) && Findable(groups)
    requires forall g :: g in groups ==> g.base in ids && OfFamily(g)
    ensures m in Stale(groups, wanted, |groups|) <==> b !in wanted && m in MembersAt(groups, b)
  {
    StaleHas(groups, wanted, |groups|, m);
    if k :| 0 <= k < |groups| && groups[k].base !in wanted && m in groups[k].members {
      assert groups[k] in groups;
      FamiliesApart(ids, b, groups[k].base, m);
    }
    if b !in wanted && m in MembersAt(groups, b) {
      var g := Find(groups, b)[0];
      var k :| 0 <= k < |groups| && groups[k] == g;
    }
  }

  lemma ExpansionOf(scene: Scene, ids: set<string>, b: string, m: string)
    requires WellFormed(scene) && IdsOf(scene, ids) && Apart(ids) && b in ids && Family(b, m)
    ensures m in Expansion(scene) <==> m in ExpandBase(scene, b)
  {
    NotShown(scene, b);
    if m in Expansion(scene) {
      var c := ExpandsFrom(scene, m);
      ExpandFamily(scene, c, m);
      FamiliesApart(ids, b, c, m);
    }
    if m in ExpandBase(scene, b) {
      ExpandsAt(scene, ids, b, m);
    }
  }

  lemma ExpansionOurs(scene: Scene, ids: set<string>)
    requires IdsOf(scene, ids)
    ensures OursOnly(Expansion(scene), ids)
  {
    forall m | m in Expansion(scene) ensures exists b :: b in ids && Family(b, m) {
      var b := ExpandsFrom(scene, m);
      ExpandFamily(scene, b, m);
    }
  }

  lemma OursReplaced(e: map<string, Part>, gone: set<string>, d: map<string, Part>, ids: set<string>)
    requires OursOnly(e, ids) && OursOnly(d, ids)
    ensures OursOnly(e - gone + d, ids)
  {
    forall m | m in e - gone + d ensures exists b :: b in ids && Family(b, m) {
      assert m in e || m in d;
    }
  }

  lemma GeometryStep(groups: seq<Group>, geometry: map<string, Part>, scenes: seq<Scene>, ids: set<string>,
                     gone: set<string>)
    requires scenes != [] && WellFormed(scenes[|scenes| - 1]) && IdsOf(scenes[|scenes| - 1], ids) && Apart(ids)
    requires GroupsFollow(groups, scenes[..|scenes| - 1], ids) && GeometryFollows(geometry, scenes[..|scenes| - 1], ids)
    requires forall g :: g in groups ==> g.base in ids && OfFamily(g)
    requires gone == Stale(groups, Wanted(scenes[|scenes| - 1]), |groups|)
    ensures GeometryFollows(geometry - gone + Expansion(scenes[|scenes| - 1]), scenes, ids)
  {
    var s := scenes[|scenes| - 1];
    ExpansionOurs(s, ids);
    OursReplaced(geometry, gone, Expansion(s), ids);
    forall b, m | b in ids && Family(b, m)
      ensures m in geometry - gone + Expansion(s) <==> Mirrored(Sights(scenes, b, m))
    {
      ExpansionOf(s, ids, b, m);
      StaleOf(groups, Wanted(s), ids, b, m);
      SightsStep(scenes, b, m);
      NotShown(s, b);
    }
  }

  // ---- the world over a run ----

  /** Nothing on the server bears a name of one of our ids. */
  ghost predicate FreeNames(server: map<string, Part>, ids: set<string>) {
    forall b, m :: b in ids && m in server ==> !Family(b, m)
  }

  ghost predicate Follows(w: World, server: map<string, Part>, scenes: seq<Scene>, ids: set<string>) {
    && w.server == server + w.geometry
    && GroupsFollow(w.groups, scenes, ids) && GeometryFollows(w.geometry, scenes, ids)
  }

  lemma StaleFree(groups: seq<Group>, wanted: seq<string>, ids: set<string>, server: map<string, Part>)
    requires FreeNames(server, ids) && forall g :: g in groups ==> g.base in ids && OfFamily(g)
    ensures Stale(groups, wanted, |groups|) !! server.Keys
  {
    forall m | m in Stale(groups, wanted, |groups|) ensures m !in server {
      StaleHas(groups, wanted, |groups|, m);
      var k :| 0 <= k < |groups| && groups[k].base !in wanted && m in groups[k].members;
      assert groups[k] in groups;
    }
  }

  lemma ServerStep(server: map<string, Part>, geometry: map<string, Part>, gone: set<string>, e: map<string, Part>)
    requires gone !! server.Keys
    ensures server + geometry - gone + e == server + (geometry - gone + e)
  {
  }

  lemma FreeIds(w: World, server: map<string, Part>, ids: set<string>, wanted: seq<string>)
    requires w.server == server + w.geometry && w.sigs.Keys == w.geometry.Keys && FreeNames(server, ids)
    requires forall b :: b in wanted ==> b in ids
    ensures NoForeignIds(w, wanted)
  {
    forall b, m | b in wanted && Foreign(w, m) ensures !Family(b, m) {
      assert m in server;
    }
  }

  ghost predicate ScenesIn(scenes: seq<Scene>, play: set<Part>) {
    forall k :: 0 <= k < |scenes| ==> SceneIn(scenes[k], play)
  }

  /** `v` is what the last scene makes of `w`. */
  ghost predicate LastStep(w: World, v: World, s: Scene) {
    && v.geometry == w.geometry - StaleNames(w, s) + Expansion(s)
    && v.groups == GroupsOf(KeepWanted(w.groups, Wanted(s)), s, Wanted(s))
  }

  lemma FollowsStep(env: Env, play: set<Part>, server: map<string, Part>, scenes: seq<Scene>, ids: set<string>,
                    w: World)
    requires Reliable(env, play) && ScenesIn(scenes, play) && FreeNames(server, ids)
    requires Apart(ids) && ScenesOver(scenes, ids) && scenes != []
    requires Sound(env, w) && GeometryIn(w.geometry, play) && Follows(w, server, scenes[..|scenes| - 1], ids)
    requires forall g :: g in w.groups ==> g.base in ids && OfFamily(g)
    ensures var s := scenes[|scenes| - 1];
            var v := Sync(env, w, s);
            && Sound(env, v) && GeometryIn(v.geometry, play) && Follows(v, server, scenes, ids)
            && LastStep(w, v, s)
  {
    var s := scenes[|scenes| - 1];
    assert WellFormed(s) && IdsOf(s, ids) && SceneIn(s, play);
    FreeIds(w, server, ids, Wanted(s));
    SyncPlaces(env, play, w, s);
    GroupsStep(w.groups, scenes, ids, Sync(env, w, s).groups);
    GeometryStep(w.groups, w.geometry, scenes, ids, StaleNames(w, s));
    StaleFree(w.groups, Wanted(s), ids, server);
    ServerStep(server, w.geometry, StaleNames(w, s), Expansion(s));
  }

  lemma RunStart(server: map<string, Part>, ids: set<string>)
    ensures Follows(Unsynced(server), server, [], ids)
  {
    assert server + map[] == server;
  }

  lemma {:induction false} RunFollows(env: Env, play: set<Part>, server: map<string, Part>, scenes: seq<Scene>,
                                      ids: set<string>)
    requires Reliable(env, play) && ScenesIn(scenes, play) && FreeNames(server, ids)
    requires Apart(ids) && ScenesOver(scenes, ids)
    ensures var w := SyncAll(env, Unsynced(server), scenes);
            Sound(env, w) && GeometryIn(w.geometry, play) && Follows(w, server, scenes, ids)
  {
    if scenes == [] {
      RunStart(server, ids);
    } else {
      var before := scenes[..|scenes| - 1];
      assert ScenesIn(before, play) && ScenesOver(before, ids);
      RunFollows(env, play, server, before, ids);
      RunTracked(env, server, before, ids);
      FollowsStep(env, play, server, scenes, ids, SyncAll(env, Unsynced(server), before));
    }
  }

  // ---- against a rebuild ----

  ghost predicate SameMirror(v: World, w: World) {
    v.groups == w.groups && v.sigs == w.sigs && v.geometry == w.geometry && v.server == w.server
  }

  /** Equal geometry means equal signatures. */
  lemma SameSignatures(env: Env, v: World, w: World)
    requires Sound(env, v) && Sound(env, w)
    ensures v.geometry == w.geometry ==> v.sigs == w.sigs
  {
  }

  lemma SightsOurs(scenes: seq<Scene>, ids: set<string>, b: string, m: string, j: nat)
    requires ScenesOver(scenes, ids) && j < |scenes| && Sights(scenes, b, m)[j].Uses?
    ensures b in ids && Family(b, m)
  {
    assert IdsOf(scenes[j], ids);
    NotShown(scenes[j], b);
    ExpandFamily(scenes[j], b, m);
  }

  /** Nothing is mirrored for one name that the last scene does not give. */
  lemma NameAgrees(geometry: map<string, Part>, scenes: seq<Scene>, ids: set<string>, b: string, m: string)
    requires Apart(ids) && scenes != [] && b in ids && Family(b, m) && GeometryFollows(geometry, scenes, ids)
    requires WellFormed(scenes[|scenes| - 1]) && IdsOf(scenes[|scenes| - 1], ids)
    ensures var t := Sights(scenes, b, m);
            (m in geometry ==> m in Expansion(scenes[|scenes| - 1])) <==>
            forall j: nat :: j < |t| - 1 && LastUse(t, j) ==> Dismissed(t, j)
  {
    LeftExactly(Sights(scenes, b, m));
    ExpansionOf(scenes[|scenes| - 1], ids, b, m);
  }

  lemma NoneLeftOver(geometry: map<string, Part>, scenes: seq<Scene>, ids: set<string>, m: string)
    requires Apart(ids) && ScenesOver(scenes, ids) && scenes != []
    requires GeometryFollows(geometry, scenes, ids) && NothingLeft(scenes) && m in geometry
    ensures m in Expansion(scenes[|scenes| - 1])
  {
    var last := scenes[|scenes| - 1];
    assert WellFormed(last) && IdsOf(last, ids);
    var b :| b in ids && Family(b, m);
    NameAgrees(geometry, scenes, ids, b, m);
  }

  lemma AllDismissed(geometry: map<string, Part>, scenes: seq<Scene>, ids: set<string>, b: string, m: string, j: nat)
    requires Apart(ids) && ScenesOver(scenes, ids) && scenes != [] && GeometryFollows(geometry, scenes, ids)
    requires geometry.Keys <= Expansion(scenes[|scenes| - 1]).Keys
    requires j < |scenes| - 1 && LastUse(Sights(scenes, b, m), j)
    ensures Dismissed(Sights(scenes, b, m), j)
  {
    var last := scenes[|scenes| - 1];
    assert WellFormed(last) && IdsOf(last, ids);
    SightsOurs(scenes, ids, b, m, j);
    NameAgrees(geometry, scenes, ids, b, m);
    assert m in geometry ==> m in Expansion(last).Keys;
  }

  lemma GeometryAgrees(geometry: map<string, Part>, scenes: seq<Scene>, ids: set<string>)
    requires Apart(ids) && ScenesOver(scenes, ids) && scenes != []
    requires GeometryFollows(geometry, scenes, ids)
    ensures geometry.Keys <= Expansion(scenes[|scenes| - 1]).Keys <==> NothingLeft(scenes)
  {
    if NothingLeft(scenes) {
      forall m | m in geometry ensures m in Expansion(scenes[|scenes| - 1]) {
        NoneLeftOver(geometry, scenes, ids, m);
      }
    }
    if geometry.Keys <= Expansion(scenes[|scenes| - 1]).Keys {
      forall b, m, j: nat | j < |scenes| - 1 && LastUse(Sights(scenes, b, m), j)
        ensures Dismissed(Sights(scenes, b, m), j)
      {
        AllDismissed(geometry, scenes, ids, b, m, j);
      }
    }
  }

  /** No group is carried over into the last scene when nothing is left. */
  lemma NothingCarried(w: World, v: World, server: map<string, Part>, scenes: seq<Scene>, ids: set<string>, b: string)
    requires scenes != [] && ScenesOver(scenes, ids) && Apart(ids) && b in Wanted(scenes[|scenes| - 1])
    requires Follows(v, server, scenes, ids) && v.geometry.Keys <= Expansion(scenes[|scenes| - 1]).Keys
    requires LastStep(w, v, scenes[|scenes| - 1])
    ensures var s := scenes[|scenes| - 1];
            GroupOf(KeepWanted(w.groups, Wanted(s)), s, b) == GroupOf([], s, b)
  {
    var s := scenes[|scenes| - 1];
    assert WellFormed(s) && IdsOf(s, ids);
    FindNew(w.groups, s, b, v.groups);
    FindKept(w.groups, Wanted(s), b);
    if b in s.attached && Find(v.groups, b) != [] {
      var m := MembersAt(v.groups, b)[0];
      var t := Sights(scenes, b, m);
      assert Grouped(t);
      GroupedFamily(scenes, b, m);
      GroupedMirrored(t);
      ExpansionOf(s, ids, b, m);
      NotShown(s, b);
      assert false;
    }
  }

  ghost predicate Rebuilt(r: World, server: map<string, Part>, s: Scene) {
    && r.geometry == Expansion(s) && r.server == server + Expansion(s)
    && r.groups == GroupsOf([], s, Wanted(s))
  }

  lemma FromNothing(server: map<string, Part>, e: map<string, Part>)
    ensures map[] - {} + e == e && server - {} + e == server + e
  {
    assert server - {} == server;
  }

  /** A first sync puts the expansion on the server beside what was there. */
  lemma FirstSync(env: Env, play: set<Part>, server: map<string, Part>, scene: Scene, ids: set<string>)
    requires Reliable(env, play) && SceneIn(scene, play) && FreeNames(server, ids) && IdsOf(scene, ids)
    ensures var r := Sync(env, Unsynced(server), scene); Sound(env, r) && Rebuilt(r, server, scene)
  {
    var w := Unsynced(server);
    RunStart(server, ids);
    FreeIds(w, server, ids, Wanted(scene));
    SyncPlaces(env, play, w, scene);
    FromNothing(server, Expansion(scene));
  }

  lemma SubsetDecides(a: map<string, Part>, gone: set<string>, e: map<string, Part>)
    ensures a - gone + e == e <==> (a - gone + e).Keys <= e.Keys
  {
  }

  lemma Compare(env: Env, w: World, v: World, r: World, server: map<string, Part>, scenes: seq<Scene>, ids: set<string>)
    requires scenes != [] && ScenesOver(scenes, ids) && Apart(ids)
    requires Sound(env, v) && Follows(v, server, scenes, ids) && LastStep(w, v, scenes[|scenes| - 1])
    requires Sound(env, r) && Rebuilt(r, server, scenes[|scenes| - 1])
    ensures SameMirror(v, r) <==> NothingLeft(scenes)
  {
    var s := scenes[|scenes| - 1];
    GeometryAgrees(v.geometry, scenes, ids);
    SubsetDecides(w.geometry, StaleNames(w, s), Expansion(s));
    if NothingLeft(scenes) {
      var kept := KeepWanted(w.groups, Wanted(s));
      forall b | b in Wanted(s) ensures SameGroup(kept, [], s, b) {
        NothingCarried(w, v, server, scenes, ids, b);
      }
      SameGroups(kept, [], s, Wanted(s));
      SameSignatures(env, v, r);
    }
  }

  /** With every call answered: after any scenes the mirror, groups included, is what a rebuild from
      the last scene gives exactly when every name last used before it belongs to an object
      dismissed after that use. */
  lemma AgreementExactly(env: Env, play: set<Part>, server: map<string, Part>, scenes: seq<Scene>, ids: set<string>)
    requires Reliable(env, play) && ScenesIn(scenes, play) && FreeNames(server, ids)
    requires Apart(ids) && ScenesOver(scenes, ids) && scenes != []
    ensures SameMirror(SyncAll(env, Unsynced(server), scenes), Sync(env, Unsynced(server), scenes[|scenes| - 1]))
            <==> NothingLeft(scenes)
  {
    var before, s := scenes[..|scenes| - 1], scenes[|scenes| - 1];
    var w := SyncAll(env, Unsynced(server), before);
    assert ScenesIn(before, play) && ScenesOver(before, ids);
    RunFollows(env, play, server, before, ids);
    RunTracked(env, server, before, ids);
    FollowsStep(env, play, server, scenes, ids, w);
    FirstSync(env, play, server, s, ids);
    Compare(env, w, Sync(env, w, s), Sync(env, Unsynced(server), s), server, scenes, ids);
  }

  /** Every name mirrored for an id of both scenes is still a name of that id. */
  ghost predicate NamesSurvive(s0: Scene, s1: Scene) {
    forall b :: b in Wanted(s0) && b in Wanted(s1) ==> ExpandBase(s0, b).Keys <= ExpandBase(s1, b).Keys
  }

  /** Names that survive from each scene to the next are enough. */
  lemma SurvivalSuffices(scenes: seq<Scene>)
    requires forall k :: 0 <= k < |scenes| - 1 ==> NamesSurvive(scenes[k], scenes[k + 1])
    ensures NothingLeft(scenes)
  {
    forall b, m, j: nat | j < |scenes| - 1 && LastUse(Sights(scenes, b, m), j)
      ensures Dismissed(Sights(scenes, b, m), j)
    {
      var t := Sights(scenes, b, m);
      NotShown(scenes[j], b);
      NotShown(scenes[j + 1], b);
      assert NamesSurvive(scenes[j], scenes[j + 1]);
      assert m in ExpandBase(scenes[j], b).Keys && m !in ExpandBase(scenes[j + 1], b).Keys;
      assert t[j + 1].Omits? && AttachedBetween(t, j, j + 1);
    }
  }

  /** For two scenes they are needed as well. */
  lemma SurvivalOfTwo(s0: Scene, s1: Scene)
    ensures NothingLeft([s0, s1]) <==> NamesSurvive(s0, s1)
  {
    if NamesSurvive(s0, s1) {
      SurvivalSuffices([s0, s1]);
    }
    if NothingLeft([s0, s1]) {
      forall b, m | b in Wanted(s0) && b in Wanted(s1) && m in ExpandBase(s0, b) ensures m in ExpandBase(s1, b) {
        var t := Sights([s0, s1], b, m);
        LeftExactly(t);
        assert LastUse(t, 0) <==> !t[1].Uses?;
        assert Dismissed(t, 0) ==> t[1].Omits?;
      }
    }
  }

  // ---- in numbers of shapes ----

  /** Nothing is attached, and every shape is supported. */
  ghost predicate AllSupported(scene: Scene) {
    scene.attached == [] &&
    forall b, k :: b in Wanted(scene) && 0 <= k < |StaticParts(scene, b)| ==>
                     !StaticParts(scene, b)[k].solid.kind.Unsupported?
  }

  function Count(scene: Scene, base: string): nat {
    |StaticParts(scene, base)|
  }

  /** If object `b` stays for the scene after `j`, some later scene has all its names of scene `j`. */
  ghost predicate Returns(scenes: seq<Scene>, b: string, j: nat)
    requires j + 1 < |scenes|
  {
    b in Wanted(scenes[j]) && b in Wanted(scenes[j + 1]) ==>
      exists i :: j < i < |scenes| && CountKeeps(Count(scenes[j], b), Count(scenes[i], b))
  }

  ghost predicate CountsReturn(scenes: seq<Scene>) {
    forall b, j: nat :: j + 1 < |scenes| ==> Returns(scenes, b, j)
  }

  lemma SupportedKeys(scene: Scene, b: string, m: string)
    requires AllSupported(scene)
    ensures m in ExpandBase(scene, b) <==> IsMember(b, Count(scene, b), m)
  {
    var parts := StaticParts(scene, b);
    if m in ExpandBase(scene, b) {
      var k := ExpandOnly(b, parts, |parts|, m);
    }
    if IsMember(b, |parts|, m) {
      var k :| 0 <= k < |parts| && m == MemberName(b, k, |parts|);
      Shown(scene, b);
      ExpandAt(b, parts, |parts|, k);
    }
  }

  lemma Shown(scene: Scene, b: string)
    requires StaticParts(scene, b) != []
    ensures b in Wanted(scene)
  {
    if b !in Wanted(scene) {
      NotFound(scene.world, b);
    }
  }

  /** The last name of an object's shapes is used again only where all of them are. */
  lemma LastNameDecides(scene: Scene, b: string, n: nat)
    requires AllSupported(scene) && n > 0
    ensures MemberName(b, n - 1, n) in ExpandBase(scene, b) <==> CountKeeps(n, Count(scene, b))
    ensures CountKeeps(n, Count(scene, b)) ==> forall m :: IsMember(b, n, m) ==> m in ExpandBase(scene, b)
  {
    var k := Count(scene, b);
    SupportedKeys(scene, b, MemberName(b, n - 1, n));
    LastNameKept(b, n, k);
    NamesKeptExactly(b, n, k);
    forall m | CountKeeps(n, k) && IsMember(b, n, m) ensures m in ExpandBase(scene, b) {
      SupportedKeys(scene, b, m);
    }
  }

  /** Where nothing is attached a name is dismissed at once or not at all. */
  lemma DismissedNext(t: seq<Sight>, j: nat)
    requires j < |t| && forall k :: 0 <= k < |t| ==> !t[k].Attaches?
    ensures Dismissed(t, j) <==> j + 1 < |t| && t[j + 1].Omits?
  {
    if j + 1 < |t| && t[j + 1].Omits? {
      assert AttachedBetween(t, j, j + 1);
    }
  }

  lemma UsedAgain(scenes: seq<Scene>, b: string, j: nat)
    requires forall k :: 0 <= k < |scenes| ==> AllSupported(scenes[k])
    requires j + 1 < |scenes| && NothingLeft(scenes)
    ensures Returns(scenes, b, j)
  {
    var n := Count(scenes[j], b);
    if n > 0 && b in Wanted(scenes[j + 1]) {
      var m := MemberName(b, n - 1, n);
      LastNameDecides(scenes[j], b, n);
      var k := LastUseExists(Sights(scenes, b, m), j);
      DismissedNext(Sights(scenes, b, m), j);
      assert k > j;
      LastNameDecides(scenes[k], b, n);
    } else if n == 0 {
      assert CountKeeps(n, Count(scenes[j + 1], b));
    }
  }

  lemma NoneLeft(scenes: seq<Scene>, b: string, m: string, j: nat)
    requires forall k :: 0 <= k < |scenes| ==> AllSupported(scenes[k])
    requires CountsReturn(scenes) && j < |scenes| - 1 && LastUse(Sights(scenes, b, m), j)
    ensures Dismissed(Sights(scenes, b, m), j)
  {
    SupportedKeys(scenes[j], b, m);
    Shown(scenes[j], b);
    DismissedNext(Sights(scenes, b, m), j);
    if b in Wanted(scenes[j + 1]) {
      assert Returns(scenes, b, j);
      var i :| j < i < |scenes| && CountKeeps(Count(scenes[j], b), Count(scenes[i], b));
      LastNameDecides(scenes[i], b, Count(scenes[j], b));
      assert false;
    }
  }

  /** In numbers of shapes, when all are supported and nothing is attached: whenever an object stays
      for the next scene, some later one has its number of shapes, or both at least two and no fewer. */
  lemma AgreementByCounts(env: Env, play: set<Part>, server: map<string, Part>, scenes: seq<Scene>, ids: set<string>)
    requires Reliable(env, play) && ScenesIn(scenes, play) && FreeNames(server, ids)
    requires Apart(ids) && ScenesOver(scenes, ids) && scenes != []
    requires forall k :: 0 <= k < |scenes| ==> AllSupported(scenes[k])
    ensures SameMirror(SyncAll(env, Unsynced(server), scenes), Sync(env, Unsynced(server), scenes[|scenes| - 1]))
            <==> CountsReturn(scenes)
  {
    AgreementExactly(env, play, server, scenes, ids);
    if NothingLeft(scenes) {
      forall b, j: nat | j + 1 < |scenes| ensures Returns(scenes, b, j) {
        UsedAgain(scenes, b, j);
      }
    }
    if CountsReturn(scenes) {
      forall b, m, j: nat | j < |scenes| - 1 && LastUse(Sights(scenes, b, m), j)
        ensures Dismissed(Sights(scenes, b, m), j)
      {
        NoneLeft(scenes, b, m, j);
      }
    }
  }
}
