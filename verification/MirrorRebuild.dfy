/** What an expansion holds, and a sync repeated on the same scene. */
module MirrorRebuild {
  import opened Names
  import opened Mirror
  import opened Chains
  import opened MirrorSafety
  import opened MirrorAgreement

  // ---- what is in an expansion ----

  lemma {:induction false} ExpandAt(base: string, parts: seq<Part>, i: nat, k: nat)
    requires k < i <= |parts| && !parts[k].solid.kind.Unsupported?
    ensures var name := MemberName(base, k, |parts|);
            name in Expand(base, parts, i) && Expand(base, parts, i)[name] == parts[k]
  {
    ExpandStep(base, parts, i - 1);
    if k < i - 1 {
      ExpandAt(base, parts, i - 1, k);
      if MemberName(base, k, |parts|) == MemberName(base, i - 1, |parts|) {
        MemberInjective(base, k, i - 1, |parts|);
      }
    }
  }

  lemma {:induction false} ExpandOnly(base: string, parts: seq<Part>, i: nat, m: string) returns (k: nat)
    requires i <= |parts| && m in Expand(base, parts, i)
    ensures k < i && m == MemberName(base, k, |parts|) && !parts[k].solid.kind.Unsupported?
    ensures Family(base, m)
  {
    if m in Expand(base, parts, i - 1) {
      k := ExpandOnly(base, parts, i - 1, m);
    } else {
      k := i - 1;
    }
    MemberFamily(base, k, |parts|);
  }

  lemma ExpandFamily(scene: Scene, base: string, m: string)
    requires m in ExpandBase(scene, base)
    ensures Family(base, m)
  {
    var parts := StaticParts(scene, base);
    var _ := ExpandOnly(base, parts, |parts|, m);
  }

  lemma {:induction false} MergedFrom(layers: seq<map<string, Part>>, i: nat, m: string) returns (j: nat)
    requires i <= |layers| && m in Merged(layers, i)
    ensures j < i && m in layers[j]
  {
    j := i - 1;
    if m !in layers[j] {
      j := MergedFrom(layers, i - 1, m);
    }
  }

  lemma {:induction false} MergedAt(layers: seq<map<string, Part>>, i: nat, j: nat, m: string)
    requires j < i <= |layers| && m in layers[j] && forall k :: 0 <= k < i && m in layers[k] ==> k == j
    ensures m in Merged(layers, i) && Merged(layers, i)[m] == layers[j][m]
  {
    if j < i - 1 {
      MergedAt(layers, i - 1, j, m);
    }
  }

  lemma ExpandsFrom(scene: Scene, m: string) returns (b: string)
    requires m in Expansion(scene)
    ensures b in Wanted(scene) && m in ExpandBase(scene, b)
  {
    var wanted := Wanted(scene);
    var j := MergedFrom(Layers(scene, wanted), |wanted|, m);
    b := wanted[j];
  }

  /** Two wanted ids have no name in common. */
  lemma NotOther(ids: set<string>, scene: Scene, b: string, c: string, m: string)
    requires Apart(ids) && b in ids && c in ids && b != c && m in ExpandBase(scene, b)
    ensures m !in ExpandBase(scene, c)
  {
    ExpandFamily(scene, b, m);
    if m in ExpandBase(scene, c) {
      ExpandFamily(scene, c, m);
      FamiliesApart(ids, b, c, m);
    }
  }

  lemma ExpandsAt(scene: Scene, ids: set<string>, b: string, m: string)
    requires WellFormed(scene) && IdsOf(scene, ids) && Apart(ids) && b in Wanted(scene) && m in ExpandBase(scene, b)
    ensures m in Expansion(scene) && Expansion(scene)[m] == ExpandBase(scene, b)[m]
  {
    var wanted := Wanted(scene);
    var layers := Layers(scene, wanted);
    WantedNoDup(scene, |scene.attached|);
    var j :| 0 <= j < |wanted| && wanted[j] == b;
    forall k | 0 <= k < |layers| && m in layers[k] ensures k == j {
      assert wanted[k] in wanted;
      if wanted[k] != b {
        NotOther(ids, scene, b, wanted[k], m);
      }
    }
    MergedAt(layers, |wanted|, j, m);
  }

  // ---- a repeated sync ----

  /** Every supported part of `base` is recorded as it is, and no unsupported one is. */
  ghost predicate Settled(env: Env, w: World, base: string, parts: seq<Part>) {
    forall k :: 0 <= k < |parts| ==>
                  var name := MemberName(base, k, |parts|);
                  (name in w.sigs && w.sigs[name] == env.sign(parts[k])) == !parts[k].solid.kind.Unsupported?
  }

  lemma SettledPart(env: Env, w: World, name: string, part: Part)
    requires (name in w.sigs && w.sigs[name] == env.sign(part)) == !part.solid.kind.Unsupported?
    ensures SyncPart(env, w, name, part) == (w, !part.solid.kind.Unsupported?)
  {
  }

  lemma {:induction false} SettledParts(env: Env, w: World, base: string, parts: seq<Part>, i: nat)
    requires i <= |parts| && Settled(env, w, base, parts)
    ensures SyncParts(env, w, base, parts, i) == (w, SupportedNames(base, parts, i))
  {
    if i > 0 {
      SettledParts(env, w, base, parts, i - 1);
      NextPart(env, w, base, parts, i - 1);
      SettledPart(env, w, MemberName(base, i - 1, |parts|), parts[i - 1]);
      var names := SupportedNames(base, parts, i - 1);
      assert names + [] == names;
    }
  }

  lemma SettledBase(env: Env, w: World, scene: Scene, base: string)
    requires Settled(env, w, base, StaticParts(scene, base))
    ensures SyncBase(env, w, scene, base) == (w, GroupOf(w.groups, scene, base))
  {
    var parts := StaticParts(scene, base);
    SettledParts(env, w, base, parts, |parts|);
  }

  /** Syncing these ids changes nothing and gives these groups. */
  ghost predicate Unmoved(env: Env, w: World, scene: Scene, wanted: seq<string>, blocks: seq<seq<Group>>) {
    |blocks| == |wanted| && forall k :: 0 <= k < |wanted| ==> SyncBase(env, w, scene, wanted[k]) == (w, blocks[k])
  }

  lemma UnmovedNext(env: Env, w: World, scene: Scene, wanted: seq<string>, blocks: seq<seq<Group>>, i: nat)
    requires Unmoved(env, w, scene, wanted, blocks) && i < |wanted|
    requires SyncBases(env, w, scene, wanted, i) == (w, Joined(blocks, i))
    ensures SyncBases(env, w, scene, wanted, i + 1) == (w, Joined(blocks, i + 1))
  {
    NextBase(env, w, scene, wanted, i);
  }

  lemma UnmovedBases(env: Env, w: World, scene: Scene, wanted: seq<string>, blocks: seq<seq<Group>>)
    requires Unmoved(env, w, scene, wanted, blocks)
    ensures SyncBases(env, w, scene, wanted, |wanted|) == (w, Joined(blocks, |wanted|))
  {
    for i := 0 to |wanted|
      invariant SyncBases(env, w, scene, wanted, i) == (w, Joined(blocks, i))
    {
      UnmovedNext(env, w, scene, wanted, blocks, i);
    }
  }

  lemma SettledBases(env: Env, w: World, scene: Scene, wanted: seq<string>)
    requires forall b :: b in wanted ==> Settled(env, w, b, StaticParts(scene, b))
    ensures SyncBases(env, w, scene, wanted, |wanted|) == (w, GroupsOf(w.groups, scene, wanted))
  {
    var blocks := Blocks(w.groups, scene, wanted);
    forall k | 0 <= k < |wanted| ensures SyncBase(env, w, scene, wanted[k]) == (w, blocks[k]) {
      SettledBase(env, w, scene, wanted[k]);
    }
    UnmovedBases(env, w, scene, wanted, blocks);
  }

  ghost predicate AllWanted(groups: seq<Group>, wanted: seq<string>) {
    forall g :: g in groups ==> g.base in wanted
  }

  lemma {:induction false} NothingStale(env: Env, w: World, wanted: seq<string>, i: nat)
    requires i <= |w.groups| && AllWanted(w.groups, wanted)
    ensures DropStale(env, w, wanted, i) == w
  {
    if i > 0 {
      NothingStale(env, w, wanted, i - 1);
    }
  }

  lemma {:induction false} AllKept(groups: seq<Group>, wanted: seq<string>)
    requires AllWanted(groups, wanted)
    ensures KeepWanted(groups, wanted) == groups
  {
    if groups != [] {
      var init, last := groups[..|groups| - 1], groups[|groups| - 1];
      assert groups == init + [last];
      AllKept(init, wanted);
    }
  }

  lemma {:induction false} FindConcat(a: seq<Group>, b: seq<Group>, base: string)
    ensures Find(a + b, base) == if Find(a, base) == [] then Find(b, base) else Find(a, base)
  {
    if a == [] {
      assert a + b == b;
    } else {
      assert (a + b)[1..] == a[1..] + b;
      FindConcat(a[1..], b, base);
    }
  }

  /** At most one group, and only of this id. */
  ghost predicate OnlyOf(block: seq<Group>, base: string) {
    |block| <= 1 && forall g :: g in block ==> g.base == base
  }

  lemma FindOne(block: seq<Group>, base: string, other: string)
    requires OnlyOf(block, base)
    ensures Find(block, other) == if other == base then block else []
  {
    if block != [] {
      assert block == [block[0]];
    }
  }

  lemma FindNext(before: seq<Group>, block: seq<Group>, base: string, other: string, mine: seq<Group>, seen: bool)
    requires OnlyOf(block, base) && Find(before, other) == if seen then mine else []
    requires base == other ==> !seen && block == mine
    ensures Find(before + block, other) == if seen || base == other then mine else []
  {
    FindConcat(before, block, other);
    FindOne(block, base, other);
  }

  lemma {:induction false} FindJoined(blocks: seq<seq<Group>>, bases: seq<string>, i: nat, j: nat)
    requires i <= |blocks| == |bases| && j < |bases| && NoDup(bases)
    requires forall k :: 0 <= k < |blocks| ==> OnlyOf(blocks[k], bases[k])
    ensures Find(Joined(blocks, i), bases[j]) == if j < i then blocks[j] else []
  {
    if i > 0 {
      FindJoined(blocks, bases, i - 1, j);
      FindNext(Joined(blocks, i - 1), blocks[i - 1], bases[i - 1], bases[j], blocks[j], j < i - 1);
    }
  }

  lemma {:induction false} JoinedFrom(blocks: seq<seq<Group>>, i: nat, g: Group) returns (j: nat)
    requires i <= |blocks| && g in Joined(blocks, i)
    ensures j < i && g in blocks[j]
  {
    j := i - 1;
    if g !in blocks[j] {
      j := JoinedFrom(blocks, i - 1, g);
    }
  }

  /** Every new group is that of a wanted id. */
  lemma GroupFrom(groups: seq<Group>, scene: Scene, wanted: seq<string>, g: Group)
    requires g in GroupsOf(groups, scene, wanted)
    ensures g.base in wanted && GroupOf(groups, scene, g.base) == [g]
  {
    var j := JoinedFrom(Blocks(groups, scene, wanted), |wanted|, g);
    var mine := GroupOf(groups, scene, wanted[j]);
    assert mine == [g];
  }

  /** Among the new groups each wanted id finds its own. */
  lemma FindInGroups(groups: seq<Group>, scene: Scene, wanted: seq<string>, b: string, all: seq<Group>)
    requires NoDup(wanted) && b in wanted && all == GroupsOf(groups, scene, wanted)
    ensures Find(all, b) == GroupOf(groups, scene, b)
  {
    var j :| 0 <= j < |wanted| && wanted[j] == b;
    FindJoined(Blocks(groups, scene, wanted), wanted, |wanted|, j);
  }

  ghost predicate SameGroup(a: seq<Group>, b: seq<Group>, scene: Scene, base: string) {
    GroupOf(a, scene, base) == GroupOf(b, scene, base)
  }

  lemma SameGroups(a: seq<Group>, b: seq<Group>, scene: Scene, wanted: seq<string>)
    requires forall c :: c in wanted ==> SameGroup(a, b, scene, c)
    ensures GroupsOf(a, scene, wanted) == GroupsOf(b, scene, wanted)
  {
    var p, q := Blocks(a, scene, wanted), Blocks(b, scene, wanted);
    forall k | 0 <= k < |wanted| ensures p[k] == q[k] {
      assert SameGroup(a, b, scene, wanted[k]);
    }
    assert p == q;
  }

  /** Carrying over from the new groups gives what carrying over from the old ones gave. */
  lemma GroupAgain(groups: seq<Group>, v: seq<Group>, scene: Scene, base: string)
    requires Find(v, base) == GroupOf(groups, scene, base)
    ensures SameGroup(v, groups, scene, base)
  {
  }

  lemma GroupsAgain(groups: seq<Group>, v: seq<Group>, scene: Scene, wanted: seq<string>)
    requires NoDup(wanted) && v == GroupsOf(groups, scene, wanted)
    ensures GroupsOf(v, scene, wanted) == GroupsOf(groups, scene, wanted)
  {
    forall c | c in wanted ensures SameGroup(v, groups, scene, c) {
      FindInGroups(groups, scene, wanted, c, v);
      GroupAgain(groups, v, scene, c);
    }
    SameGroups(v, groups, scene, wanted);
  }

  lemma NotRecorded(env: Env, play: set<Part>, v: World, name: string, part: Part)
    requires Distinguishes(env.sign, play) && GeometryIn(v.geometry, play) && part in play
    requires Sound(env, v) && part.solid.kind.Unsupported?
    ensures !(name in v.sigs && v.sigs[name] == env.sign(part))
  {
    if name in v.sigs {
      assert v.sigs[name] == env.sign(v.geometry[name]) && !v.geometry[name].solid.kind.Unsupported?;
    }
  }

  lemma SyncSettles(env: Env, play: set<Part>, v: World, scene: Scene, ids: set<string>, b: string)
    requires WellFormed(scene) && IdsOf(scene, ids) && Apart(ids) && b in Wanted(scene)
    requires Distinguishes(env.sign, play) && GeometryIn(v.geometry, play) && SceneIn(scene, play)
    requires Sound(env, v)
    requires forall m :: m in Expansion(scene) ==> m in v.geometry && v.geometry[m] == Expansion(scene)[m]
    ensures Settled(env, v, b, StaticParts(scene, b))
  {
    var parts := StaticParts(scene, b);
    assert PartsIn(parts, play);
    forall k | 0 <= k < |parts|
      ensures var name := MemberName(b, k, |parts|);
              (name in v.sigs && v.sigs[name] == env.sign(parts[k])) == !parts[k].solid.kind.Unsupported?
    {
      var name := MemberName(b, k, |parts|);
      if parts[k].solid.kind.Unsupported? {
        NotRecorded(env, play, v, name, parts[k]);
      } else {
        ExpandAt(b, parts, |parts|, k);
        ExpandsAt(scene, ids, b, name);
      }
    }
  }

  /** Once a scene has been synced with every call answered, syncing it again issues no call and
      changes nothing, whatever state the services are in by then. */
  lemma RepeatedSync(env: Env, later: Env, play: set<Part>, w: World, scene: Scene, ids: set<string>)
    requires Reliable(env, play) && later.sign == env.sign
    requires GeometryIn(w.geometry, play) && SceneIn(scene, play)
    requires Sound(env, w) && NoForeignIds(w, Wanted(scene))
    requires WellFormed(scene) && IdsOf(scene, ids) && Apart(ids)
    ensures Sync(later, Sync(env, w, scene), scene) == Sync(env, w, scene)
  {
    var wanted := Wanted(scene);
    var v := Sync(env, w, scene);
    SyncPlaces(env, play, w, scene);
    WantedNoDup(scene, |scene.attached|);
    var kept := KeepWanted(w.groups, wanted);
    forall g | g in v.groups ensures g.base in wanted {
      GroupFrom(kept, scene, wanted, g);
    }
    NothingStale(later, v, wanted, |v.groups|);
    AllKept(v.groups, wanted);
    assert WithoutStale(later, v, wanted) == v;
    forall b | b in wanted ensures Settled(later, v, b, StaticParts(scene, b)) {
      SyncSettles(env, play, v, scene, ids, b);
    }
    SettledBases(later, v, scene, wanted);
    GroupsAgain(kept, v.groups, scene, wanted);
  }

  lemma {:induction false} MembersOf(base: string, parts: seq<Part>, i: nat, m: string)
    requires i <= |parts|
    ensures m in SupportedNames(base, parts, i) <==> m in Expand(base, parts, i)
  {
    if i > 0 {
      MembersOf(base, parts, i - 1, m);
    }
  }
}
