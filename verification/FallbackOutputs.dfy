/** What a fallbacks container gives to its surroundings: the solutions it lifts and the states it writes. */
module FallbackOutputs {
  import opened Interfaces
  import opened Firsts
  import opened Solutions
  import opened Search
  import opened SearchLemmas
  import opened Attempts

  // ---- the states it writes ----

  /** What one side of each child shows, as a function of what has happened to the child. */
  type Shown = seq<History -> seq<InterfaceState>>

  function ShownEnds(children: seq<Behaviour>): (shown: Shown)
    ensures |shown| == |children| && forall k :: 0 <= k < |shown| ==> shown[k] == children[k].ends
  {
    seq(|children|, k requires 0 <= k < |children| => children[k].ends)
  }

  function ShownStarts(children: seq<Behaviour>): (shown: Shown)
    ensures |shown| == |children| && forall k :: 0 <= k < |shown| ==> shown[k] == children[k].starts
  {
    seq(|children|, k requires 0 <= k < |children| => children[k].starts)
  }

  /** Child `k` had written `x` when it ran for the event at place `n`. */
  predicate WroteAt(shown: Shown, histories: seq<History>, k: nat, n: nat, x: InterfaceState) {
    && k < |shown| == |histories| && n < |histories[k]|
    && histories[k][n].Ran? && x in shown[k](histories[k][..n + 1])
  }

  ghost predicate Wrote(shown: Shown, histories: seq<History>, x: InterfaceState) {
    exists k: nat, n: nat :: WroteAt(shown, histories, k, n, x)
  }

  ghost predicate KeysApart(xs: seq<InterfaceState>) {
    forall a, b :: 0 <= a < b < |xs| ==> xs[a].key != xs[b].key
  }

  /** `xs` holds only what some child had written when it ran, and every key of that once. */
  ghost predicate PassedOn(shown: Shown, histories: seq<History>, xs: seq<InterfaceState>) {
    && KeysApart(xs)
    && (forall x :: x in xs ==> Wrote(shown, histories, x))
    && forall x :: Wrote(shown, histories, x) ==> HasKey(xs, x.key)
  }

  lemma WroteBefore(shown: Shown, was: seq<History>, now: seq<History>, x: InterfaceState)
    requires |was| == |now| && forall k :: 0 <= k < |was| ==> was[k] <= now[k]
    ensures Wrote(shown, was, x) ==> Wrote(shown, now, x)
  {
    if k: nat, n: nat :| WroteAt(shown, was, k, n, x) {
      assert was[k] <= now[k] && now[k][..n + 1] == was[k][..n + 1];
      assert WroteAt(shown, now, k, n, x);
    }
  }

  /** Pushing writes nothing. */
  lemma PushedWrites(shown: Shown, was: seq<History>, pool: seq<Event>, x: InterfaceState)
    requires NeverRan(pool)
    ensures Wrote(shown, FedTo(was, pool), x) <==> Wrote(shown, was, x)
  {
    var now := FedTo(was, pool);
    WroteBefore(shown, was, now, x);
    assert forall k, n :: 0 <= k < |was| && |was[k]| <= n < |now[k]| ==> now[k][n] in pool;
    if k: nat, n: nat :| WroteAt(shown, now, k, n, x) {
      assert now[k][..n + 1] == was[k][..n + 1];
      assert WroteAt(shown, was, k, n, x);
    }
  }

  lemma RanWrites(shown: Shown, was: seq<History>, k: nat, x: InterfaceState)
    requires k < |was| == |shown|
    ensures Wrote(shown, RanAt(was, k), x) <==> Wrote(shown, was, x) || x in shown[k](was[k] + [Ran])
  {
    var now, h := RanAt(was, k), was[k] + [Ran];
    WroteBefore(shown, was, now, x);
    assert now[k] == h && h[..|was[k]| + 1] == h;
    if x in shown[k](h) {
      assert WroteAt(shown, now, k, |was[k]|, x);
    }
    if j: nat, n: nat :| WroteAt(shown, now, j, n, x) {
      if j != k || n < |was[k]| {
        assert now[j][..n + 1] == was[j][..n + 1];
        assert WroteAt(shown, was, j, n, x);
      }
    }
  }

  lemma {:induction false} PushAllOnto(xs: seq<InterfaceState>, ys: seq<InterfaceState>)
    ensures KeysApart(xs) ==> KeysApart(PushAll(xs, ys))
    ensures forall x :: x in PushAll(xs, ys) ==> x in xs || x in ys
  {
    if ys != [] {
      var init, last := ys[..|ys| - 1], ys[|ys| - 1];
      PushAllOnto(xs, init);
      assert ys == init + [last];
      var before := PushAll(xs, init);
      assert forall a :: 0 <= a < |before| ==> before[a] in before;
    }
  }

  lemma PassedOnNext(shown: Shown, was: seq<History>, k: nat, xs: seq<InterfaceState>)
    requires k < |was| == |shown| && PassedOn(shown, was, xs)
    ensures PassedOn(shown, RanAt(was, k), PushAll(xs, shown[k](was[k] + [Ran])))
  {
    var ys := shown[k](was[k] + [Ran]);
    PushAllOnto(xs, ys);
    forall x | x in PushAll(xs, ys) ensures Wrote(shown, RanAt(was, k), x) {
      RanWrites(shown, was, k, x);
    }
    forall x | Wrote(shown, RanAt(was, k), x) ensures HasKey(PushAll(xs, ys), x.key) {
      RanWrites(shown, was, k, x);
      PushAllHas(xs, ys, x.key);
    }
  }

  lemma PassedOnFed(shown: Shown, was: seq<History>, pool: seq<Event>, xs: seq<InterfaceState>)
    requires NeverRan(pool) && PassedOn(shown, was, xs)
    ensures PassedOn(shown, FedTo(was, pool), xs)
  {
    forall x ensures Wrote(shown, FedTo(was, pool), x) <==> Wrote(shown, was, x) {
      PushedWrites(shown, was, pool, x);
    }
  }

  /** Each side that is written holds what the children had written when they ran; the other stays empty. */
  ghost predicate Outputs(children: seq<Behaviour>, ports: Ports, b: Bench) {
    && (if ports.end.write then PassedOn(ShownEnds(children), b.histories, b.ends) else b.ends == [])
    && (if ports.start.write then PassedOn(ShownStarts(children), b.histories, b.starts) else b.starts == [])
  }

  lemma FeedOutputs(children: seq<Behaviour>, ports: Ports, b: Bench)
    requires WellShaped(children, b) && Outputs(children, ports, b)
    ensures Outputs(children, ports, Feed(ports, b))
  {
    PoolNeverRan(ports, b);
    if ports.end.write {
      PassedOnFed(ShownEnds(children), b.histories, Pool(ports, b), b.ends);
    }
    if ports.start.write {
      PassedOnFed(ShownStarts(children), b.histories, Pool(ports, b), b.starts);
    }
  }

  lemma RunOutputs(children: seq<Behaviour>, ports: Ports, b: Bench, k: nat)
    requires WellShaped(children, b) && Outputs(children, ports, b) && k < |children|
    ensures Outputs(children, ports, RunChild(children, ports, b, k))
  {
    LiftedAllShape(ports.own, b.(histories := RanAt(b.histories, k)), children[k].emits(b.histories[k]));
    if ports.end.write {
      PassedOnNext(ShownEnds(children), b.histories, k, b.ends);
    }
    if ports.start.write {
      PassedOnNext(ShownStarts(children), b.histories, k, b.starts);
    }
  }

  lemma ComputeOutputs(children: seq<Behaviour>, ports: Ports, b: Bench)
    requires WellShaped(children, b) && Outputs(children, ports, b)
    ensures Outputs(children, ports, Compute(children, ports, b))
  {
    if b.solutions == [] {
      FeedOutputs(children, ports, b);
      var fed := Feed(ports, b);
      if fed.current.Some? {
        var k := Next(children, fed.histories, fed.current.value);
        if k < |children| {
          RunOutputs(children, ports, fed, k);
        }
      }
    }
  }

  lemma NothingWritten(children: seq<Behaviour>, ports: Ports)
    ensures Outputs(children, ports, Fresh(|children|))
  {
  }

  /** Over every run: a side the container writes holds exactly the keys its children had written when they
      ran, each once, and a side it does not write stays empty. */
  lemma {:induction false} AlwaysPassedOn(children: seq<Behaviour>, ports: Ports, commands: seq<Command>)
    ensures Outputs(children, ports, Run(children, ports, commands))
  {
    if commands == [] {
      NothingWritten(children, ports);
    } else {
      AlwaysPassedOn(children, ports, commands[..|commands| - 1]);
      if commands[|commands| - 1].Work? {
        ComputeOutputs(children, ports, Run(children, ports, commands[..|commands| - 1]));
      }
    }
  }

  // ---- the solutions it lifts ----

  /** The container holds, of `work`, the first of each key pair, in order, each lifted. */
  ghost predicate HoldsLifts(own: int, work: seq<Solution>, sols: seq<Solution>) {
    var kept := FirstOfEach(work, PairsIn(work));
    |sols| == |kept| && forall i :: 0 <= i < |sols| ==> IsLift(own, kept[i], sols[i])
  }

  /** The container `b` holds the lifts of `work` and remembers their key pairs. */
  ghost predicate HoldsWork(own: int, work: seq<Solution>, b: Bench) {
    HoldsLifts(own, work, b.solutions) && forall pair :: pair in b.keys <==> pair in PairsIn(work)
  }

  lemma FirstsOfNext(work: seq<Solution>, s: Solution)
    ensures FirstOfEach(work + [s], PairsIn(work + [s]))
            == FirstOfEach(work, PairsIn(work)) + if s.KeyPair() in PairsIn(work) then [] else [s]
    ensures PairsIn(work + [s]) == PairsIn(work) + [s.KeyPair()]
  {
    FirstsNext(work, PairsIn(work), s, s.KeyPair());
    assert PairsIn(work + [s]) == PairsIn(work) + [s.KeyPair()];
  }

  lemma HoldsNext(own: int, work: seq<Solution>, s: Solution, b: Bench)
    requires HoldsWork(own, work, b)
    ensures HoldsWork(own, work + [s], Lifted(own, b, s))
  {
    FirstsOfNext(work, s);
    assert IsLift(own, s, LiftChild(s, own));
  }

  lemma HoldsNothing(own: int, b: Bench)
    requires b.solutions == [] && b.keys == {}
    ensures HoldsWork(own, [], b)
  {
  }

  lemma {:induction false} LiftsAll(own: int, b: Bench, work: seq<Solution>)
    requires b.solutions == [] && b.keys == {}
    ensures HoldsWork(own, work, LiftedAll(own, b, work))
  {
    if work == [] {
      HoldsNothing(own, b);
    } else {
      var init, last := work[..|work| - 1], work[|work| - 1];
      LiftsAll(own, b, init);
      HoldsNext(own, init, last, LiftedAll(own, b, init));
      assert init + [last] == work;
    }
  }

  /** What has been produced is held: nothing before a child has produced something, its firsts from then on. */
  ghost predicate Lifts(children: seq<Behaviour>, own: int, b: Bench) {
    |children| == |b.histories| &&
    forall k :: 0 <= k < |children| && Produced(children[k], b.histories[k]) != [] ==>
                  HoldsLifts(own, Produced(children[k], b.histories[k]), b.solutions)
  }

  lemma FeedLifts(children: seq<Behaviour>, ports: Ports, b: Bench)
    requires WellShaped(children, b) && Lifts(children, ports.own, b)
    ensures Lifts(children, ports.own, Feed(ports, b))
  {
    PoolNeverRan(ports, b);
    forall k | 0 <= k < |children|
      ensures Produced(children[k], Feed(ports, b).histories[k]) == Produced(children[k], b.histories[k])
    {
      ProducedConcat(children[k], b.histories[k], Pool(ports, b));
    }
  }

  lemma SomeHeld(work: seq<Solution>)
    requires work != []
    ensures FirstOfEach(work, PairsIn(work)) != []
  {
    PlacesExactly(PairsIn(work));
    assert PairsIn(work)[..0] == [];
    assert 0 in Places(PairsIn(work));
  }

  lemma RunLifts(children: seq<Behaviour>, ports: Ports, b: Bench, k: nat)
    requires WellShaped(children, b) && Lifts(children, ports.own, b) && k < |children|
    requires b.solutions == [] && b.keys == {}
    ensures Lifts(children, ports.own, RunChild(children, ports, b, k))
  {
    var h := b.histories[k];
    var r := RunChild(children, ports, b, k);
    var ran := b.(histories := RanAt(b.histories, k));
    LiftedAllShape(ports.own, ran, children[k].emits(h));
    LiftsAll(ports.own, ran, children[k].emits(h));
    forall j | 0 <= j < |children| ensures Produced(children[j], b.histories[j]) == [] {
      if Produced(children[j], b.histories[j]) != [] {
        SomeHeld(Produced(children[j], b.histories[j]));
      }
    }
    ProducedNext(children[k], h);
    assert Produced(children[k], r.histories[k]) == children[k].emits(h);
  }

  lemma ComputeLifts(children: seq<Behaviour>, ports: Ports, b: Bench)
    requires Exclusive(children, ports.own, b) && Lifts(children, ports.own, b)
    ensures Lifts(children, ports.own, Compute(children, ports, b))
  {
    if b.solutions == [] {
      FeedLifts(children, ports, b);
      var fed := Feed(ports, b);
      if fed.current.Some? {
        var k := Next(children, fed.histories, fed.current.value);
        if k < |children| {
          RunLifts(children, ports, fed, k);
        }
      }
    }
  }

  /** Over every run: what a child has produced the container holds, the first of each key pair, in order, with
      its ends, cost, trajectory, operations and request. */
  lemma {:induction false} AlwaysLifted(children: seq<Behaviour>, ports: Ports, commands: seq<Command>)
    ensures Lifts(children, ports.own, Run(children, ports, commands))
  {
    if commands != [] {
      var before := Run(children, ports, commands[..|commands| - 1]);
      AlwaysLifted(children, ports, commands[..|commands| - 1]);
      AlwaysExclusive(children, ports, commands[..|commands| - 1]);
      if commands[|commands| - 1].Work? {
        ComputeLifts(children, ports, before);
      }
    }
  }

  // ---- what has arrived ----

  function StartsGiven(commands: seq<Command>): seq<InterfaceState> {
    if commands == [] then [] else
    var last := commands[|commands| - 1];
    StartsGiven(commands[..|commands| - 1]) + if last.GiveStart? then [last.state] else []
  }

  function EndsGiven(commands: seq<Command>): seq<InterfaceState> {
    if commands == [] then [] else
    var last := commands[|commands| - 1];
    EndsGiven(commands[..|commands| - 1]) + if last.GiveEnd? then [last.state] else []
  }

  lemma ComputeKeepsPulls(children: seq<Behaviour>, ports: Ports, b: Bench)
    requires WellShaped(children, b)
    ensures Compute(children, ports, b).startPull == b.startPull && Compute(children, ports, b).endPull == b.endPull
  {
    if b.solutions == [] {
      ComputeFeeds(children, ports, b);
    }
  }

  /** Over every run each side holds, of what was given to it, the first state of each key, in order. */
  lemma {:induction false} PullsHoldFirsts(children: seq<Behaviour>, ports: Ports, commands: seq<Command>)
    ensures var b := Run(children, ports, commands);
            && b.startPull == FirstOfEach(StartsGiven(commands), KeysIn(StartsGiven(commands)))
            && b.endPull == FirstOfEach(EndsGiven(commands), KeysIn(EndsGiven(commands)))
  {
    PullsPushed(children, ports, commands);
    PushedFirsts(StartsGiven(commands));
    PushedFirsts(EndsGiven(commands));
  }

  lemma {:induction false} PullsPushed(children: seq<Behaviour>, ports: Ports, commands: seq<Command>)
    ensures var b := Run(children, ports, commands);
            b.startPull == PushAll([], StartsGiven(commands)) && b.endPull == PushAll([], EndsGiven(commands))
  {
    if commands != [] {
      var init, last := commands[..|commands| - 1], commands[|commands| - 1];
      PullsPushed(children, ports, init);
      assert StartsGiven(init) + [] == StartsGiven(init) && EndsGiven(init) + [] == EndsGiven(init);
      match last
      case GiveStart(s) => PushOne(StartsGiven(init), s);
      case GiveEnd(s) => PushOne(EndsGiven(init), s);
      case Ask =>
      case Work => ComputeKeepsPulls(children, ports, Run(children, ports, init));
    }
  }
}
