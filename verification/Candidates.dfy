/** The inverse-kinematics wrapper: it works through the candidates of a wrapped stage in order. */
module Candidates {
  import opened Interfaces
  import opened Firsts
  import opened Search
  import opened SearchLemmas
  import opened Attempts

  /** What becomes of a candidate: it carries no pose, has no solution, or gives a state. */
  datatype Attempted = NoPose | NoSolution | Solved(state: InterfaceState)

  /** The wrapped stage, the solver, and the limit on solutions (0 for none). */
  datatype Setup = Setup(own: int, child: Behaviour, solve: Solution -> Attempted, limit: int)

  datatype Wrapper = Wrapper(
    history: History,
    queue: seq<Solution>,
    processed: nat,
    solutions: seq<Solution>,
    failures: seq<InterfaceState>,
    starts: seq<InterfaceState>,
    ends: seq<InterfaceState>)

  const IDLE := Wrapper([], [], 0, [], [], [], [])

  function SolutionAt(own: int, s: InterfaceState): Solution {
    Solution(s, s, own, 0.0, [], [], NoRequest, [])
  }

  predicate CanCompute(setup: Setup, w: Wrapper) {
    setup.child.can(w.history) || w.processed < |w.queue|
  }

  /** The wrapped stage runs and its solutions queue up. */
  function ChildRan(setup: Setup, w: Wrapper): Wrapper {
    w.(history := w.history + [Ran], queue := w.queue + setup.child.emits(w.history))
  }

  predicate Full(setup: Setup, w: Wrapper) {
    setup.limit != 0 && |w.solutions| >= setup.limit
  }

  /** The next candidate. */
  function Processed(setup: Setup, w: Wrapper): Wrapper
    requires w.processed < |w.queue|
  {
    var next := w.(processed := w.processed + 1);
    match setup.solve(w.queue[w.processed])
    case NoPose => next
    case NoSolution => next.(failures := w.failures + [w.queue[w.processed].start])
    case Solved(s) =>
      next.(solutions := EmitOnto(w.solutions, [SolutionAt(setup.own, s)]),
      starts := Push(w.starts, s), ends := Push(w.ends, s))
  }

  function Drained(setup: Setup, w: Wrapper): Wrapper
    decreases |w.queue| - w.processed
  {
    if w.processed < |w.queue| && !Full(setup, w) then Drained(setup, Processed(setup, w)) else w
  }

  function Compute(setup: Setup, w: Wrapper): Wrapper {
    Drained(setup, if setup.child.can(w.history) then ChildRan(setup, w) else w)
  }

  // ---- when it can compute again ----

  lemma {:induction false} DrainedStops(setup: Setup, w: Wrapper)
    requires w.processed <= |w.queue|
    ensures var d := Drained(setup, w);
            && d.queue == w.queue && d.history == w.history
            && w.processed <= d.processed <= |d.queue| && (d.processed < |d.queue| ==> Full(setup, d))
    decreases |w.queue| - w.processed
  {
    if w.processed < |w.queue| && !Full(setup, w) {
      DrainedStops(setup, Processed(setup, w));
    }
  }

  /** After a pass there is more to do exactly when the wrapped stage can compute again, or the
      limit is reached with candidates left over. */
  lemma CanComputeExactly(setup: Setup, w: Wrapper)
    requires w.processed <= |w.queue|
    ensures var d := Compute(setup, w);
            CanCompute(setup, d) <==> setup.child.can(d.history) || (Full(setup, d) && d.processed < |d.queue|)
  {
    DrainedStops(setup, if setup.child.can(w.history) then ChildRan(setup, w) else w);
  }

  function Repeated(setup: Setup, w: Wrapper, passes: nat): Wrapper {
    if passes == 0 then w else Compute(setup, Repeated(setup, w, passes - 1))
  }

  /** In the second case it says so for ever, and no number of passes changes anything. */
  lemma {:induction false} LeftoversStall(setup: Setup, w: Wrapper, passes: nat)
    requires Full(setup, w) && w.processed < |w.queue| && !setup.child.can(w.history)
    ensures Repeated(setup, w, passes) == w && CanCompute(setup, Repeated(setup, w, passes))
  {
    if passes > 0 {
      LeftoversStall(setup, w, passes - 1);
    }
  }

  // ---- what it has done is a function of the candidates processed ----

  function SolvedStates(setup: Setup, queue: seq<Solution>): seq<InterfaceState> {
    if queue == [] then [] else
    var last := setup.solve(queue[|queue| - 1]);
    SolvedStates(setup, queue[..|queue| - 1]) + if last.Solved? then [last.state] else []
  }

  function FailedStates(setup: Setup, queue: seq<Solution>): seq<InterfaceState> {
    if queue == [] then [] else
    var last := queue[|queue| - 1];
    FailedStates(setup, queue[..|queue| - 1]) + if setup.solve(last).NoSolution? then [last.start] else []
  }

  function SolutionsAt(own: int, states: seq<InterfaceState>): (sols: seq<Solution>)
    ensures |sols| == |states| && forall k :: 0 <= k < |sols| ==> sols[k] == SolutionAt(own, states[k])
  {
    seq(|states|, k requires 0 <= k < |states| => SolutionAt(own, states[k]))
  }

  /** Its solutions are those of the solved candidates, first of each key; the same states stand on
      both interfaces; the failures are the unsolvable candidates, in order. */
  ghost predicate UpToDate(setup: Setup, w: Wrapper) {
    && w.processed <= |w.queue|
    && w.queue == Produced(setup.child, w.history)
    && var done := w.queue[..w.processed];
       && w.starts == w.ends == PushAll([], SolvedStates(setup, done))
       && w.solutions == SolutionsAt(setup.own, w.starts)
       && w.failures == FailedStates(setup, done)
  }

  /** A key on the interface is the key pair of a solution. */
  lemma EmitsAsPushed(own: int, states: seq<InterfaceState>, s: InterfaceState)
    ensures EmitOnto(SolutionsAt(own, states), [SolutionAt(own, s)]) == SolutionsAt(own, Push(states, s))
  {
    var sols, x := SolutionsAt(own, states), SolutionAt(own, s);
    assert [x][..0] == [] && EmitOnto(sols, []) == sols;
    if HasKey(states, s.key) {
      var k :| 0 <= k < |states| && states[k].key == s.key;
      assert sols[k] in sols && sols[k].KeyPair() == x.KeyPair();
    } else {
      forall t | t in sols ensures t.KeyPair() != x.KeyPair() {
        var k :| 0 <= k < |sols| && sols[k] == t;
        assert states[k] in states;
      }
    }
  }

  lemma ProcessedUpToDate(setup: Setup, w: Wrapper)
    requires UpToDate(setup, w) && w.processed < |w.queue|
    ensures UpToDate(setup, Processed(setup, w))
  {
    var done, next := w.queue[..w.processed], w.queue[..w.processed + 1];
    assert next[..|next| - 1] == done && next[|next| - 1] == w.queue[w.processed];
    assert SolvedStates(setup, done) + [] == SolvedStates(setup, done);
    assert FailedStates(setup, done) + [] == FailedStates(setup, done);
    match setup.solve(w.queue[w.processed])
    case NoPose =>
    case NoSolution =>
    case Solved(s) =>
      EmitsAsPushed(setup.own, w.starts, s);
      var states := SolvedStates(setup, done);
      assert (states + [s])[..|states|] == states;
  }

  lemma {:induction false} DrainedUpToDate(setup: Setup, w: Wrapper)
    requires UpToDate(setup, w)
    ensures UpToDate(setup, Drained(setup, w))
    decreases |w.queue| - w.processed
  {
    if w.processed < |w.queue| && !Full(setup, w) {
      ProcessedUpToDate(setup, w);
      DrainedUpToDate(setup, Processed(setup, w));
    }
  }

  lemma ComputeUpToDate(setup: Setup, w: Wrapper)
    requires UpToDate(setup, w)
    ensures UpToDate(setup, Compute(setup, w))
  {
    if setup.child.can(w.history) {
      ProducedNext(setup.child, w.history);
      var r := ChildRan(setup, w);
      assert r.queue[..r.processed] == w.queue[..w.processed];
      DrainedUpToDate(setup, r);
    } else {
      DrainedUpToDate(setup, w);
    }
  }

  /** The wrapper after some passes. */
  function After(setup: Setup, passes: nat): Wrapper {
    Repeated(setup, IDLE, passes)
  }

  lemma {:induction false} AlwaysUpToDate(setup: Setup, passes: nat)
    ensures UpToDate(setup, After(setup, passes))
  {
    if passes > 0 {
      AlwaysUpToDate(setup, passes - 1);
      ComputeUpToDate(setup, After(setup, passes - 1));
    }
  }

  /** The solution stays at one state, costs nothing and moves nothing. */
  predicate Rests(own: int, s: Solution, state: InterfaceState) {
    && s.start == state && s.end == state && s.stage == own && s.cost == 0.0 && s.trajectory == [] && s.ops == []
    && s.request == NoRequest && s.children == []
  }

  /** After any passes the wrapper shows on both sides, of the states solved so far, the first of each key, in
      order, and has one resting solution at each. */
  lemma SolutionsRest(setup: Setup, passes: nat)
    ensures After(setup, passes).processed <= |After(setup, passes).queue|
    ensures var w := After(setup, passes);
            var solved := SolvedStates(setup, w.queue[..w.processed]);
            && w.starts == w.ends == FirstOfEach(solved, KeysIn(solved)) && |w.solutions| == |w.starts|
            && forall k :: 0 <= k < |w.solutions| ==> Rests(setup.own, w.solutions[k], w.starts[k])
  {
    AlwaysUpToDate(setup, passes);
    PushedFirsts(SolvedStates(setup, After(setup, passes).queue[..After(setup, passes).processed]));
  }

  lemma {:induction false} DrainedWithin(setup: Setup, w: Wrapper)
    requires setup.limit > 0 && |w.solutions| <= setup.limit
    ensures |Drained(setup, w).solutions| <= setup.limit
    decreases |w.queue| - w.processed
  {
    if w.processed < |w.queue| && !Full(setup, w) {
      assert forall s: Solution :: EmitOnto(w.solutions, [s][..0]) == w.solutions;
      DrainedWithin(setup, Processed(setup, w));
    }
  }

  /** The limit is never passed. */
  lemma {:induction false} LimitHolds(setup: Setup, passes: nat)
    requires setup.limit > 0
    ensures |After(setup, passes).solutions| <= setup.limit
  {
    if passes > 0 {
      LimitHolds(setup, passes - 1);
      var w := After(setup, passes - 1);
      DrainedWithin(setup, if setup.child.can(w.history) then ChildRan(setup, w) else w);
    }
  }

  // ---- over a generator: when it stalls ----

  ghost predicate IsGenerator(b: Behaviour) {
    forall h :: b.can(h) <==> NeverRan(h)
  }

  /** How many solutions the first `m` candidates give. */
  function Yield(setup: Setup, candidates: seq<Solution>, m: nat): nat
    requires m <= |candidates|
  {
    |PushAll([], SolvedStates(setup, candidates[..m]))|
  }

  /** Some candidate comes when the limit has been reached already. */
  ghost predicate Leftover(setup: Setup, candidates: seq<Solution>) {
    setup.limit != 0 && exists m :: 0 <= m < |candidates| && Yield(setup, candidates, m) >= setup.limit
  }

  lemma {:induction false} DrainedBefore(setup: Setup, w: Wrapper, m: nat)
    requires UpToDate(setup, w) && w.processed <= m < |w.queue|
    requires setup.limit != 0 && Yield(setup, w.queue, m) >= setup.limit
    ensures Drained(setup, w).processed <= m
    decreases |w.queue| - w.processed
  {
    if w.processed < |w.queue| && !Full(setup, w) {
      ProcessedUpToDate(setup, w);
      DrainedBefore(setup, Processed(setup, w), m);
    }
  }

  lemma FirstPass(setup: Setup)
    requires IsGenerator(setup.child)
    ensures var w := After(setup, 1);
            && UpToDate(setup, w) && w.queue == setup.child.emits([]) && !setup.child.can(w.history)
            && (w.processed < |w.queue| <==> Leftover(setup, w.queue))
            && (w.processed < |w.queue| ==> Full(setup, w))
  {
    var r := ChildRan(setup, IDLE);
    assert After(setup, 1) == Compute(setup, After(setup, 0)) == Compute(setup, IDLE) == Drained(setup, r);
    assert setup.child.can([]);
    ProducedNext(setup.child, []);
    assert UpToDate(setup, r) by {
      assert r.queue[..0] == [];
    }
    DrainedUpToDate(setup, r);
    DrainedStops(setup, r);
    var w := Drained(setup, r);
    assert w.history == [Ran] && Ran in w.history;
    assert w.processed < |w.queue| ==> Yield(setup, w.queue, w.processed) >= setup.limit;
    if Leftover(setup, r.queue) {
      var m :| 0 <= m < |r.queue| && Yield(setup, r.queue, m) >= setup.limit;
      DrainedBefore(setup, r, m);
    }
  }

  /** Over a generator one pass does all that ever gets done; from then on the wrapper says that it
      can compute exactly when some candidate comes after the limit was reached. */
  lemma {:induction false} StallsExactly(setup: Setup, passes: nat)
    requires IsGenerator(setup.child) && passes > 0
    ensures After(setup, passes) == After(setup, 1)
    ensures CanCompute(setup, After(setup, passes)) <==> Leftover(setup, setup.child.emits([]))
  {
    FirstPass(setup);
    if passes > 1 {
      StallsExactly(setup, passes - 1);
    }
  }

  /** Two candidates, of which one is asked for. */
  function TwoPoses(a: Solution, b: Solution, s: InterfaceState): Setup {
    Setup(0, Behaviour(h => Ran !in h, _ => [a, b], _ => [], _ => []), _ => Solved(s), 1)
  }

  /** It has its one solution after the first pass and wants to compute for ever. */
  lemma TwoPosesStall(a: Solution, b: Solution, s: InterfaceState, passes: nat)
    requires passes > 0
    ensures var setup := TwoPoses(a, b, s); CanCompute(setup, After(setup, passes))
  {
    var setup := TwoPoses(a, b, s);
    StallsExactly(setup, passes);
    assert [a, b][..1] == [a] && [a][..0] == [];
    assert SolvedStates(setup, [a]) == [] + [s] == [s];
    assert [s][..0] == [] && PushAll([], [s]) == [s];
    assert Yield(setup, [a, b], 1) == 1;
  }

  // ---- without a limit, over a generator, it is a generator ----

  /** One pass over all candidates of the wrapped generator, and then never again. */
  lemma ActsAsGenerator(setup: Setup)
    requires setup.limit == 0 && IsGenerator(setup.child)
    ensures CanCompute(setup, IDLE)
    ensures var w := Compute(setup, IDLE);
            var states := PushAll([], SolvedStates(setup, setup.child.emits([])));
            && !CanCompute(setup, w)
            && w.starts == w.ends == states && w.solutions == SolutionsAt(setup.own, states)
  {
    assert setup.child.can([]);
    var r := ChildRan(setup, IDLE);
    assert [] + setup.child.emits([]) == setup.child.emits([]);
    assert UpToDate(setup, IDLE);
    ComputeUpToDate(setup, IDLE);
    DrainedStops(setup, r);
    var w := Compute(setup, IDLE);
    assert w.history == [Ran] && Ran in w.history;
    assert w.queue[..|w.queue|] == w.queue;
  }

  /** A neighbour that is handed the deduplicated states sees what it would see of all of them. */
  lemma {:induction false} NeighbourCannotTell(xs: seq<InterfaceState>, ys: seq<InterfaceState>)
    ensures PushAll(xs, PushAll([], ys)) == PushAll(xs, ys)
  {
    if ys != [] {
      var init, last := ys[..|ys| - 1], ys[|ys| - 1];
      NeighbourCannotTell(xs, init);
      var p := PushAll([], init);
      PushAllHas([], init, last.key);
      PushAllHas(xs, init, last.key);
      if !HasKey(init, last.key) {
        assert (p + [last])[..|p|] == p;
      }
    }
  }
}
