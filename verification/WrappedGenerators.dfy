/** An inverse-kinematics wrapper without a limit as a generator stage of a flat serial task. */
module WrappedGenerators {
  import opened Interfaces
  import opened Search
  import opened Network
  import C = Candidates

  /** Stage `i` of the task drafts the given states, at no cost. */
  ghost predicate Drafts(p: Problem, i: nat, states: seq<InterfaceState>) {
    var ds := p.generate(i);
    |ds| == |states| &&
    forall k :: 0 <= k < |ds| ==> Made(i, OnBoth, ds[k]) == states[k] && ds[k].motion.cost == 0.0
  }

  lemma {:induction false} SpawnsStates(i: nat, ds: seq<Draft>, states: seq<InterfaceState>)
    requires |ds| == |states|
    requires forall k :: 0 <= k < |ds| ==> Made(i, OnBoth, ds[k]) == states[k] && ds[k].motion.cost == 0.0
    ensures SpawnAll(i, ds) == C.SolutionsAt(i, states)
  {
    if ds != [] {
      SpawnsStates(i, ds[..|ds| - 1], states[..|ds| - 1]);
    }
  }

  lemma {:induction false} EmitsDistinct(own: int, states: seq<InterfaceState>)
    ensures EmitOnto([], C.SolutionsAt(own, states)) == C.SolutionsAt(own, PushAll([], states))
  {
    if states != [] {
      var init, s := states[..|states| - 1], states[|states| - 1];
      EmitsDistinct(own, init);
      var sols := C.SolutionsAt(own, states);
      assert sols[..|sols| - 1] == C.SolutionsAt(own, init);
      var before, x := C.SolutionsAt(own, PushAll([], init)), C.SolutionAt(own, s);
      C.EmitsAsPushed(own, PushAll([], init), s);
      assert [x][..0] == [] && EmitOnto(before, []) == before;
    }
  }

  /** The wrapper in place of a generator that drafts the solved states: the same solutions, and
      whatever a neighbour has been handed before, it is handed the same states. */
  lemma StandsForGenerator(setup: C.Setup, p: Problem, i: nat)
    requires setup.limit == 0 && C.IsGenerator(setup.child) && setup.own == i
    requires i < |p.kinds| && p.kinds[i].Generator?
    requires Drafts(p, i, C.SolvedStates(setup, setup.child.emits([])))
    ensures C.CanCompute(setup, C.IDLE)
    ensures var w := C.Compute(setup, C.IDLE);
            && !C.CanCompute(setup, w) && w.solutions == Emissions(p, i) == Finished(p, i).solutions
            && forall pull :: PushAll(pull, w.ends) == PushAll(pull, Finished(p, i).ends)
                              && PushAll(pull, w.starts) == PushAll(pull, Finished(p, i).starts)
  {
    var states := C.SolvedStates(setup, setup.child.emits([]));
    C.ActsAsGenerator(setup);
    SpawnsStates(i, p.generate(i), states);
    EmitsDistinct(i, states);
    assert EndsIn(C.SolutionsAt(i, states)) == states == StartsIn(C.SolutionsAt(i, states));
    forall pull: seq<InterfaceState> ensures PushAll(pull, PushAll([], states)) == PushAll(pull, states) {
      C.NeighbourCannotTell(pull, states);
    }
  }
}
