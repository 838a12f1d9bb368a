/** The planning loop over a flat serial root, and what it returns. */
module Planner {
  import opened Interfaces
  import opened Chains
  import opened ChainLemmas
  import opened Composer
  import opened Search
  import opened SearchLemmas
  import opened Network
  import opened Solutions
  import opened Stages
  import CarriedKeys

  ghost predicate DistinctPairs(sols: seq<Solution>) {
    forall a, b :: 0 <= a < b < |sols| ==> sols[a].KeyPair() != sols[b].KeyPair()
  }

  lemma DistinctSnoc(sols: seq<Solution>, s: Solution)
    requires DistinctPairs(sols) && !HasKeyPair(sols, s.KeyPair())
    ensures DistinctPairs(sols + [s])
  {
    assert forall a :: 0 <= a < |sols| ==> sols[a] in sols;
  }

  lemma {:induction false} EmitDistinct(work: seq<Solution>)
    ensures DistinctPairs(EmitOnto([], work))
  {
    if work != [] {
      var init, s := work[..|work| - 1], work[|work| - 1];
      EmitDistinct(init);
      if !HasKeyPair(EmitOnto([], init), s.KeyPair()) {
        DistinctSnoc(EmitOnto([], init), s);
      }
    }
  }

  /** A state delivered to a stage was published by the neighbour that has run. */
  lemma EndsWerePublished(p: Problem, ran: seq<bool>, idx: seq<Solution>, i: nat)
    requires Resolved(p.kinds) && i < |ran| == |p.kinds| && Arrived(p, ran, idx) && ran[i] && p.kinds[i].WritesEnd()
    ensures AllPublishedAtEnd(idx, i, PushAll([], EndsOf(p, i)))
  {
    WritesItsFlow(p, i);
    var work := Work(p, i, InStart(p, i), InEnd(p, i));
    forall x | x in PushAll([], EndsOf(p, i)) ensures x.writer == i && x.sides != AtStart && PublishedAtEnd(idx, i, x) {
      PushedEndsEmitted(work, x);
      var s :| s in EmitOnto([], work) && s.end == x;
      EmitMember(work, s);
      WorkSteps(p, i, InStart(p, i), InEnd(p, i), s);
      assert s in Emissions(p, i);
    }
  }

  lemma StartsWerePublished(p: Problem, ran: seq<bool>, idx: seq<Solution>, i: nat)
    requires Resolved(p.kinds) && i < |ran| == |p.kinds| && Arrived(p, ran, idx) && ran[i] && p.kinds[i].WritesStart()
    ensures AllPublishedAtStart(idx, i, PushAll([], StartsOf(p, i)))
  {
    WritesItsFlow(p, i);
    var work := Work(p, i, InStart(p, i), InEnd(p, i));
    forall x | x in PushAll([], StartsOf(p, i))
      ensures x.writer == i && x.sides != AtEnd && PublishedAtStart(idx, i, x)
    {
      PushedStartsEmitted(work, x);
      var s :| s in EmitOnto([], work) && s.start == x;
      EmitMember(work, s);
      WorkSteps(p, i, InStart(p, i), InEnd(p, i), s);
      assert s in Emissions(p, i);
    }
  }

  lemma ReadyToRun(p: Problem, ran: seq<bool>, idx: seq<Solution>, i: nat)
    requires Resolved(p.kinds) && |ran| == |p.kinds| && Arrived(p, ran, idx)
    requires i < |ran| && !ran[i] && Supplied(p, ran, i)
    ensures Ready(p.kinds, idx, i, [], InStart(p, i), InEnd(p, i))
  {
    if !p.kinds[i].WritesStart() {
      assert p.kinds[i - 1].WritesEnd() != p.kinds[(i - 1) + 1].WritesStart();
      EndsWerePublished(p, ran, idx, i - 1);
    }
    if !p.kinds[i].WritesEnd() {
      assert p.kinds[i].WritesEnd() != p.kinds[i + 1].WritesStart();
      StartsWerePublished(p, ran, idx, i + 1);
    }
  }

  /** The next of a stage's emissions is work it did and shares its keys with none before. */
  lemma EmissionAt(p: Problem, i: nat, k: nat)
    requires i < |p.kinds| && k < |Emissions(p, i)|
    ensures Emissions(p, i)[k] in Work(p, i, InStart(p, i), InEnd(p, i))
    ensures !HasKeyPair(Emissions(p, i)[..k], Emissions(p, i)[k].KeyPair())
  {
    var work := Work(p, i, InStart(p, i), InEnd(p, i));
    EmitMember(work, Emissions(p, i)[k]);
    EmitDistinct(work);
  }

  lemma ReadyNext(p: Problem, idx: seq<Solution>, i: nat, r: seq<Solution>, k: nat, ss: seq<InterfaceState>,
                  es: seq<InterfaceState>)
    requires i < |p.kinds| && k < |r| && r[k] in Work(p, i, ss, es) && !HasKeyPair(r[..k], r[k].KeyPair())
    requires Ready(p.kinds, idx, i, r[..k], ss, es)
    ensures Admissible(p.kinds, idx, r[k]) && Ready(p.kinds, idx + [r[k]], i, r[..k + 1], ss, es)
  {
    ReadyAdmissible(p, idx, i, r[..k], ss, es, r[k]);
    WorkShaped(p, idx, i, r[..k], ss, es, r[k]);
    ReadyStep(p.kinds, idx, i, r[..k], ss, es, r[k]);
    assert r[..k + 1] == r[..k] + [r[k]];
  }

  /** While a stage's emissions are handed over one by one, the next one is admissible. */
  lemma NextAdmissible(p: Problem, idx: seq<Solution>, i: nat, k: nat)
    requires i < |p.kinds| && k < |Emissions(p, i)|
    requires Ready(p.kinds, idx, i, Emissions(p, i)[..k], InStart(p, i), InEnd(p, i))
    ensures Admissible(p.kinds, idx, Emissions(p, i)[k])
    ensures Ready(p.kinds, idx + [Emissions(p, i)[k]], i, Emissions(p, i)[..k + 1], InStart(p, i), InEnd(p, i))
  {
    EmissionAt(p, i, k);
    ReadyNext(p, idx, i, Emissions(p, i), k, InStart(p, i), InEnd(p, i));
  }

  lemma ConcatNext<T>(base: seq<T>, r: seq<T>, k: nat)
    requires k < |r|
    ensures base + r[..k + 1] == base + r[..k] + [r[k]]
  {
  }

  lemma ConcatNone<T>(base: seq<T>, r: seq<T>)
    ensures base + r[..0] == base && r[..0] == []
  {
  }

  /** All emissions of a stage that is ready to run may arrive in their order. */
  lemma {:induction false} EmissionsRun(p: Problem, idx: seq<Solution>, i: nat, k: nat)
    requires i < |p.kinds| && k <= |Emissions(p, i)| && Run(p.kinds, idx)
    requires Ready(p.kinds, idx, i, [], InStart(p, i), InEnd(p, i))
    ensures Ready(p.kinds, idx + Emissions(p, i)[..k], i, Emissions(p, i)[..k], InStart(p, i), InEnd(p, i))
    ensures Run(p.kinds, idx + Emissions(p, i)[..k])
  {
    var r := Emissions(p, i);
    if k == 0 {
      ConcatNone(idx, r);
    } else {
      EmissionsRun(p, idx, i, k - 1);
      NextAdmissible(p, idx + r[..k - 1], i, k - 1);
      RunSnoc(p.kinds, idx + r[..k - 1], r[k - 1]);
      ConcatNext(idx, r, k - 1);
    }
  }

  lemma ArrivedStep(p: Problem, ran: seq<bool>, idx: seq<Solution>, i: nat)
    requires |ran| == |p.kinds| && Arrived(p, ran, idx) && i < |ran| && !ran[i]
    ensures Arrived(p, ran[i := true], idx + Emissions(p, i))
  {
    forall t | t in Emissions(p, i) ensures t.stage == i {
      EmissionSteps(p, i, t);
    }
  }

  lemma TakeAll<T>(s: seq<T>)
    ensures s[..|s|] == s
  {
  }

  // --- schedules --------------------------------------------------------------------------------

  /** Nothing has run. */
  function Fresh(p: Problem): (v: seq<StageView>)
    ensures |v| == |p.kinds|
  {
    seq(|p.kinds|, i => StageView([], [], [], [], [], false, 0, []))
  }

  /** The state after children have computed in this order. */
  function StateBy(p: Problem, order: seq<nat>): (v: seq<StageView>)
    ensures |v| == |p.kinds|
  {
    if order == [] then Fresh(p)
    else
      var v, i := StateBy(p, order[..|order| - 1]), order[|order| - 1];
      if i < |v| then StepChild(p, v, i) else v
  }

  /** What has arrived at the container by then. */
  function ArrivalsBy(p: Problem, order: seq<nat>): seq<Solution> {
    if order == [] then []
    else
      var i := order[|order| - 1];
      ArrivalsBy(p, order[..|order| - 1]) + if i < |p.kinds| then Emissions(p, i) else []
  }

  function RanBy(n: nat, order: seq<nat>): (ran: seq<bool>)
    ensures |ran| == n
  {
    if order == [] then seq(n, i => false)
    else
      var ran, i := RanBy(n, order[..|order| - 1]), order[|order| - 1];
      if i < n then ran[i := true] else ran
  }

  /** Whoever computes next can compute. */
  ghost predicate Schedule(p: Problem, order: seq<nat>) {
    order == [] ||
    (var init, i := order[..|order| - 1], order[|order| - 1];
     Schedule(p, init) && i < |p.kinds| && CanCompute(p.kinds[i], StateBy(p, init)[i]))
  }

  /** One child computes: what it emits may arrive, and the task moves on to the state in
      which it, too, has run. */
  lemma ChildStep(p: Problem, ran: seq<bool>, idx: seq<Solution>, i: nat)
    requires Resolved(p.kinds) && Feasible(p, ran) && Arrived(p, ran, idx) && Run(p.kinds, idx)
    requires i < |ran| && CanCompute(p.kinds[i], ViewOf(p, ran)[i])
    ensures AfterRun(p, i, ViewOf(p, ran)[i]).solutions == Emissions(p, i)
    ensures Run(p.kinds, idx + Emissions(p, i))
    ensures !ran[i] && Feasible(p, ran[i := true]) && Arrived(p, ran[i := true], idx + Emissions(p, i))
    ensures StepChild(p, ViewOf(p, ran), i) == ViewOf(p, ran[i := true])
  {
    ComputableMeans(p, ran, i);
    StepIsCanonical(p, ran, i);
    ReadyToRun(p, ran, idx, i);
    EmissionsRun(p, idx, i, |Emissions(p, i)|);
    TakeAll(Emissions(p, i));
    ArrivedStep(p, ran, idx, i);
  }

  lemma FreshIsCanonical(p: Problem)
    ensures var ran := RanBy(|p.kinds|, []); Fresh(p) == ViewOf(p, ran) && Count(ran) == 0
  {
    var ran := RanBy(|p.kinds|, []);
    CountNone(ran);
    forall i | 0 <= i < |p.kinds| ensures Fresh(p)[i] == ViewOf(p, ran)[i] {
      ViewOfAt(p, ran, i);
    }
  }

  /** In whatever order children compute, the state depends only on which of them have: no
      child computes twice, and the container receives an admissible run of their emissions. */
  lemma {:induction false} ScheduleIsCanonical(p: Problem, order: seq<nat>)
    requires Resolved(p.kinds) && Schedule(p, order)
    ensures var ran := RanBy(|p.kinds|, order);
      && Feasible(p, ran) && StateBy(p, order) == ViewOf(p, ran) && Count(ran) == |order|
      && Run(p.kinds, ArrivalsBy(p, order)) && Arrived(p, ran, ArrivalsBy(p, order))
  {
    if order == [] {
      FreshIsCanonical(p);
    } else {
      var init, i := order[..|order| - 1], order[|order| - 1];
      ScheduleIsCanonical(p, init);
      ChildStep(p, RanBy(|p.kinds|, init), ArrivalsBy(p, init), i);
      CountStep(RanBy(|p.kinds|, init), i);
    }
  }

  lemma ScheduleBound(p: Problem, order: seq<nat>)
    requires Resolved(p.kinds) && Schedule(p, order)
    ensures |order| <= |p.kinds|
  {
    ScheduleIsCanonical(p, order);
    CountBound(RanBy(|p.kinds|, order));
  }

  /** A schedule extended by a child that can compute. */
  lemma ScheduleSnoc(p: Problem, order: seq<nat>, i: nat)
    requires Resolved(p.kinds) && Schedule(p, order) && i < |p.kinds| && CanCompute(p.kinds[i], StateBy(p, order)[i])
    ensures Schedule(p, order + [i])
    ensures StateBy(p, order + [i]) == Propagate(p, StateBy(p, order)[i := AfterRun(p, i, StateBy(p, order)[i])], i)
    ensures ArrivalsBy(p, order + [i]) == ArrivalsBy(p, order) + Emissions(p, i)
    ensures Run(p.kinds, ArrivalsBy(p, order) + Emissions(p, i))
    ensures AfterRun(p, i, StateBy(p, order)[i]).solutions == Emissions(p, i)
  {
    assert (order + [i])[..|order|] == order;
    ScheduleIsCanonical(p, order);
    ChildStep(p, RanBy(|p.kinds|, order), ArrivalsBy(p, order), i);
  }

  lemma {:induction false} CountNone(ran: seq<bool>)
    requires forall i :: 0 <= i < |ran| ==> !ran[i]
    ensures Count(ran) == 0
  {
    if ran != [] {
      CountNone(ran[..|ran| - 1]);
    }
  }

  lemma NothingComposed(c: ChainComposer)
    requires c.Valid() && c.indexed == []
    ensures c.solutions == []
  {
  }

  lemma {:induction false} RanGrows(n: nat, before: seq<nat>, after: seq<nat>, k: nat)
    requires before <= after && k < n && RanBy(n, before)[k]
    ensures RanBy(n, after)[k]
  {
    if |before| < |after| {
      RanGrows(n, before, after[..|after| - 1], k);
    } else {
      assert before == after;
    }
  }

  /** A child that could compute and has not run since can still compute. */
  lemma StillComputable(p: Problem, before: seq<nat>, after: seq<nat>, i: nat)
    requires Resolved(p.kinds) && Schedule(p, before) && Schedule(p, after) && before <= after && i < |p.kinds|
    requires CanCompute(p.kinds[i], StateBy(p, before)[i]) && !RanBy(|p.kinds|, after)[i]
    ensures CanCompute(p.kinds[i], StateBy(p, after)[i])
  {
    var n := |p.kinds|;
    ScheduleIsCanonical(p, before);
    ScheduleIsCanonical(p, after);
    ComputableMeans(p, RanBy(n, before), i);
    ComputableMeans(p, RanBy(n, after), i);
    if i > 0 && RanBy(n, before)[i - 1] {
      RanGrows(n, before, after, i - 1);
    }
    if i + 1 < n && RanBy(n, before)[i + 1] {
      RanGrows(n, before, after, i + 1);
    }
  }

  /** Every one of the first `m` children that could compute in the state of `before` has
      computed by `after`. */
  ghost predicate PassedOver(p: Problem, before: seq<nat>, after: seq<nat>, m: nat) {
    && before <= after
    && forall i :: 0 <= i < m && i < |p.kinds| && CanCompute(p.kinds[i], StateBy(p, before)[i]) ==>
         RanBy(|p.kinds|, after)[i]
  }

  lemma PassNext(p: Problem, before: seq<nat>, after: seq<nat>, i: nat)
    requires Resolved(p.kinds) && Schedule(p, before) && Schedule(p, after) && i < |p.kinds|
    requires PassedOver(p, before, after, i)
    ensures if CanCompute(p.kinds[i], StateBy(p, after)[i]) then PassedOver(p, before, after + [i], i + 1)
            else PassedOver(p, before, after, i + 1)
  {
    var n := |p.kinds|;
    if CanCompute(p.kinds[i], StateBy(p, after)[i]) {
      assert (after + [i])[..|after|] == after;
      assert RanBy(n, after + [i])[i];
      forall k | 0 <= k < i && CanCompute(p.kinds[k], StateBy(p, before)[k]) ensures RanBy(n, after + [i])[k] {
        RanGrows(n, after, after + [i], k);
      }
    } else if CanCompute(p.kinds[i], StateBy(p, before)[i]) && !RanBy(n, after)[i] {
      StillComputable(p, before, after, i);
    }
  }

  /** A pass over all children makes progress whenever one of them can compute. */
  lemma PassProgress(p: Problem, before: seq<nat>, after: seq<nat>, i: nat)
    requires Resolved(p.kinds) && Schedule(p, before) && i < |p.kinds|
    requires PassedOver(p, before, after, |p.kinds|) && CanCompute(p.kinds[i], StateBy(p, before)[i])
    ensures |before| < |after|
  {
    ScheduleIsCanonical(p, before);
    ComputableMeans(p, RanBy(|p.kinds|, before), i);
    assert |before| == |after| ==> before == after;
  }

  /** Nothing can compute after this schedule. */
  ghost predicate Exhausted(p: Problem, order: seq<nat>) {
    Schedule(p, order) && forall i :: 0 <= i < |p.kinds| ==> !CanCompute(p.kinds[i], StateBy(p, order)[i])
  }

  /** Every solution of the container is a way through the task. */
  lemma SolutionSurvives(p: Problem, order: seq<nat>, c: ChainComposer)
    requires Resolved(p.kinds) && Schedule(p, order) && c.Valid() && c.kinds == p.kinds
    requires c.indexed == ArrivalsBy(p, order) && c.solutions != []
    ensures Survives(p) && Solvable(p)
  {
    var s := c.solutions[0];
    HeldIsFull(c, s);
    ScheduleIsCanonical(p, order);
    ArrivalsSurvive(p, RanBy(|p.kinds|, order), c.indexed, s.children);
    SurvivorSolves(p, s.children);
  }

  /** When nothing can compute any more, a surviving way through the task has been found. */
  lemma ExhaustedSolves(p: Problem, order: seq<nat>, c: ChainComposer)
    requires Resolved(p.kinds) && Exhausted(p, order) && c.Valid() && c.kinds == p.kinds
    requires c.indexed == ArrivalsBy(p, order) && Survives(p)
    ensures c.solutions != []
  {
    ScheduleIsCanonical(p, order);
    var chain :| SurvivingChain(p, chain);
    QuiescenceFinds(p, RanBy(|p.kinds|, order), c.indexed, chain);
    FullIsHeld(c, chain);
  }

  /** When nothing can compute any more, every connector has attempted exactly the product of
      the key-distinct states from its two sides. */
  lemma ExhaustedCovers(p: Problem, order: seq<nat>, i: nat)
    requires Resolved(p.kinds) && Exhausted(p, order) && i < |p.kinds| && p.kinds[i].Connecting?
    ensures StateBy(p, order)[i].attempts == Product(InStart(p, i), InEnd(p, i))
  {
    ScheduleIsCanonical(p, order);
    ConnectorCoverage(p, RanBy(|p.kinds|, order), i);
  }

  /** What having a solution, or none when nothing can compute, says about the task. */
  lemma Concludes(p: Problem, order: seq<nat>, c: ChainComposer)
    requires Resolved(p.kinds) && Schedule(p, order) && c.Valid() && c.kinds == p.kinds
    requires c.indexed == ArrivalsBy(p, order)
    ensures c.solutions != [] ==> Survives(p) && Solvable(p)
    ensures c.solutions == [] && Exhausted(p, order) ==> !Survives(p)
    ensures DistinctKeys(p) || CarriedKeys.KeysCarry(p) ==> (Survives(p) <==> Solvable(p))
  {
    if c.solutions != [] {
      SolutionSurvives(p, order, c);
    } else if Exhausted(p, order) && Survives(p) {
      ExhaustedSolves(p, order, c);
    }
    if DistinctKeys(p) {
      DistinctKeysSurvive(p);
    }
    if CarriedKeys.KeysCarry(p) {
      CarriedKeys.CarriedKeysSurvive(p);
    }
  }

  /** A flat serial container at the root of a task, after a successful resolution. */
  class SerialRoot {
    const problem: Problem
    const composer: ChainComposer
    const children: seq<Stage>
    /** The children that have computed, in order. */
    ghost var order: seq<nat>

    /** Each child is a different object. */
    ghost predicate Numbered() {
      |children| == |problem.kinds| &&
      forall i :: 0 <= i < |children| ==> children[i].index == i && children[i].kind == problem.kinds[i]
    }

    ghost predicate Views(v: seq<StageView>)
      reads children
    {
      |v| == |children| && forall i :: 0 <= i < |v| ==> children[i].Valid() && children[i].View() == v[i]
    }

    /** The children and the composition are where the schedule so far has brought them. */
    ghost predicate Valid()
      reads this, composer, children
    {
      && Resolved(problem.kinds) && Numbered() && composer.kinds == problem.kinds && composer.Valid()
      && Schedule(problem, order) && composer.indexed == ArrivalsBy(problem, order)
      && Views(StateBy(problem, order))
    }

    constructor (p: Problem)
      requires Resolved(p.kinds)
      ensures Valid() && problem == p && order == [] && composer.solutions == []
    {
      var c := new ChainComposer(p.kinds, 0);
      var kids: seq<Stage> := [];
      for i := 0 to |p.kinds|
        invariant |kids| == i && c.Valid() && c.indexed == [] && c.kinds == p.kinds
        invariant forall j :: 0 <= j < i ==>
          kids[j].index == j && kids[j].kind == p.kinds[j] && kids[j].Valid()
            && kids[j].View() == StageView([], [], [], [], [], false, 0, [])
      {
        var kid := new Stage(i, p.kinds[i]);
        kids := kids + [kid];
      }
      problem, composer, children := p, c, kids;
      order := [];
      new;
      NothingComposed(composer);
    }

    /** Pushes what child `i` has written forward along its edge. */
    method PropagateEnds(i: nat, next: Stage, ghost v: seq<StageView>)
      requires Numbered() && Views(v) && i + 1 < |children| && next == children[i + 1]
      modifies next`startPull
      ensures Views(v[i + 1 := v[i + 1].(startPull := PushAll(v[i + 1].startPull, v[i].ends))])
    {
      var ends := children[i].ends;
      for k := 0 to |ends|
        invariant next.startPull == PushAll(v[i + 1].startPull, ends[..k])
      {
        assert ends[..k + 1][..k] == ends[..k];
        next.PushStart(ends[k]);
      }
      assert ends[..|ends|] == ends;
    }

    /** Pushes what child `i` has written backward along its edge. */
    method PropagateStarts(i: nat, previous: Stage, ghost v: seq<StageView>)
      requires Numbered() && Views(v) && 0 < i < |children| && previous == children[i - 1]
      modifies previous`endPull
      ensures Views(v[i - 1 := v[i - 1].(endPull := PushAll(v[i - 1].endPull, v[i].starts))])
    {
      var starts := children[i].starts;
      for k := 0 to |starts|
        invariant previous.endPull == PushAll(v[i - 1].endPull, starts[..k])
      {
        assert starts[..k + 1][..k] == starts[..k];
        previous.PushEnd(starts[k]);
      }
      assert starts[..|starts|] == starts;
    }

    /** Pushes the states the child has written along the edges that carry them. */
    method PropagateOutputs(i: nat, ghost v: seq<StageView>, ghost after: seq<StageView>, ghost idx: seq<Solution>)
      requires Numbered() && Views(v) && i < |children| && after == Propagate(problem, v, i)
      requires composer.Valid() && composer.indexed == idx
      modifies children
      ensures Views(after) && composer.Valid() && composer.indexed == idx
    {
      ghost var w := v;
      if i + 1 < |children| && problem.kinds[i].WritesEnd() {
        PropagateEnds(i, children[i + 1], v);
        w := v[i + 1 := v[i + 1].(startPull := PushAll(v[i + 1].startPull, v[i].ends))];
      }
      if i > 0 && problem.kinds[i].WritesStart() {
        PropagateStarts(i, children[i - 1], w);
      }
    }

    method RunChild(i: nat, ghost v: seq<StageView>)
      requires Numbered() && Views(v) && i < |children| && CanCompute(problem.kinds[i], v[i])
      modifies children[i]
      ensures Views(v[i := AfterRun(problem, i, v[i])])
    {
      children[i].RunCompute(problem);
    }

    /** Child `i` computes and its solutions arrive; its outputs are not passed on yet. */
    method RunAndCompose(i: nat, ghost view: seq<StageView>, ghost idx: seq<Solution>)
      requires Numbered() && Views(view) && i < |children| && CanCompute(problem.kinds[i], view[i])
      requires composer.Valid() && composer.kinds == problem.kinds && composer.indexed == idx
      requires AfterRun(problem, i, view[i]).solutions == Emissions(problem, i)
      requires Run(problem.kinds, idx + Emissions(problem, i))
      modifies composer, children[i]
      ensures Views(view[i := AfterRun(problem, i, view[i])])
      ensures composer.Valid() && composer.indexed == idx + Emissions(problem, i)
    {
      RunChild(i, view);
      composer.OnChildSolutions(children[i].solutions);
    }

    /** What is known after the children of `done` have computed. */
    ghost predicate At(done: seq<nat>)
      reads composer, children
    {
      && Schedule(problem, done) && composer.Valid() && composer.indexed == ArrivalsBy(problem, done)
      && Views(StateBy(problem, done))
    }

    method Advance(i: nat, ghost done: seq<nat>)
      requires Resolved(problem.kinds) && Numbered() && composer.kinds == problem.kinds && At(done)
      requires i < |children| && CanCompute(problem.kinds[i], children[i].View())
      modifies composer, children
      ensures At(done + [i])
    {
      ghost var view, after := StateBy(problem, done), StateBy(problem, done + [i]);
      ScheduleSnoc(problem, done, i);
      RunAndCompose(i, view, ArrivalsBy(problem, done));
      PropagateOutputs(i, view[i := AfterRun(problem, i, view[i])], after, ArrivalsBy(problem, done + [i]));
    }

    method CanComputeChild(i: nat) returns (can: bool)
      requires i < |children|
      ensures can <==> CanCompute(children[i].kind, children[i].View())
    {
      var child := children[i];
      can := match child.kind
        case Generator => !child.computed
        case PropagatorForward => child.startPull != []
        case PropagatorBackward => child.endPull != []
        case Connecting => child.startPull != [] && child.endPull != [];
    }

    /** Child `i` computes if it can. */
    method Turn(i: nat, ghost before: seq<nat>, ghost done: seq<nat>) returns (ghost done': seq<nat>)
      requires Resolved(problem.kinds) && Numbered() && composer.kinds == problem.kinds && At(done)
      requires i < |children| && Schedule(problem, before) && PassedOver(problem, before, done, i)
      modifies composer, children
      ensures At(done') && PassedOver(problem, before, done', i + 1)
    {
      done' := done;
      PassNext(problem, before, done, i);
      var can := CanComputeChild(i);
      if can {
        Advance(i, done);
        done' := done + [i];
      }
    }

    /** Each child in its turn. */
    method Pass(ghost before: seq<nat>) returns (ghost done: seq<nat>)
      requires Resolved(problem.kinds) && Numbered() && composer.kinds == problem.kinds && At(before)
      modifies composer, children
      ensures At(done) && PassedOver(problem, before, done, |problem.kinds|)
    {
      done := before;
      for i := 0 to |children|
        invariant At(done) && PassedOver(problem, before, done, i)
      {
        done := Turn(i, before, done);
      }
    }

    /** One pass over the children, unless the root is solved already. */
    method Compute()
      requires Valid()
      modifies this, composer, children
      ensures Valid()
      ensures if old(composer.solutions) == [] then PassedOver(problem, old(order), order, |problem.kinds|)
              else order == old(order)
    {
      if composer.solutions != [] {
        return;
      }
      order := Pass(order);
    }

    method AnyCanCompute() returns (any: bool)
      requires Valid()
      ensures any <==> exists i :: 0 <= i < |problem.kinds| && CanCompute(problem.kinds[i], StateBy(problem, order)[i])
    {
      ghost var v := StateBy(problem, order);
      for i := 0 to |children|
        invariant forall k :: 0 <= k < i ==> !CanCompute(problem.kinds[k], v[k])
      {
        var can := CanComputeChild(i);
        assert can <==> CanCompute(problem.kinds[i], v[i]);
        if can {
          return true;
        }
      }
      any := false;
    }

    /** The planning loop: passes over the children until the root is solved, nothing can
        compute, or the iteration limit (0 for none) is reached. */
    method Plan(maxIterations: nat) returns (found: bool, iterations: nat)
      requires Valid() && order == []
      modifies this, composer, children
      ensures Valid() && found == (composer.solutions != [])
      ensures found ==> Solvable(problem)
      ensures maxIterations == 0 && !found ==> Exhausted(problem, order)
      ensures maxIterations == 0 ==> (found <==> Survives(problem))
      ensures maxIterations == 0 && (DistinctKeys(problem) || CarriedKeys.KeysCarry(problem)) ==>
                (found <==> Solvable(problem))
      ensures iterations <= |order| <= |problem.kinds|
      ensures maxIterations != 0 ==> iterations <= maxIterations
      ensures maxIterations != 0 && !found && iterations < maxIterations ==> Exhausted(problem, order)
    {
      iterations := 0;
      NothingComposed(composer);
      var any := AnyCanCompute();
      while any
        invariant Valid() && iterations <= |order| <= |problem.kinds| && composer.solutions == []
        invariant maxIterations != 0 ==> iterations < maxIterations
        invariant any <==>
                  exists i :: 0 <= i < |problem.kinds| && CanCompute(problem.kinds[i], StateBy(problem, order)[i])
        decreases |problem.kinds| - |order|
      {
        ghost var before := order;
        Compute();
        ghost var i :| 0 <= i < |problem.kinds| && CanCompute(problem.kinds[i], StateBy(problem, before)[i]);
        PassProgress(problem, before, order, i);
        ScheduleBound(problem, order);
        iterations := iterations + 1;
        if composer.solutions != [] {
          break;
        }
        if maxIterations != 0 && iterations >= maxIterations {
          break;
        }
        any := AnyCanCompute();
      }
      found := composer.solutions != [];
      Concludes(problem, order, composer);
    }
  }

  /** What arrives at a flat root are leaves that carry what the solvers said. */
  lemma {:induction false} LeavesArrive(p: Problem, order: seq<nat>, s: Solution)
    requires s in ArrivalsBy(p, order)
    ensures s.children == [] && 0 <= s.stage < |p.kinds| && Carries(p, s.stage, s)
  {
    var init, i := order[..|order| - 1], order[|order| - 1];
    if s in ArrivalsBy(p, init) {
      LeavesArrive(p, init, s);
    } else {
      var k :| 0 <= k < |Emissions(p, i)| && Emissions(p, i)[k] == s;
      EmissionAt(p, i, k);
      WorkCarries(p, i, InStart(p, i), InEnd(p, i), s);
    }
  }

  lemma {:induction false} OwnLeaves(chain: seq<Solution>)
    requires forall c :: c in chain ==> c.children == []
    ensures LeavesOf(chain) == chain
  {
    if chain != [] {
      assert chain == chain[..|chain| - 1] + [chain[|chain| - 1]];
      OwnLeaves(chain[..|chain| - 1]);
    }
  }

  /** At any time what the root holds adds up from its leaves: costs, scene operations in order, ends,
      and a state shared by each two neighbours. */
  lemma RootAddsUp(root: SerialRoot)
    requires root.Valid()
    ensures forall s :: s in root.composer.solutions ==>
              Composed(s) && AddsUpTo(Leaves(s), s.start, s.end, s.cost, s.ops)
  {
    forall s | s in root.composer.indexed ensures Composed(s) {
      LeavesArrive(root.problem, root.order, s);
    }
    HeldAddsUp(root.composer);
  }

  /** The leaves are one per child, and each carries what that child's solver said. */
  ghost predicate CarriesAll(p: Problem, leaves: seq<Solution>) {
    |leaves| == |p.kinds| && forall j :: 0 <= j < |leaves| ==> Carries(p, j, leaves[j])
  }

  /** Every solution the root holds moves, costs and changes the scene as its children's solvers said, one
      after the other. */
  lemma RootCarries(root: SerialRoot)
    requires root.Valid()
    ensures forall s :: s in root.composer.solutions ==>
              CarriesAll(root.problem, Leaves(s)) && s.trajectory == ConcatSegments(Trajectories(Leaves(s)))
  {
    forall s | s in root.composer.solutions
      ensures CarriesAll(root.problem, Leaves(s)) && s.trajectory == ConcatSegments(Trajectories(Leaves(s)))
    {
      HeldIsFull(root.composer, s);
      forall j | 0 <= j < |s.children| ensures s.children[j].children == [] && Carries(root.problem, j, s.children[j]) {
        LeavesArrive(root.problem, root.order, s.children[j]);
      }
      OwnLeaves(s.children);
    }
  }
}
