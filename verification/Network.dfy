/** The states a flat serial task goes through while its stages compute, and why every way of
    scheduling them ends in the same place. */
module Network {
  import opened Interfaces
  import opened Chains
  import opened Search
  import opened SearchLemmas

  /** Everything a stage has received and produced. */
  datatype StageView = StageView(
    startPull: seq<InterfaceState>,
    endPull: seq<InterfaceState>,
    starts: seq<InterfaceState>,
    ends: seq<InterfaceState>,
    solutions: seq<Solution>,
    computed: bool,
    runs: nat,
    attempts: seq<(InterfaceState, InterfaceState)>)

  predicate CanCompute(kind: InterfaceType, v: StageView) {
    match kind
    case Generator => !v.computed
    case PropagatorForward => v.startPull != []
    case PropagatorBackward => v.endPull != []
    case Connecting => v.startPull != [] && v.endPull != []
  }

  function PairsWith(s: InterfaceState, es: seq<InterfaceState>): (r: seq<(InterfaceState, InterfaceState)>)
    ensures |r| == |es| && forall j :: 0 <= j < |r| ==> r[j] == (s, es[j])
  {
    seq(|es|, j requires 0 <= j < |es| => (s, es[j]))
  }

  /** Every pair of a left and a right state, in the order of the nested loops. */
  function Product(ss: seq<InterfaceState>, es: seq<InterfaceState>): seq<(InterfaceState, InterfaceState)> {
    if ss == [] then [] else Product(ss[..|ss| - 1], es) + PairsWith(ss[|ss| - 1], es)
  }

  /** The written interfaces of a stage that has sent `done`. */
  function StartsAfter(kind: InterfaceType, starts: seq<InterfaceState>, done: seq<Solution>): seq<InterfaceState> {
    if kind.WritesStart() then starts + StartsIn(done) else starts
  }

  function EndsAfter(kind: InterfaceType, ends: seq<InterfaceState>, done: seq<Solution>): seq<InterfaceState> {
    if kind.WritesEnd() then ends + EndsIn(done) else ends
  }

  /** A stage computes: it consumes the pulls it reads, writes and emits. */
  function AfterRun(p: Problem, i: nat, v: StageView): StageView
    requires i < |p.kinds|
  {
    var kind, work := p.kinds[i], Work(p, i, v.startPull, v.endPull);
    StageView(
      if kind.WritesStart() then v.startPull else [],
      if kind.WritesEnd() then v.endPull else [],
      StartsAfter(kind, v.starts, work),
      EndsAfter(kind, v.ends, work),
      EmitOnto(v.solutions, work),
      v.computed || kind.Generator?,
      v.runs + 1,
      if kind.Connecting? then v.attempts + Product(v.startPull, v.endPull) else v.attempts)
  }

  /** The container passes what stage `i` has written to the neighbours that read it. */
  function Propagate(p: Problem, v: seq<StageView>, i: nat): seq<StageView>
    requires |v| == |p.kinds| && i < |v|
  {
    var w := if i + 1 < |v| && p.kinds[i].WritesEnd()
             then v[i + 1 := v[i + 1].(startPull := PushAll(v[i + 1].startPull, v[i].ends))] else v;
    if i > 0 && p.kinds[i].WritesStart()
    then w[i - 1 := w[i - 1].(endPull := PushAll(w[i - 1].endPull, v[i].starts))] else w
  }

  function StepChild(p: Problem, v: seq<StageView>, i: nat): seq<StageView>
    requires |v| == |p.kinds| && i < |v|
  {
    Propagate(p, v[i := AfterRun(p, i, v[i])], i)
  }

  // --- the state is determined by which stages have run ---------------------------------------

  function Finished(p: Problem, i: nat): StageView
    requires i < |p.kinds|
  {
    StageView([], [], StartsOf(p, i), EndsOf(p, i), Emissions(p, i), p.kinds[i].Generator?, 1,
              if p.kinds[i].Connecting? then Product(InStart(p, i), InEnd(p, i)) else [])
  }

  function Waiting(p: Problem, i: nat, left: bool, right: bool): StageView
    requires i < |p.kinds|
  {
    StageView(if left then InStart(p, i) else [], if right then InEnd(p, i) else [], [], [], [], false, 0, [])
  }

  function ViewAt(p: Problem, ran: seq<bool>, i: nat): StageView
    requires |ran| == |p.kinds| && i < |ran|
  {
    if ran[i] then Finished(p, i)
    else Waiting(p, i, i > 0 && ran[i - 1], i + 1 < |ran| && ran[i + 1])
  }

  function Tabulate<T>(f: nat -> T, m: nat): (v: seq<T>)
    ensures |v| == m
  {
    if m == 0 then [] else Tabulate(f, m - 1) + [f(m - 1)]
  }

  lemma {:induction false} TabulateAt<T>(f: nat -> T, m: nat, i: nat)
    requires i < m
    ensures Tabulate(f, m)[i] == f(i)
  {
    if i < m - 1 {
      TabulateAt(f, m - 1, i);
    }
  }

  function Viewer(p: Problem, ran: seq<bool>): nat -> StageView
    requires |ran| == |p.kinds|
  {
    (i: nat) => if i < |ran| then ViewAt(p, ran, i) else StageView([], [], [], [], [], false, 0, [])
  }

  function ViewOf(p: Problem, ran: seq<bool>): (v: seq<StageView>)
    requires |ran| == |p.kinds|
    ensures |v| == |ran|
  {
    Tabulate(Viewer(p, ran), |ran|)
  }

  lemma ViewOfAt(p: Problem, ran: seq<bool>, i: nat)
    requires |ran| == |p.kinds| && i < |ran|
    ensures ViewOf(p, ran)[i] == ViewAt(p, ran, i)
  {
    TabulateAt(Viewer(p, ran), |ran|, i);
  }

  /** The inputs stage `i` needs are there, or were. */
  ghost predicate Supplied(p: Problem, ran: seq<bool>, i: nat)
    requires |ran| == |p.kinds| && i < |ran|
  {
    && (!p.kinds[i].WritesStart() ==> i > 0 && ran[i - 1] && InStart(p, i) != [])
    && (!p.kinds[i].WritesEnd() ==> i + 1 < |ran| && ran[i + 1] && InEnd(p, i) != [])
  }

  /** Stages run only after what they read was written. */
  ghost predicate Feasible(p: Problem, ran: seq<bool>) {
    && |ran| == |p.kinds|
    && forall i :: 0 <= i < |ran| && ran[i] ==> Supplied(p, ran, i)
  }

  lemma ComputableMeans(p: Problem, ran: seq<bool>, i: nat)
    requires Feasible(p, ran) && i < |ran|
    ensures CanCompute(p.kinds[i], ViewOf(p, ran)[i]) <==> !ran[i] && Supplied(p, ran, i)
  {
    ViewOfAt(p, ran, i);
  }

  /** What a stage writes in a run is what the flow prescribes. */
  lemma WritesItsFlow(p: Problem, i: nat)
    requires Resolved(p.kinds) && i < |p.kinds|
    ensures p.kinds[i].WritesStart() ==> StartsOf(p, i) == StartsIn(Work(p, i, InStart(p, i), InEnd(p, i)))
    ensures p.kinds[i].WritesEnd() ==> EndsOf(p, i) == EndsIn(Work(p, i, InStart(p, i), InEnd(p, i)))
  {
  }

  lemma RunIsFinished(p: Problem, i: nat, v: StageView)
    requires Resolved(p.kinds) && i < |p.kinds| && v == Waiting(p, i, true, true)
    ensures AfterRun(p, i, v) == Finished(p, i)
  {
    WritesItsFlow(p, i);
    var work := Work(p, i, InStart(p, i), InEnd(p, i));
    var r := AfterRun(p, i, v);
    assert r.solutions == Emissions(p, i);
    assert r.startPull == [] && r.endPull == [];
    assert r.starts == StartsOf(p, i) by {
      assert [] + StartsIn(work) == StartsIn(work);
    }
    assert r.ends == EndsOf(p, i) by {
      assert [] + EndsIn(work) == EndsIn(work);
    }
    assert [] + Product(InStart(p, i), InEnd(p, i)) == Product(InStart(p, i), InEnd(p, i));
  }

  lemma StillFeasible(p: Problem, ran: seq<bool>, i: nat)
    requires Feasible(p, ran) && i < |ran| && !ran[i] && Supplied(p, ran, i)
    ensures Feasible(p, ran[i := true])
  {
    var ran' := ran[i := true];
    forall k | 0 <= k < |ran| ensures ran'[k] ==> Supplied(p, ran', k) {
      assert ran[k] || k == i ==> Supplied(p, ran, k);
    }
  }

  lemma SameViews(p: Problem, w: seq<StageView>, ran: seq<bool>, i: nat)
    requires Resolved(p.kinds) && Feasible(p, ran) && i < |ran| && !ran[i] && Supplied(p, ran, i)
    requires w == Propagate(p, ViewOf(p, ran)[i := Finished(p, i)], i)
    ensures w == ViewOf(p, ran[i := true])
  {
    var ran' := ran[i := true];
    forall k | 0 <= k < |ran| ensures w[k] == ViewOf(p, ran')[k] {
      PropagatedView(p, ran, i, k);
      ViewOfAt(p, ran', k);
    }
  }

  /** Whatever computable stage is scheduled, it had not run before, and the network moves to
      the state in which it, too, has run. */
  lemma StepIsCanonical(p: Problem, ran: seq<bool>, i: nat)
    requires Resolved(p.kinds) && Feasible(p, ran) && i < |ran|
    requires CanCompute(p.kinds[i], ViewOf(p, ran)[i])
    ensures !ran[i] && Feasible(p, ran[i := true])
    ensures AfterRun(p, i, ViewOf(p, ran)[i]) == Finished(p, i)
    ensures StepChild(p, ViewOf(p, ran), i) == ViewOf(p, ran[i := true])
  {
    ComputableMeans(p, ran, i);
    StillFeasible(p, ran, i);
    var v, ran' := ViewOf(p, ran), ran[i := true];
    ViewOfAt(p, ran, i);
    RunIsFinished(p, i, v[i]);
    SameViews(p, Propagate(p, v[i := Finished(p, i)], i), ran, i);
  }

  lemma PropagatedView(p: Problem, ran: seq<bool>, i: nat, k: nat)
    requires Resolved(p.kinds) && Feasible(p, ran) && i < |ran| && !ran[i] && Supplied(p, ran, i) && k < |ran|
    ensures Propagate(p, ViewOf(p, ran)[i := Finished(p, i)], i)[k] == ViewAt(p, ran[i := true], k)
  {
    var v := ViewOf(p, ran)[i := Finished(p, i)];
    ViewOfAt(p, ran, k);
    if k == i + 1 {
      PropagatedRight(p, ran, i, v);
    } else if k + 1 == i {
      PropagatedLeft(p, ran, i, v);
    }
  }

  /** The next stage has not run if it reads what this one writes. */
  lemma PropagatedRight(p: Problem, ran: seq<bool>, i: nat, v: seq<StageView>)
    requires Resolved(p.kinds) && Feasible(p, ran) && i + 1 < |ran| && !ran[i]
    requires |v| == |ran| && v[i] == Finished(p, i) && v[i + 1] == ViewAt(p, ran, i + 1)
    ensures Propagate(p, v, i)[i + 1] == ViewAt(p, ran[i := true], i + 1)
  {
    assert p.kinds[i].WritesEnd() != p.kinds[i + 1].WritesStart();
    assert ran[i + 1] ==> Supplied(p, ran, i + 1);
  }

  lemma PropagatedLeft(p: Problem, ran: seq<bool>, i: nat, v: seq<StageView>)
    requires Resolved(p.kinds) && Feasible(p, ran) && 0 < i < |ran| && !ran[i]
    requires |v| == |ran| && v[i] == Finished(p, i) && v[i - 1] == ViewAt(p, ran, i - 1)
    ensures Propagate(p, v, i)[i - 1] == ViewAt(p, ran[i := true], i - 1)
  {
    assert p.kinds[i - 1].WritesEnd() != p.kinds[(i - 1) + 1].WritesStart();
    assert ran[i - 1] ==> Supplied(p, ran, i - 1);
  }

  // --- counting runs -----------------------------------------------------------------------------

  function Count(ran: seq<bool>): nat {
    if ran == [] then 0 else Count(ran[..|ran| - 1]) + if ran[|ran| - 1] then 1 else 0
  }

  lemma {:induction false} CountBound(ran: seq<bool>)
    ensures Count(ran) <= |ran|
  {
    if ran != [] {
      CountBound(ran[..|ran| - 1]);
    }
  }

  lemma {:induction false} CountStep(ran: seq<bool>, i: nat)
    requires i < |ran| && !ran[i]
    ensures Count(ran[i := true]) == Count(ran) + 1
  {
    if i < |ran| - 1 {
      assert ran[i := true][..|ran| - 1] == ran[..|ran| - 1][i := true];
      CountStep(ran[..|ran| - 1], i);
    } else {
      assert ran[i := true][..|ran| - 1] == ran[..|ran| - 1];
    }
  }

  // --- solutions of the network ---------------------------------------------------------------------

  /** The arrivals at the container are the emissions of the stages that have run. */
  ghost predicate Arrived(p: Problem, ran: seq<bool>, idx: seq<Solution>)
    requires |ran| == |p.kinds|
  {
    && (forall t :: t in idx ==> 0 <= t.stage < |ran| && ran[t.stage] && t in Emissions(p, t.stage))
    && (forall i, t :: 0 <= i < |ran| && ran[i] && t in Emissions(p, i) ==> t in idx)
  }

  lemma EmissionSteps(p: Problem, i: nat, s: Solution)
    requires i < |p.kinds| && s in Emissions(p, i)
    ensures s.stage == i && Step(p, i, s.start, s.end)
  {
    EmitMember(Work(p, i, InStart(p, i), InEnd(p, i)), s);
    WorkSteps(p, i, InStart(p, i), InEnd(p, i), s);
  }

  /** The states a path passes. */
  function PathStates(c: Path): (xs: seq<InterfaceState>)
    requires c != []
    ensures |xs| == |c| + 1 && xs[|c|] == c[|c| - 1].end
    ensures forall i :: 0 <= i < |c| ==> xs[i] == c[i].start
  {
    seq(|c|, i requires 0 <= i < |c| => c[i].start) + [c[|c| - 1].end]
  }

  ghost predicate Quiescent(p: Problem, ran: seq<bool>) {
    Feasible(p, ran) && forall i :: 0 <= i < |ran| ==> !CanCompute(p.kinds[i], ViewOf(p, ran)[i])
  }

  /** The states of a way through the task are written by the stages they belong to. */
  lemma {:induction false} ChainEndsWritten(p: Problem, xs: seq<InterfaceState>, i: nat)
    requires Resolved(p.kinds) && DistinctKeys(p) && CompleteChain(p, xs)
    requires i < |p.kinds| && p.kinds[i].WritesEnd()
    ensures xs[i + 1] in EndsOf(p, i)
    decreases i
  {
    if p.kinds[i].PropagatorForward? {
      assert p.kinds[i - 1].WritesEnd() != p.kinds[(i - 1) + 1].WritesStart();
      ChainEndsWritten(p, xs, i - 1);
      PushAllKeepsDistinct(EndsOf(p, i - 1), xs[i]);
    }
    StepsWork(p, i, InStart(p, i), [xs[i + 1]], xs[i], xs[i + 1]);
    EndWritten(Work(p, i, InStart(p, i), [xs[i + 1]]), xs[i], xs[i + 1]);
  }

  lemma EndWritten(work: seq<Solution>, x: InterfaceState, y: InterfaceState)
    requires exists s :: s in work && s.start == x && s.end == y
    ensures y in EndsIn(work) && x in StartsIn(work)
  {
    var s :| s in work && s.start == x && s.end == y;
    var j :| 0 <= j < |work| && work[j] == s;
    assert EndsIn(work)[j] == y && StartsIn(work)[j] == x;
  }

  lemma {:induction false} ChainStartsWritten(p: Problem, xs: seq<InterfaceState>, i: nat)
    requires Resolved(p.kinds) && DistinctKeys(p) && CompleteChain(p, xs)
    requires i < |p.kinds| && p.kinds[i].WritesStart()
    ensures xs[i] in StartsOf(p, i)
    decreases |p.kinds| - i
  {
    if p.kinds[i].PropagatorBackward? {
      assert p.kinds[i].WritesEnd() != p.kinds[i + 1].WritesStart();
      ChainStartsWritten(p, xs, i + 1);
      PushAllKeepsDistinct(StartsOf(p, i + 1), xs[i + 1]);
    }
    StepsWork(p, i, [xs[i]], InEnd(p, i), xs[i], xs[i + 1]);
    EndWritten(Work(p, i, [xs[i]], InEnd(p, i)), xs[i], xs[i + 1]);
  }

  /** The state of a way through the task is delivered to the stage that reads it. */
  lemma ChainDelivered(p: Problem, xs: seq<InterfaceState>, i: nat)
    requires Resolved(p.kinds) && DistinctKeys(p) && CompleteChain(p, xs) && i < |p.kinds|
    ensures !p.kinds[i].WritesStart() ==> i > 0 && p.kinds[i - 1].WritesEnd() && xs[i] in InStart(p, i)
    ensures !p.kinds[i].WritesEnd() ==>
              i + 1 < |p.kinds| && p.kinds[i + 1].WritesStart() && xs[i + 1] in InEnd(p, i)
  {
    if !p.kinds[i].WritesStart() {
      assert p.kinds[i - 1].WritesEnd() != p.kinds[(i - 1) + 1].WritesStart();
      ChainEndsWritten(p, xs, i - 1);
      PushAllKeepsDistinct(EndsOf(p, i - 1), xs[i]);
    }
    if !p.kinds[i].WritesEnd() {
      assert p.kinds[i].WritesEnd() != p.kinds[i + 1].WritesStart();
      ChainStartsWritten(p, xs, i + 1);
      PushAllKeepsDistinct(StartsOf(p, i + 1), xs[i + 1]);
    }
  }

  /** The step of a way through the task that stage `i` makes is among its emissions. */
  lemma ChainStepEmitted(p: Problem, xs: seq<InterfaceState>, i: nat) returns (t: Solution)
    requires Resolved(p.kinds) && DistinctKeys(p) && CompleteChain(p, xs) && i < |p.kinds|
    ensures t in Emissions(p, i) && t.stage == i && t.start == xs[i] && t.end == xs[i + 1]
  {
    var ss, es := InStart(p, i), InEnd(p, i);
    var work := Work(p, i, ss, es);
    ChainDelivered(p, xs, i);
    StepsWork(p, i, ss, es, xs[i], xs[i + 1]);
    var s :| s in work && s.start == xs[i] && s.end == xs[i + 1];
    EmitKeys(work, s);
    t :| t in EmitOnto([], work) && t.KeyPair() == s.KeyPair();
    EmitMember(work, t);
    WorkSteps(p, i, ss, es, t);
    SameSide(p, i, s, t);
  }

  /** Two emissions of a stage with equal keys have equal ends. */
  lemma SameSide(p: Problem, i: nat, s: Solution, t: Solution)
    requires Resolved(p.kinds) && DistinctKeys(p) && i < |p.kinds|
    requires var work := Work(p, i, InStart(p, i), InEnd(p, i)); s in work && t in work
    requires s.KeyPair() == t.KeyPair()
    ensures s.start == t.start && s.end == t.end
  {
    SameStart(p, i, s, t);
    SameEnd(p, i, s, t);
  }

  lemma SameStart(p: Problem, i: nat, s: Solution, t: Solution)
    requires Resolved(p.kinds) && DistinctKeys(p) && i < |p.kinds|
    requires var work := Work(p, i, InStart(p, i), InEnd(p, i)); s in work && t in work
    requires s.start.key == t.start.key
    ensures s.start == t.start
  {
    var work := Work(p, i, InStart(p, i), InEnd(p, i));
    WritesItsFlow(p, i);
    if p.kinds[i].WritesStart() {
      var j :| 0 <= j < |work| && work[j] == s;
      var k :| 0 <= k < |work| && work[k] == t;
      assert StartsIn(work)[j] == s.start && StartsIn(work)[k] == t.start;
    } else {
      WorkSteps(p, i, InStart(p, i), InEnd(p, i), s);
      WorkSteps(p, i, InStart(p, i), InEnd(p, i), t);
      PushAllMember(EndsOf(p, i - 1), s.start);
      PushAllMember(EndsOf(p, i - 1), t.start);
    }
  }

  lemma SameEnd(p: Problem, i: nat, s: Solution, t: Solution)
    requires Resolved(p.kinds) && DistinctKeys(p) && i < |p.kinds|
    requires var work := Work(p, i, InStart(p, i), InEnd(p, i)); s in work && t in work
    requires s.end.key == t.end.key
    ensures s.end == t.end
  {
    var work := Work(p, i, InStart(p, i), InEnd(p, i));
    WritesItsFlow(p, i);
    if p.kinds[i].WritesEnd() {
      var j :| 0 <= j < |work| && work[j] == s;
      var k :| 0 <= k < |work| && work[k] == t;
      assert EndsIn(work)[j] == s.end && EndsIn(work)[k] == t.end;
    } else {
      WorkSteps(p, i, InStart(p, i), InEnd(p, i), s);
      WorkSteps(p, i, InStart(p, i), InEnd(p, i), t);
      PushAllMember(StartsOf(p, i + 1), s.end);
      PushAllMember(StartsOf(p, i + 1), t.end);
    }
  }

  ghost predicate Follows(p: Problem, xs: seq<InterfaceState>, i: nat, t: Solution)
    requires i < |p.kinds| && |xs| == |p.kinds| + 1
  {
    t in Emissions(p, i) && t.stage == i && t.start == xs[i] && t.end == xs[i + 1]
  }

  lemma {:induction false} CollectChain(p: Problem, xs: seq<InterfaceState>, m: nat) returns (c: Path)
    requires Resolved(p.kinds) && DistinctKeys(p) && CompleteChain(p, xs) && m <= |p.kinds|
    ensures |c| == m && forall i :: 0 <= i < m ==> Follows(p, xs, i, c[i])
  {
    if m == 0 {
      c := [];
    } else {
      var init := CollectChain(p, xs, m - 1);
      var t := ChainStepEmitted(p, xs, m - 1);
      c := init + [t];
      FollowsNext(p, xs, init, t);
    }
  }

  lemma FollowsNext(p: Problem, xs: seq<InterfaceState>, init: Path, t: Solution)
    requires |init| < |p.kinds| && |xs| == |p.kinds| + 1 && Follows(p, xs, |init|, t)
    requires forall i :: 0 <= i < |init| ==> Follows(p, xs, i, init[i])
    ensures forall i :: 0 <= i <= |init| ==> Follows(p, xs, i, (init + [t])[i])
  {
  }

  /** A way through the task made of emissions, none of which deduplication has dropped. */
  ghost predicate SurvivingChain(p: Problem, c: Path) {
    |c| == |p.kinds| && Linked(c) && forall i :: 0 <= i < |c| ==> c[i] in Emissions(p, i)
  }

  ghost predicate Survives(p: Problem) {
    exists c :: SurvivingChain(p, c)
  }

  lemma PathStatesAt(c: Path, i: nat)
    requires c != [] && Linked(c) && i < |c|
    ensures PathStates(c)[i] == c[i].start && PathStates(c)[i + 1] == c[i].end
  {
  }

  lemma SurvivorSolves(p: Problem, c: Path)
    requires p.kinds != [] && SurvivingChain(p, c)
    ensures CompleteChain(p, PathStates(c))
  {
    forall i | 0 <= i < |p.kinds| ensures Step(p, i, PathStates(c)[i], PathStates(c)[i + 1]) {
      EmissionSteps(p, i, c[i]);
      PathStatesAt(c, i);
    }
  }

  /** Where keys identify states, deduplication loses no way through the task. */
  lemma DistinctKeysSurvive(p: Problem)
    requires Resolved(p.kinds) && DistinctKeys(p)
    ensures Solvable(p) <==> Survives(p)
  {
    if xs :| CompleteChain(p, xs) {
      var c := CollectChain(p, xs, |p.kinds|);
      forall i | 0 <= i < |c| ensures c[i] in Emissions(p, i) && c[i].start == xs[i] && c[i].end == xs[i + 1] {
        assert Follows(p, xs, i, c[i]);
      }
      assert SurvivingChain(p, c);
    }
    if c :| SurvivingChain(p, c) {
      SurvivorSolves(p, c);
    }
  }

  /** What a stage with an emission reads was delivered to it. */
  lemma EmissionDelivered(p: Problem, i: nat, t: Solution)
    requires i < |p.kinds| && t in Emissions(p, i)
    ensures !p.kinds[i].WritesStart() ==> i > 0 && InStart(p, i) != []
    ensures !p.kinds[i].WritesEnd() ==> i + 1 < |p.kinds| && InEnd(p, i) != []
  {
    EmitMember(Work(p, i, InStart(p, i), InEnd(p, i)), t);
    WorkSteps(p, i, InStart(p, i), InEnd(p, i), t);
  }

  /** If a way through the task survives, the stages on it have run when nothing can compute. */
  lemma {:induction false} WriterRan(p: Problem, ran: seq<bool>, c: Path, i: nat, ends: bool)
    requires Resolved(p.kinds) && SurvivingChain(p, c) && Quiescent(p, ran)
    requires i < |p.kinds| && if ends then p.kinds[i].WritesEnd() else p.kinds[i].WritesStart()
    ensures ran[i]
    decreases if ends then i else |p.kinds| - i
  {
    ComputableMeans(p, ran, i);
    EmissionDelivered(p, i, c[i]);
    if p.kinds[i].PropagatorForward? {
      assert p.kinds[i - 1].WritesEnd() != p.kinds[(i - 1) + 1].WritesStart();
      WriterRan(p, ran, c, i - 1, true);
    } else if p.kinds[i].PropagatorBackward? {
      assert p.kinds[i].WritesEnd() != p.kinds[i + 1].WritesStart();
      WriterRan(p, ran, c, i + 1, false);
    }
  }

  lemma EveryStageRan(p: Problem, ran: seq<bool>, c: Path, i: nat)
    requires Resolved(p.kinds) && SurvivingChain(p, c) && Quiescent(p, ran) && i < |p.kinds|
    ensures ran[i]
  {
    if p.kinds[i].Connecting? {
      ComputableMeans(p, ran, i);
      EmissionDelivered(p, i, c[i]);
      assert p.kinds[i - 1].WritesEnd() != p.kinds[(i - 1) + 1].WritesStart();
      assert p.kinds[i].WritesEnd() != p.kinds[i + 1].WritesStart();
      WriterRan(p, ran, c, i - 1, true);
      WriterRan(p, ran, c, i + 1, false);
    } else {
      WriterRan(p, ran, c, i, p.kinds[i].WritesEnd());
    }
  }

  /** At quiescence every surviving way through the task has arrived as a full chain. */
  lemma QuiescenceFinds(p: Problem, ran: seq<bool>, idx: seq<Solution>, c: Path)
    requires Resolved(p.kinds) && SurvivingChain(p, c) && Quiescent(p, ran)
    requires Arrived(p, ran, idx)
    ensures FullChain(|p.kinds|, idx, c)
  {
    forall i | 0 <= i < |c| ensures c[i] in idx && c[i].stage == i {
      EveryStageRan(p, ran, c, i);
      EmissionSteps(p, i, c[i]);
    }
  }

  /** A full chain of arrivals consists of emissions. */
  lemma ArrivalsSurvive(p: Problem, ran: seq<bool>, idx: seq<Solution>, c: Path)
    requires |ran| == |p.kinds| && Arrived(p, ran, idx) && FullChain(|p.kinds|, idx, c)
    ensures SurvivingChain(p, c)
  {
    forall i | 0 <= i < |c| ensures c[i] in Emissions(p, i) {
      assert c[i] in idx && c[i].stage == i;
    }
  }

  // --- connector coverage -----------------------------------------------------------------------------

  /** At quiescence a stage that has not run would have written nothing. */
  lemma {:induction false} IdleEnds(p: Problem, ran: seq<bool>, i: nat)
    requires Resolved(p.kinds) && Quiescent(p, ran) && i < |ran| && !ran[i] && p.kinds[i].WritesEnd()
    ensures EndsOf(p, i) == []
  {
    ComputableMeans(p, ran, i);
    assert p.kinds[i].PropagatorForward?;
    assert p.kinds[i - 1].WritesEnd() != p.kinds[(i - 1) + 1].WritesStart();
    if !ran[i - 1] {
      IdleEnds(p, ran, i - 1);
    }
    assert InStart(p, i) == [];
  }

  lemma {:induction false} IdleStarts(p: Problem, ran: seq<bool>, i: nat)
    requires Resolved(p.kinds) && Quiescent(p, ran) && i < |ran| && !ran[i] && p.kinds[i].WritesStart()
    ensures StartsOf(p, i) == []
    decreases |ran| - i
  {
    ComputableMeans(p, ran, i);
    assert p.kinds[i].PropagatorBackward?;
    assert p.kinds[i].WritesEnd() != p.kinds[i + 1].WritesStart();
    if !ran[i + 1] {
      IdleStarts(p, ran, i + 1);
    }
    assert InEnd(p, i) == [];
  }

  /** Run to quiescence, a connector has attempted exactly the pairs of a key-distinct state
      from its left and one from its right. */
  lemma ConnectorCoverage(p: Problem, ran: seq<bool>, i: nat)
    requires Resolved(p.kinds) && Quiescent(p, ran) && i < |ran| && p.kinds[i].Connecting?
    ensures ViewOf(p, ran)[i].attempts == Product(InStart(p, i), InEnd(p, i))
  {
    ViewOfAt(p, ran, i);
    if !ran[i] {
      ComputableMeans(p, ran, i);
      assert p.kinds[i - 1].WritesEnd() != p.kinds[(i - 1) + 1].WritesStart();
      assert p.kinds[i].WritesEnd() != p.kinds[i + 1].WritesStart();
      if !ran[i - 1] {
        IdleEnds(p, ran, i - 1);
      }
      if !ran[i + 1] {
        IdleStarts(p, ran, i + 1);
      }
      assert InStart(p, i) == [] || InEnd(p, i) == [];
      ProductEmpty(InStart(p, i), InEnd(p, i));
    }
  }

  lemma ProductEmpty(ss: seq<InterfaceState>, es: seq<InterfaceState>)
    requires ss == [] || es == []
    ensures Product(ss, es) == []
  {
  }

  lemma {:induction false} PushAllDistinct(ys: seq<InterfaceState>)
    ensures forall a, b :: 0 <= a < b < |PushAll([], ys)| ==> PushAll([], ys)[a].key != PushAll([], ys)[b].key
  {
    if ys != [] {
      PushAllDistinct(ys[..|ys| - 1]);
      var xs := PushAll([], ys[..|ys| - 1]);
      assert forall a :: 0 <= a < |xs| ==> xs[a] in xs;
    }
  }

  /** The product goes through the starts in order and, for each, through the ends in order. */
  lemma ProductInOrder(ss: seq<InterfaceState>, es: seq<InterfaceState>, j: nat)
    returns (next: seq<(InterfaceState, InterfaceState)>)
    requires j < |ss|
    ensures Product(ss[..j + 1], es) == Product(ss[..j], es) + next
    ensures |next| == |es| && forall k :: 0 <= k < |es| ==> next[k] == (ss[j], es[k])
  {
    assert ss[..j + 1][..j] == ss[..j];
    next := PairsWith(ss[j], es);
  }

  /** The product of two key-distinct lists holds each pair of their members once. */
  lemma {:induction false} ProductExactly(ss: seq<InterfaceState>, es: seq<InterfaceState>)
    requires NoDup(ss) && NoDup(es)
    ensures NoDup(Product(ss, es))
    ensures forall s, e :: (s, e) in Product(ss, es) <==> s in ss && e in es
  {
    if ss != [] {
      var init, last := ss[..|ss| - 1], ss[|ss| - 1];
      assert ss == init + [last];
      assert forall j :: 0 <= j < |init| ==> init[j] == ss[j] != last;
      ProductExactly(init, es);
      var row := PairsWith(last, es);
      forall s, e ensures (s, e) in row <==> s == last && e in es {
        if s == last && e in es {
          var j :| 0 <= j < |es| && es[j] == e;
          assert row[j] == (s, e);
        }
      }
      assert forall x :: x in Product(init, es) ==> x.0 in init;
    }
  }
}
