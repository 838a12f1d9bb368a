/** What an alternatives container makes of the states delivered to it: a plain description, child by child,
    and that every run, batched or not, comes to it. */
module AlternativeResults {
  import opened Interfaces
  import opened Firsts
  import opened Solutions
  import opened Search
  import opened SearchLemmas
  import opened Batches
  import opened BatchRuns

  // ---- the plain description ----

  /** A request can be built for the state, the plan succeeds and an end state comes of it. */
  predicate Solves(setup: Setup, k: nat, s: InterfaceState)
    requires k < |setup.stages|
  {
    var stage := setup.stages[k];
    stage.build(s).Some? && var r := setup.plan(stage.build(s).value); r.success && stage.finish(s, r).Some?
  }

  /** The solution it gives: between which states, at what price, along what and for which request. */
  function Solved(setup: Setup, k: nat, s: InterfaceState): Solution
    requires k < |setup.stages| && Solves(setup, k, s)
  {
    var stage := setup.stages[k];
    var request := stage.build(s).value;
    var r := setup.plan(request);
    Solution(s, stage.finish(s, r).value, k, stage.price(r), r.trajectory, [], Request(request), [])
  }

  /** The solutions for these states, in order. */
  function AllSolved(setup: Setup, k: nat, states: seq<InterfaceState>): seq<Solution>
    requires k < |setup.stages|
  {
    if states == [] then [] else
    var s := states[|states| - 1];
    AllSolved(setup, k, states[..|states| - 1]) + if Solves(setup, k, s) then [Solved(setup, k, s)] else []
  }

  /** The failures for these states, in order: a request that could be built and whose plan failed. */
  function AllFailed(setup: Setup, k: nat, states: seq<InterfaceState>): seq<Failure>
    requires k < |setup.stages|
  {
    if states == [] then [] else
    var s, before := states[|states| - 1], AllFailed(setup, k, states[..|states| - 1]);
    match setup.stages[k].build(s)
    case None => before
    case Some(request) =>
      var r := setup.plan(request);
      if r.success then before
      else before + [Failure(s, if r.message == "" then "plan failed" else r.message)]
  }

  lemma {:induction false} SolvedConcat(setup: Setup, k: nat, xs: seq<InterfaceState>, ys: seq<InterfaceState>)
    requires k < |setup.stages|
    ensures AllSolved(setup, k, xs + ys) == AllSolved(setup, k, xs) + AllSolved(setup, k, ys)
    ensures AllFailed(setup, k, xs + ys) == AllFailed(setup, k, xs) + AllFailed(setup, k, ys)
  {
    if ys == [] {
      assert xs + ys == xs;
    } else {
      assert (xs + ys)[..|xs + ys| - 1] == xs + ys[..|ys| - 1];
      SolvedConcat(setup, k, xs, ys[..|ys| - 1]);
    }
  }

  // ---- one pass of one child ----

  lemma {:induction false} EmitConcat(sols: seq<Solution>, a: seq<Solution>, b: seq<Solution>)
    ensures EmitOnto(sols, a + b) == EmitOnto(EmitOnto(sols, a), b)
  {
    if b == [] {
      assert a + b == a;
    } else {
      assert (a + b)[..|a + b| - 1] == a + b[..|b| - 1];
      EmitConcat(sols, a, b[..|b| - 1]);
    }
  }

  /** The child after these states have been worked on. */
  ghost predicate Worked(setup: Setup, k: nat, child: Child, states: seq<InterfaceState>, after: Child)
    requires k < |setup.stages|
  {
    && after.solutions == EmitOnto(child.solutions, AllSolved(setup, k, states))
    && after.ends == child.ends + EndsIn(AllSolved(setup, k, states))
    && after.failures == child.failures + AllFailed(setup, k, states)
    && after.pull == child.pull
  }

  lemma WorkedNone(setup: Setup, k: nat, child: Child)
    requires k < |setup.stages|
    ensures Worked(setup, k, child, [], child)
  {
    assert child.ends + EndsIn([]) == child.ends && child.failures + [] == child.failures;
  }

  lemma Regroup<T>(base: seq<T>, a: seq<T>, b: seq<T>)
    ensures base + (a + b) == base + a + b
  {
  }

  lemma EndsNext(work: seq<Solution>, s: Solution)
    ensures EndsIn(work + [s]) == EndsIn(work) + [s.end]
  {
  }

  lemma SolvedNext(setup: Setup, k: nat, init: seq<InterfaceState>, s: InterfaceState)
    requires k < |setup.stages| && Solves(setup, k, s)
    ensures AllSolved(setup, k, init + [s]) == AllSolved(setup, k, init) + [Solved(setup, k, s)]
    ensures AllFailed(setup, k, init + [s]) == AllFailed(setup, k, init)
  {
    assert (init + [s])[..|init|] == init;
  }

  lemma EmitNext(sols: seq<Solution>, work: seq<Solution>, s: Solution)
    ensures EmitOnto(sols, work + [s])
            == EmitOnto(sols, work) + if HasKeyPair(EmitOnto(sols, work), s.KeyPair()) then [] else [s]
  {
    assert (work + [s])[..|work|] == work;
  }

  lemma CommittedSolves(setup: Setup, k: nat, s: InterfaceState, before: Child, job: Job)
    requires k < |setup.stages| && Solves(setup, k, s) && job == Job(k, s, setup.stages[k].build(s).value)
    ensures var after, sol := Committed(setup.stages[k], before, job, setup.plan(job.request)).0, Solved(setup, k, s);
            && after.ends == before.ends + [sol.end] && after.failures == before.failures && after.pull == before.pull
            && after.solutions == before.solutions + if HasKeyPair(before.solutions, sol.KeyPair()) then [] else [sol]
  {
    assert before.solutions + [] == before.solutions;
  }

  lemma WorkedSolved(setup: Setup, k: nat, child: Child, init: seq<InterfaceState>, s: InterfaceState, before: Child,
                     job: Job)
    requires k < |setup.stages| && Worked(setup, k, child, init, before) && Solves(setup, k, s)
    requires job == Job(k, s, setup.stages[k].build(s).value)
    ensures Worked(setup, k, child, init + [s],
                   Committed(setup.stages[k], before, job, setup.plan(job.request)).0)
  {
    var work, sol := AllSolved(setup, k, init), Solved(setup, k, s);
    SolvedNext(setup, k, init, s);
    CommittedSolves(setup, k, s, before, job);
    EmitNext(child.solutions, work, sol);
    EndsNext(work, sol);
    Regroup(child.ends, EndsIn(work), [sol.end]);
  }

  /** What the next state does. */
  lemma WorkedNext(setup: Setup, k: nat, child: Child, init: seq<InterfaceState>, s: InterfaceState, before: Child)
    requires k < |setup.stages| && Worked(setup, k, child, init, before)
    ensures setup.stages[k].build(s).None? ==> Worked(setup, k, child, init + [s], before)
    ensures setup.stages[k].build(s).Some? ==>
              var job := Job(k, s, setup.stages[k].build(s).value);
              Worked(setup, k, child, init + [s],
                     Committed(setup.stages[k], before, job, setup.plan(job.request)).0)
  {
    if Solves(setup, k, s) {
      WorkedSolved(setup, k, child, init, s, before, Job(k, s, setup.stages[k].build(s).value));
    } else {
      assert (init + [s])[..|init|] == init;
      assert AllSolved(setup, k, init) + [] == AllSolved(setup, k, init);
    }
  }

  lemma {:induction false} AloneWorks(setup: Setup, k: nat, child: Child, states: seq<InterfaceState>)
    requires k < |setup.stages|
    ensures Worked(setup, k, child, states,
                   Alone(setup, setup.stages[k], child, JobsOf(setup.stages[k], k, states)))
  {
    if states == [] {
      WorkedNone(setup, k, child);
    } else {
      var init, s := states[..|states| - 1], states[|states| - 1];
      AloneWorks(setup, k, child, init);
      var jobs := JobsOf(setup.stages[k], k, init);
      WorkedNext(setup, k, child, init, s, Alone(setup, setup.stages[k], child, jobs));
      assert init + [s] == states;
      if setup.stages[k].build(s).Some? {
        AloneNext(setup, k, child, jobs, Job(k, s, setup.stages[k].build(s).value));
      }
    }
  }

  lemma AloneNext(setup: Setup, k: nat, child: Child, jobs: seq<Job>, job: Job)
    requires k < |setup.stages|
    ensures Alone(setup, setup.stages[k], child, jobs + [job])
            == Committed(setup.stages[k], Alone(setup, setup.stages[k], child, jobs), job, setup.plan(job.request)).0
  {
    assert (jobs + [job])[..|jobs|] == jobs;
  }

  /** A pass consumes the pull and works on the states in it, in order. */
  lemma PassWorks(setup: Setup, k: nat, child: Child)
    requires k < |setup.stages|
    ensures PassOf(setup, child, k).pull == []
    ensures Worked(setup, k, child.(pull := []), child.pull, PassOf(setup, child, k))
  {
    if child.pull == [] {
      WorkedNone(setup, k, child);
    } else {
      AloneWorks(setup, k, child.(pull := []), child.pull);
    }
  }

  /** A request that is solved gives the child a solution from the state it was built for to the end it led to. */
  lemma SolvedIsHeld(stage: MotionStage, child: Child, job: Job, result: Planned)
    requires result.success && stage.finish(job.start, result).Some?
    ensures var end := stage.finish(job.start, result).value;
            HasKeyPair(Committed(stage, child, job, result).0.solutions, (job.start.key, end.key))
  {
    var end := stage.finish(job.start, result).value;
    var after := Committed(stage, child, job, result).0.solutions;
    if !HasKeyPair(child.solutions, (job.start.key, end.key)) {
      assert after[|after| - 1].KeyPair() == (job.start.key, end.key);
    }
  }

  // ---- every run ----

  /** Each child is what working on everything fed so far makes of a fresh one. */
  ghost predicate AllWorked(setup: Setup, c: Container) {
    && Fits(setup, c) && KeysDiffer(c.startPull)
    && forall k :: 0 <= k < |c.children| ==>
         c.children[k].pull == [] && Worked(setup, k, Child([], [], [], []), c.startPull[..c.fed], c.children[k])
  }

  ghost predicate KeysDiffer(xs: seq<InterfaceState>) {
    forall a, b :: 0 <= a < b < |xs| ==> xs[a].key != xs[b].key
  }

  lemma PushDiffers(xs: seq<InterfaceState>, s: InterfaceState)
    requires KeysDiffer(xs)
    ensures KeysDiffer(Push(xs, s)) && xs <= Push(xs, s)
  {
    assert forall a :: 0 <= a < |xs| ==> xs[a] in xs;
  }

  lemma PushesLast(init: seq<InterfaceState>, last: InterfaceState, xs: seq<InterfaceState>)
    requires xs == init + [last] && KeysDiffer(xs)
    ensures Push(init, last) == xs
  {
    assert forall a :: 0 <= a < |init| ==> xs[a] == init[a] && xs[a].key != xs[|init|].key;
  }

  /** Pushing states of different keys keeps them all. */
  lemma {:induction false} PushesAll(xs: seq<InterfaceState>)
    requires KeysDiffer(xs)
    ensures PushAll([], xs) == xs
  {
    if xs != [] {
      PushesAll(xs[..|xs| - 1]);
      PushesLast(xs[..|xs| - 1], xs[|xs| - 1], xs);
    }
  }

  lemma EndsConcat(a: seq<Solution>, b: seq<Solution>)
    ensures EndsIn(a + b) == EndsIn(a) + EndsIn(b)
  {
  }

  lemma WorkedOn(setup: Setup, k: nat, child: Child, xs: seq<InterfaceState>, mid: Child, ys: seq<InterfaceState>,
                 after: Child)
    requires k < |setup.stages| && Worked(setup, k, child, xs, mid) && Worked(setup, k, mid, ys, after)
    ensures Worked(setup, k, child, xs + ys, after)
  {
    var a, b := AllSolved(setup, k, xs), AllSolved(setup, k, ys);
    SolvedConcat(setup, k, xs, ys);
    EmitConcat(child.solutions, a, b);
    EndsConcat(a, b);
    Regroup(child.ends, EndsIn(a), EndsIn(b));
    Regroup(child.failures, AllFailed(setup, k, xs), AllFailed(setup, k, ys));
  }

  lemma FedOnce(setup: Setup, c: Container, k: nat)
    requires AllWorked(setup, c) && k < |c.children|
    ensures Feed(setup, c).children[k] == c.children[k].(pull := c.startPull[c.fed..])
  {
    var pool := c.startPull[c.fed..];
    forall a, b | 0 <= a < b < |pool| ensures pool[a].key != pool[b].key {
      assert pool[a] == c.startPull[c.fed + a] && pool[b] == c.startPull[c.fed + b];
    }
    PushesAll(pool);
  }

  lemma PassedChild(setup: Setup, c: Container, k: nat)
    requires AllWorked(setup, c) && k < |c.children|
    ensures PassOf(setup, Feed(setup, c).children[k], k).pull == []
    ensures Worked(setup, k, Child([], [], [], []), c.startPull, PassOf(setup, Feed(setup, c).children[k], k))
  {
    FedOnce(setup, c, k);
    PassWorks(setup, k, Feed(setup, c).children[k]);
    assert c.children[k].(pull := []) == c.children[k];
    WorkedOn(setup, k, Child([], [], [], []), c.startPull[..c.fed], c.children[k], c.startPull[c.fed..],
             PassOf(setup, Feed(setup, c).children[k], k));
    assert c.startPull[..c.fed] + c.startPull[c.fed..] == c.startPull;
  }

  lemma PassWorksAll(setup: Setup, c: Container, batched: bool)
    requires AllWorked(setup, c)
    ensures AllWorked(setup, Took(setup, c, Pass, batched))
    ensures Took(setup, c, Pass, batched).fed == |c.startPull|
    ensures Took(setup, c, Pass, batched).startPull == c.startPull
  {
    var f, d := Feed(setup, c), Took(setup, c, Pass, batched);
    PassKeepsPull(setup, f);
    assert c.startPull[..|c.startPull|] == c.startPull;
    forall k | 0 <= k < |c.children|
      ensures k < |d.children| && d.children[k].pull == []
      ensures Worked(setup, k, Child([], [], [], []), c.startPull, d.children[k])
    {
      EachChildAlone(setup, f, k);
      SequentialIsLocal(setup, f, |f.children|, k, Sequential(setup, f, |f.children|));
      PassedChild(setup, c, k);
    }
  }

  /** A pass leaves the container's own inputs and how far they were fed. */
  lemma PassKeepsPull(setup: Setup, c: Container)
    requires Fits(setup, c)
    ensures var b := Batched(setup, c);
            b.startPull == c.startPull && b.fed == c.fed && |b.children| == |c.children|
    ensures var s := Sequential(setup, c, |c.children|);
            s.startPull == c.startPull && s.fed == c.fed && |s.children| == |c.children|
  {
    SequentialKeepsPull(setup, c, |c.children|);
    CollectedKeepsPull(setup, c, |c.children|);
    var (collected, jobs) := Collected(setup, c, |c.children|);
    CommitKeepsPull(setup, collected, jobs);
  }

  lemma {:induction false} CommitKeepsPull(setup: Setup, c: Container, jobs: seq<Job>)
    requires Fits(setup, c) && JobsFit(setup, jobs)
    ensures var r := CommitAll(setup, c, jobs);
            r.startPull == c.startPull && r.fed == c.fed && |r.children| == |c.children| && r.ends == c.ends
  {
    if jobs != [] {
      CommitKeepsPull(setup, c, jobs[..|jobs| - 1]);
    }
  }

  lemma {:induction false} CollectedKeepsPull(setup: Setup, c: Container, i: nat)
    requires Fits(setup, c) && i <= |c.children|
    ensures var r := Collected(setup, c, i).0;
            r.startPull == c.startPull && r.fed == c.fed && |r.children| == |c.children|
  {
    if i > 0 {
      CollectedKeepsPull(setup, c, i - 1);
    }
  }

  lemma {:induction false} SequentialKeepsPull(setup: Setup, c: Container, i: nat)
    requires Fits(setup, c) && i <= |c.children|
    ensures var r := Sequential(setup, c, i);
            r.startPull == c.startPull && r.fed == c.fed && |r.children| == |c.children|
  {
    if i > 0 {
      var before := Sequential(setup, c, i - 1);
      SequentialKeepsPull(setup, c, i - 1);
      if before.children[i - 1].pull != [] {
        CommitKeepsPull(setup, Emptied(before, i - 1), JobsOf(setup.stages[i - 1], i - 1, before.children[i - 1].pull));
      }
    }
  }

  lemma ArriveWorks(setup: Setup, c: Container, s: InterfaceState, batched: bool)
    requires AllWorked(setup, c)
    ensures AllWorked(setup, Took(setup, c, Arrive(s), batched))
  {
    PushDiffers(c.startPull, s);
    assert Push(c.startPull, s)[..c.fed] == c.startPull[..c.fed];
  }

  /** A container nothing has happened to. */
  function Untouched(n: nat): Container {
    Container(seq(n, _ => Child([], [], [], [])), [], 0, [], [])
  }

  /** Over every run of arrivals and passes, batched or not: each child has worked, in order of arrival, on every
      state that was fed, its solutions are the first of each key pair, and its failures are those of the failed
      plans. */
  lemma {:induction false} AlwaysWorked(setup: Setup, turns: seq<Turn>, batched: bool)
    ensures Fits(setup, Untouched(|setup.stages|))
    ensures AllWorked(setup, TookAll(setup, Untouched(|setup.stages|), turns, batched))
  {
    var c := Untouched(|setup.stages|);
    if turns == [] {
      forall k | 0 <= k < |c.children|
        ensures Worked(setup, k, Child([], [], [], []), c.startPull[..c.fed], c.children[k])
      {
        WorkedNone(setup, k, c.children[k]);
      }
    } else {
      var init, last := turns[..|turns| - 1], turns[|turns| - 1];
      AlwaysWorked(setup, init, batched);
      var before := TookAll(setup, c, init, batched);
      match last
      case Arrive(s) => ArriveWorks(setup, before, s, batched);
      case Pass => PassWorksAll(setup, before, batched);
    }
  }

  function ArrivalsIn(turns: seq<Turn>): seq<InterfaceState> {
    if turns == [] then [] else
    var last := turns[|turns| - 1];
    ArrivalsIn(turns[..|turns| - 1]) + if last.Arrive? then [last.s] else []
  }

  lemma TookPull(setup: Setup, c: Container, turn: Turn, batched: bool)
    requires Fits(setup, c)
    ensures Took(setup, c, turn, batched).startPull == if turn.Arrive? then Push(c.startPull, turn.s) else c.startPull
  {
    if turn.Pass? {
      PassKeepsPull(setup, Feed(setup, c));
    }
  }

  lemma {:induction false} PullPushed(setup: Setup, turns: seq<Turn>, batched: bool)
    ensures TookAll(setup, Untouched(|setup.stages|), turns, batched).startPull == PushAll([], ArrivalsIn(turns))
  {
    if turns != [] {
      var init, last := turns[..|turns| - 1], turns[|turns| - 1];
      PullPushed(setup, init, batched);
      TookPull(setup, TookAll(setup, Untouched(|setup.stages|), init, batched), last, batched);
      if last.Arrive? {
        PushOne(ArrivalsIn(init), last.s);
      } else {
        assert ArrivalsIn(init) + [] == ArrivalsIn(init);
      }
    }
  }

  /** The container holds, of what has arrived, the first state of each key, in order. */
  lemma PullHoldsFirsts(setup: Setup, turns: seq<Turn>, batched: bool)
    ensures TookAll(setup, Untouched(|setup.stages|), turns, batched).startPull
            == FirstOfEach(ArrivalsIn(turns), KeysIn(ArrivalsIn(turns)))
  {
    PullPushed(setup, turns, batched);
    PushedFirsts(ArrivalsIn(turns));
  }

  /** So a child holds exactly the first solution of each key pair among what the fed states give. */
  lemma ChildHoldsFirsts(setup: Setup, turns: seq<Turn>, batched: bool, k: nat)
    requires k < |setup.stages|
    ensures var c := TookAll(setup, Untouched(|setup.stages|), turns, batched);
            var work := AllSolved(setup, k, c.startPull[..c.fed]);
            && k < |c.children| && c.children[k].solutions == FirstOfEach(work, PairsIn(work))
            && c.children[k].ends == EndsIn(work)
            && c.children[k].failures == AllFailed(setup, k, c.startPull[..c.fed])
            && (turns != [] && turns[|turns| - 1].Pass? ==> c.fed == |c.startPull|)
  {
    AlwaysWorked(setup, turns, batched);
    var c := TookAll(setup, Untouched(|setup.stages|), turns, batched);
    var work := AllSolved(setup, k, c.startPull[..c.fed]);
    EmittedFirsts(work);
    assert [] + EndsIn(work) == EndsIn(work);
    if turns != [] && turns[|turns| - 1].Pass? {
      AlwaysWorked(setup, turns[..|turns| - 1], batched);
      PassWorksAll(setup, TookAll(setup, Untouched(|setup.stages|), turns[..|turns| - 1], batched), batched);
    }
  }

  // ---- what the container itself holds ----

  function LiftsOf(own: int, sols: seq<Solution>): (lifts: seq<Solution>)
    ensures |lifts| == |sols| && forall i :: 0 <= i < |sols| ==> lifts[i] == LiftChild(sols[i], own)
  {
    seq(|sols|, i requires 0 <= i < |sols| => LiftChild(sols[i], own))
  }

  /** What child `k` has more in `d` than in `c`. */
  function NewOf(c: Container, d: Container, k: nat): seq<Solution>
    requires k < |c.children| == |d.children| && |c.children[k].solutions| <= |d.children[k].solutions|
  {
    d.children[k].solutions[|c.children[k].solutions|..]
  }

  /** Every child has kept what it had. */
  ghost predicate Grown(c: Container, d: Container) {
    |c.children| == |d.children| &&
    forall k :: 0 <= k < |c.children| ==> c.children[k].solutions <= d.children[k].solutions
  }

  /** What the first `i` children have more, one child after the other, lifted. */
  function NewLifts(own: int, c: Container, d: Container, i: nat): seq<Solution>
    requires Grown(c, d) && i <= |c.children|
  {
    if i == 0 then [] else NewLifts(own, c, d, i - 1) + LiftsOf(own, NewOf(c, d, i - 1))
  }

  lemma CommitEmits(setup: Setup, c: Container, job: Job, emitted: seq<Solution>)
    requires Fits(setup, c) && job.child < |c.children|
    requires emitted
             == Committed(setup.stages[job.child], c.children[job.child], job, setup.plan(job.request)).1
    ensures var d := Commit(setup, c, job);
            && d.children[job.child].solutions == c.children[job.child].solutions + emitted
            && d.solutions == EmitOnto(c.solutions, LiftsOf(setup.own, emitted))
  {
    var k := job.child;
    CommittedGrows(setup.stages[k], c.children[k], job, setup.plan(job.request));
    if emitted == [] {
      assert LiftsOf(setup.own, emitted) == [];
    } else {
      assert emitted == [emitted[0]] && LiftsOf(setup.own, emitted) == [LiftChild(emitted[0], setup.own)];
    }
  }

  lemma LiftsJoin(own: int, a: seq<Solution>, b: seq<Solution>)
    ensures LiftsOf(own, a + b) == LiftsOf(own, a) + LiftsOf(own, b)
  {
  }

  lemma LiftsConcat(own: int, sols: seq<Solution>, a: seq<Solution>, b: seq<Solution>)
    ensures EmitOnto(EmitOnto(sols, LiftsOf(own, a)), LiftsOf(own, b)) == EmitOnto(sols, LiftsOf(own, a + b))
  {
    EmitConcat(sols, LiftsOf(own, a), LiftsOf(own, b));
    LiftsJoin(own, a, b);
  }

  /** In `d` child `k` has `more` beyond what it had in `c`, and the container the lifts of it. */
  ghost predicate Added(own: int, c: Container, d: Container, k: nat, more: seq<Solution>) {
    && k < |c.children| == |d.children| && d.children[k].solutions == c.children[k].solutions + more
    && d.solutions == EmitOnto(c.solutions, LiftsOf(own, more))
  }

  lemma AddedNone(own: int, c: Container, d: Container, k: nat)
    requires k < |c.children| == |d.children|
    requires d.solutions == c.solutions && d.children[k].solutions == c.children[k].solutions
    ensures Added(own, c, d, k, [])
  {
    assert c.children[k].solutions + [] == c.children[k].solutions && LiftsOf(own, []) == [];
  }

  lemma AddedNext(setup: Setup, c: Container, d: Container, job: Job, more: seq<Solution>) returns (all: seq<Solution>)
    requires Fits(setup, d) && job.child < |d.children| && Added(setup.own, c, d, job.child, more)
    ensures Added(setup.own, c, Commit(setup, d, job), job.child, all)
  {
    var k := job.child;
    var emitted := Committed(setup.stages[k], d.children[k], job, setup.plan(job.request)).1;
    CommitEmits(setup, d, job, emitted);
    LiftsConcat(setup.own, c.solutions, more, emitted);
    all := more + emitted;
    Regroup(c.children[k].solutions, more, emitted);
  }

  /** Committing requests of one child. */
  lemma {:induction false} CommitAllEmits(setup: Setup, c: Container, jobs: seq<Job>, k: nat)
    returns (more: seq<Solution>)
    requires Fits(setup, c) && JobsFit(setup, jobs) && k < |c.children| && forall j :: j in jobs ==> j.child == k
    ensures Added(setup.own, c, CommitAll(setup, c, jobs), k, more)
  {
    CommitKeepsPull(setup, c, jobs);
    if jobs == [] {
      more := [];
      AddedNone(setup.own, c, c, k);
    } else {
      var init, job := jobs[..|jobs| - 1], jobs[|jobs| - 1];
      assert job in jobs;
      more := CommitAllEmits(setup, c, init, k);
      more := AddedNext(setup, c, CommitAll(setup, c, init), job, more);
    }
  }

  lemma TurnEmits(setup: Setup, c: Container, k: nat) returns (more: seq<Solution>)
    requires Fits(setup, c) && k < |c.children|
    ensures Added(setup.own, c, RunChild(setup, c, k), k, more)
    ensures forall j :: 0 <= j < |c.children| && j != k ==> RunChild(setup, c, k).children[j] == c.children[j]
  {
    if c.children[k].pull == [] {
      more := [];
      AddedNone(setup.own, c, c, k);
    } else {
      more := CommitAllEmits(setup, Emptied(c, k), JobsOf(setup.stages[k], k, c.children[k].pull), k);
      forall j | 0 <= j < |c.children| && j != k ensures RunChild(setup, c, k).children[j] == c.children[j] {
        RunChildIsLocal(setup, c, k, j);
      }
    }
  }

  lemma {:induction false} SameLifts(own: int, c: Container, d: Container, e: Container, i: nat)
    requires Grown(c, d) && Grown(c, e) && i <= |c.children|
    requires forall k :: 0 <= k < i ==> d.children[k] == e.children[k]
    ensures NewLifts(own, c, d, i) == NewLifts(own, c, e, i)
  {
    if i > 0 {
      SameLifts(own, c, d, e, i - 1);
    }
  }

  /** The first `i` children have had their turn, and the container what they have more. */
  ghost predicate EmittedTo(own: int, c: Container, d: Container, i: nat) {
    && Grown(c, d) && i <= |c.children| && (forall j :: i <= j < |c.children| ==> d.children[j] == c.children[j])
    && d.solutions == EmitOnto(c.solutions, NewLifts(own, c, d, i))
  }

  lemma NextLifts(own: int, c: Container, d: Container, e: Container, i: nat, more: seq<Solution>)
    requires EmittedTo(own, c, d, i) && i < |c.children| == |e.children|
    requires e.children[i].solutions == d.children[i].solutions + more
    requires forall j :: 0 <= j < |d.children| && j != i ==> e.children[j] == d.children[j]
    requires e.solutions == EmitOnto(d.solutions, LiftsOf(own, more))
    ensures EmittedTo(own, c, e, i + 1)
  {
    SameLifts(own, c, d, e, i);
    assert NewOf(c, e, i) == more;
    EmitConcat(c.solutions, NewLifts(own, c, d, i), LiftsOf(own, more));
  }

  lemma NextEmits(setup: Setup, c: Container, i: nat)
    requires Fits(setup, c) && i < |c.children| && EmittedTo(setup.own, c, Sequential(setup, c, i), i)
    ensures EmittedTo(setup.own, c, Sequential(setup, c, i + 1), i + 1)
  {
    var d := Sequential(setup, c, i);
    NextSequential(setup, c, i);
    var more := TurnEmits(setup, d, i);
    NextLifts(setup.own, c, d, Sequential(setup, c, i + 1), i, more);
  }

  lemma SequentialEmits(setup: Setup, c: Container)
    requires Fits(setup, c)
    ensures EmittedTo(setup.own, c, Sequential(setup, c, |c.children|), |c.children|)
  {
    for i := 0 to |c.children|
      invariant EmittedTo(setup.own, c, Sequential(setup, c, i), i)
    {
      NextEmits(setup, c, i);
    }
  }

  /** A pass adds to the container the solutions its children have more, one child after the other, each lifted
      and the first of each key pair, batched or not. */
  lemma PassEmits(setup: Setup, c: Container)
    requires Fits(setup, c)
    ensures var d := Batched(setup, c);
            Grown(c, d) && d.solutions == EmitOnto(c.solutions, NewLifts(setup.own, c, d, |c.children|))
    ensures var d := Sequential(setup, c, |c.children|);
            Grown(c, d) && d.solutions == EmitOnto(c.solutions, NewLifts(setup.own, c, d, |c.children|))
  {
    SequentialEmits(setup, c);
    BatchingRefines(setup, c);
    SameLifts(setup.own, c, Sequential(setup, c, |c.children|), Batched(setup, c), |c.children|);
  }
}
