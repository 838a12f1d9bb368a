/** Whole-task motion children of an alternatives container: solving each request as it comes
    against collecting them all for one batched call. */
module Batches {
  import opened Interfaces
  import opened Search
  import opened Solutions

  datatype Planned = Planned(success: bool, trajectory: seq<Waypoint>, message: string)

  datatype Failure = Failure(start: InterfaceState, message: string)

  /** How a motion stage builds a request from a start state and an end state from a result. */
  datatype MotionStage = MotionStage(
    build: InterfaceState -> Option<nat>,
    finish: (InterfaceState, Planned) -> Option<InterfaceState>,
    price: Planned -> Scalar)

  datatype Setup = Setup(own: int, stages: seq<MotionStage>, plan: nat -> Planned)

  datatype Child = Child(
    pull: seq<InterfaceState>,
    ends: seq<InterfaceState>,
    solutions: seq<Solution>,
    failures: seq<Failure>)

  datatype Container = Container(
    children: seq<Child>,
    startPull: seq<InterfaceState>,
    fed: nat,
    solutions: seq<Solution>,
    ends: seq<InterfaceState>)

  datatype Job = Job(child: nat, start: InterfaceState, request: nat)

  predicate Fits(setup: Setup, c: Container) {
    |c.children| == |setup.stages| && c.fed <= |c.startPull|
  }

  function FedAll(children: seq<Child>, pool: seq<InterfaceState>): (fed: seq<Child>)
    ensures |fed| == |children|
    ensures forall k :: 0 <= k < |fed| ==> fed[k] == children[k].(pull := PushAll(children[k].pull, pool))
  {
    seq(|children|, k requires 0 <= k < |children| => children[k].(pull := PushAll(children[k].pull, pool)))
  }

  function Feed(setup: Setup, c: Container): Container
    requires Fits(setup, c)
  {
    c.(fed := |c.startPull|, children := FedAll(c.children, c.startPull[c.fed..]))
  }

  /** The requests that can be built from delivered states; the others are dropped. */
  function JobsOf(stage: MotionStage, k: nat, pull: seq<InterfaceState>): (jobs: seq<Job>)
    ensures forall j :: j in jobs ==> j.child == k
  {
    if pull == [] then [] else
    var jobs, s := JobsOf(stage, k, pull[..|pull| - 1]), pull[|pull| - 1];
    if stage.build(s).None? then jobs else jobs + [Job(k, s, stage.build(s).value)]
  }

  function SolutionOf(stage: MotionStage, job: Job, result: Planned, end: InterfaceState): Solution {
    Solution(job.start, end, job.child, stage.price(result), result.trajectory, [], Request(job.request), [])
  }

  function Message(result: Planned): string {
    if result.message == "" then "plan failed" else result.message
  }

  /** What a result makes of the child it is for, and the solution it newly emits, if any. */
  function Committed(stage: MotionStage, child: Child, job: Job, result: Planned): (Child, seq<Solution>) {
    if !result.success then (child.(failures := child.failures + [Failure(job.start, Message(result))]), []) else
    var end := stage.finish(job.start, result);
    if end.None? then (child, []) else
    var s := SolutionOf(stage, job, result, end.value);
    var written := child.(ends := child.ends + [end.value]);
    if HasKeyPair(child.solutions, s.KeyPair()) then (written, [])
    else (written.(solutions := child.solutions + [s]), [s])
  }

  function LiftedOnto(own: int, solutions: seq<Solution>, emitted: seq<Solution>): seq<Solution> {
    if emitted == [] then solutions else EmitOnto(solutions, [LiftChild(emitted[0], own)])
  }

  function Commit(setup: Setup, c: Container, job: Job): Container
    requires Fits(setup, c) && job.child < |c.children|
  {
    var (child, emitted) := Committed(setup.stages[job.child], c.children[job.child], job, setup.plan(job.request));
    c.(children := c.children[job.child := child], solutions := LiftedOnto(setup.own, c.solutions, emitted))
  }

  predicate JobsFit(setup: Setup, jobs: seq<Job>) {
    forall k :: 0 <= k < |jobs| ==> jobs[k].child < |setup.stages|
  }

  function CommitAll(setup: Setup, c: Container, jobs: seq<Job>): (r: Container)
    requires Fits(setup, c) && JobsFit(setup, jobs)
    ensures Fits(setup, r)
  {
    if jobs == [] then c else Commit(setup, CommitAll(setup, c, jobs[..|jobs| - 1]), jobs[|jobs| - 1])
  }

  function Emptied(c: Container, k: nat): Container
    requires k < |c.children|
  {
    c.(children := c.children[k := c.children[k].(pull := [])])
  }

  function Propagated(c: Container, k: nat): Container
    requires k < |c.children|
  {
    c.(ends := PushAll(c.ends, c.children[k].ends))
  }

  // ---- one request after the other ----

  function RunChild(setup: Setup, c: Container, k: nat): (r: Container)
    requires Fits(setup, c) && k < |c.children|
    ensures Fits(setup, r)
  {
    if c.children[k].pull == [] then c else
    Propagated(CommitAll(setup, Emptied(c, k), JobsOf(setup.stages[k], k, c.children[k].pull)), k)
  }

  function Sequential(setup: Setup, c: Container, i: nat): (r: Container)
    requires Fits(setup, c) && i <= |c.children|
    ensures Fits(setup, r)
  {
    if i == 0 then c else RunChild(setup, Sequential(setup, c, i - 1), i - 1)
  }

  // ---- all in one batch ----

  /** Child `k` hands its requests in and its old written states are passed on. */
  function Deferred(setup: Setup, c: Container, k: nat): (r: (Container, seq<Job>))
    requires Fits(setup, c) && k < |c.children|
    ensures Fits(setup, r.0) && JobsFit(setup, r.1)
  {
    if c.children[k].pull == [] then (c, [])
    else (Propagated(Emptied(c, k), k), JobsOf(setup.stages[k], k, c.children[k].pull))
  }

  function Collected(setup: Setup, c: Container, i: nat): (r: (Container, seq<Job>))
    requires Fits(setup, c) && i <= |c.children|
    ensures Fits(setup, r.0) && JobsFit(setup, r.1)
  {
    if i == 0 then (c, []) else
    var (before, jobs) := Collected(setup, c, i - 1);
    var (after, more) := Deferred(setup, before, i - 1);
    (after, jobs + more)
  }

  function Batched(setup: Setup, c: Container): Container
    requires Fits(setup, c)
  {
    var (collected, jobs) := Collected(setup, c, |c.children|);
    CommitAll(setup, collected, jobs)
  }

  // ---- they give the same ----

  lemma {:induction false} CommitConcat(setup: Setup, c: Container, p: seq<Job>, q: seq<Job>)
    requires Fits(setup, c) && JobsFit(setup, p) && JobsFit(setup, q)
    ensures CommitAll(setup, c, p + q) == CommitAll(setup, CommitAll(setup, c, p), q)
  {
    if q == [] {
      assert p + q == p;
    } else {
      assert (p + q)[..|p + q| - 1] == p + q[..|q| - 1];
      CommitConcat(setup, c, p, q[..|q| - 1]);
    }
  }

  /** Committing neither looks at nor touches the container's written states. */
  lemma {:induction false} CommitIgnoresEnds(setup: Setup, c: Container, jobs: seq<Job>, ends: seq<InterfaceState>)
    requires Fits(setup, c) && JobsFit(setup, jobs)
    ensures CommitAll(setup, c.(ends := ends), jobs) == CommitAll(setup, c, jobs).(ends := ends)
    ensures CommitAll(setup, c, jobs).ends == c.ends
  {
    if jobs != [] {
      CommitIgnoresEnds(setup, c, jobs[..|jobs| - 1], ends);
    }
  }

  lemma CommittedIgnoresPull(stage: MotionStage, child: Child, job: Job, result: Planned)
    ensures Committed(stage, child.(pull := []), job, result).0 == Committed(stage, child, job, result).0.(pull := [])
    ensures Committed(stage, child.(pull := []), job, result).1 == Committed(stage, child, job, result).1
    ensures Committed(stage, child, job, result).0.pull == child.pull
  {
  }

  lemma CommitEmptied(setup: Setup, c: Container, job: Job, k: nat)
    requires Fits(setup, c) && job.child < |c.children| && k < |c.children|
    ensures Commit(setup, Emptied(c, k), job) == Emptied(Commit(setup, c, job), k)
    ensures Commit(setup, c, job).children[k].pull == c.children[k].pull
  {
    CommittedIgnoresPull(setup.stages[job.child], c.children[job.child], job, setup.plan(job.request));
    assert Commit(setup, Emptied(c, k), job).children == Emptied(Commit(setup, c, job), k).children;
  }

  /** Nor at the pulls. */
  lemma {:induction false} CommitAllEmptied(setup: Setup, c: Container, jobs: seq<Job>, k: nat)
    requires Fits(setup, c) && JobsFit(setup, jobs) && k < |c.children|
    ensures CommitAll(setup, Emptied(c, k), jobs) == Emptied(CommitAll(setup, c, jobs), k)
    ensures CommitAll(setup, c, jobs).children[k].pull == c.children[k].pull
  {
    if jobs != [] {
      var init := jobs[..|jobs| - 1];
      CommitAllEmptied(setup, c, init, k);
      CommitEmptied(setup, CommitAll(setup, c, init), jobs[|jobs| - 1], k);
    }
  }

  /** Everything but the container's written states. */
  function Core(c: Container): Container {
    c.(ends := [])
  }

  /** Committing what was collected gives `s`, up to the written states. */
  ghost predicate Agree(setup: Setup, r: (Container, seq<Job>), s: Container) {
    Fits(setup, r.0) && JobsFit(setup, r.1) && Fits(setup, s) && Core(CommitAll(setup, r.0, r.1)) == Core(s)
  }

  lemma NextCollected(setup: Setup, c: Container, i: nat)
    requires Fits(setup, c) && i < |c.children|
    ensures var r := Collected(setup, c, i);
            var d := Deferred(setup, r.0, i);
            Collected(setup, c, i + 1) == (d.0, r.1 + d.1)
  {
  }

  /** Collecting and the sequential pass agree up to child `i`. */
  ghost predicate AgreeAt(setup: Setup, c: Container, i: nat) {
    Fits(setup, c) && i <= |c.children| && Agree(setup, Collected(setup, c, i), Sequential(setup, c, i))
  }

  lemma AgreeAtFirst(setup: Setup, c: Container)
    requires Fits(setup, c)
    ensures AgreeAt(setup, c, 0)
  {
  }

  lemma AgreeNext(setup: Setup, c: Container, k: nat)
    requires AgreeAt(setup, c, k) && k < |c.children|
    ensures AgreeAt(setup, c, k + 1)
  {
    NextCollected(setup, c, k);
    NextSequential(setup, c, k);
    SameStep(setup, Collected(setup, c, k), Sequential(setup, c, k), k,
             Collected(setup, c, k + 1), Sequential(setup, c, k + 1));
  }

  lemma {:induction false} SameSoFar(setup: Setup, c: Container, i: nat)
    requires Fits(setup, c) && i <= |c.children|
    ensures AgreeAt(setup, c, i)
  {
    if i == 0 {
      AgreeAtFirst(setup, c);
    } else {
      SameSoFar(setup, c, i - 1);
      AgreeNext(setup, c, i - 1);
    }
  }

  lemma NextSequential(setup: Setup, c: Container, i: nat)
    requires Fits(setup, c) && i < |c.children|
    ensures i < |Sequential(setup, c, i).children|
    ensures Sequential(setup, c, i + 1) == RunChild(setup, Sequential(setup, c, i), i)
  {
  }

  /** Emptying child `k` and passing states on first changes nothing for the commits. */
  lemma {:induction false} CommitLater(setup: Setup, p: Container, jobs: seq<Job>, more: seq<Job>, k: nat,
                                       ends: seq<InterfaceState>)
    requires Fits(setup, p) && JobsFit(setup, jobs) && JobsFit(setup, more) && k < |p.children|
    ensures CommitAll(setup, Emptied(p, k).(ends := ends), jobs + more)
            == CommitAll(setup, Emptied(CommitAll(setup, p, jobs), k), more).(ends := ends)
  {
    var e := Emptied(p, k);
    CommitConcat(setup, e.(ends := ends), jobs, more);
    CommitIgnoresEnds(setup, e, jobs, ends);
    CommitAllEmptied(setup, p, jobs, k);
    CommitIgnoresEnds(setup, Emptied(CommitAll(setup, p, jobs), k), more, ends);
  }

  lemma RunCore(setup: Setup, d: Container, s: Container, k: nat)
    requires Fits(setup, d) && Fits(setup, s) && Core(d) == Core(s) && k < |s.children| && s.children[k].pull != []
    ensures Core(RunChild(setup, s, k))
            == Core(CommitAll(setup, Emptied(d, k), JobsOf(setup.stages[k], k, s.children[k].pull)))
  {
    assert d.children == Core(d).children == Core(s).children == s.children;
    assert Emptied(d, k).(ends := s.ends) == Emptied(s, k);
    CommitIgnoresEnds(setup, Emptied(d, k), JobsOf(setup.stages[k], k, s.children[k].pull), s.ends);
  }

  lemma SameStep(setup: Setup, r: (Container, seq<Job>), s: Container, k: nat,
                 r': (Container, seq<Job>), s': Container)
    requires Agree(setup, r, s) && k < |r.0.children| && k < |s.children|
    requires r' == (Deferred(setup, r.0, k).0, r.1 + Deferred(setup, r.0, k).1) && s' == RunChild(setup, s, k)
    ensures Agree(setup, r', s')
  {
    var (p, jobs) := r;
    var done := CommitAll(setup, p, jobs);
    CommitAllEmptied(setup, p, jobs, k);
    assert done.children == Core(done).children == Core(s).children == s.children;
    if p.children[k].pull == [] {
      assert jobs + [] == jobs;
    } else {
      CommitLater(setup, p, jobs, Deferred(setup, p, k).1, k, Deferred(setup, p, k).0.ends);
      RunCore(setup, done, s, k);
    }
  }

  /** When solving a batch gives each request the result it would have on its own: batching leaves
      every child with the same solutions, failures and written states, and the container with the
      same solutions, all in the same order. */
  lemma {:induction false} BatchingRefines(setup: Setup, c: Container)
    requires Fits(setup, c)
    ensures var b, s := Batched(setup, c), Sequential(setup, c, |c.children|);
            b.children == s.children && b.solutions == s.solutions
            && b.startPull == s.startPull && b.fed == s.fed
  {
    SameSoFar(setup, c, |c.children|);
    var b, s := Batched(setup, c), Sequential(setup, c, |c.children|);
    assert Core(b) == Core(s);
    assert Core(b).children == Core(s).children && Core(b).solutions == Core(s).solutions;
  }

  // ---- what a pass does to each child, and to the container ----

  /** A child after the results of its own jobs, by itself. */
  function Alone(setup: Setup, stage: MotionStage, child: Child, jobs: seq<Job>): Child {
    if jobs == [] then child else
    var job := jobs[|jobs| - 1];
    Committed(stage, Alone(setup, stage, child, jobs[..|jobs| - 1]), job, setup.plan(job.request)).0
  }

  lemma {:induction false} CommitsAreLocal(setup: Setup, c: Container, jobs: seq<Job>, k: nat, j: nat)
    requires Fits(setup, c) && JobsFit(setup, jobs) && k < |c.children| && j < |c.children|
    requires forall x :: x in jobs ==> x.child == k
    ensures CommitAll(setup, c, jobs).children[j]
            == if j == k then Alone(setup, setup.stages[k], c.children[k], jobs) else c.children[j]
  {
    if jobs != [] {
      assert jobs[|jobs| - 1] in jobs;
      CommitsAreLocal(setup, c, jobs[..|jobs| - 1], k, j);
    }
  }

  /** What a pass makes of one child. */
  function PassOf(setup: Setup, child: Child, k: nat): Child
    requires k < |setup.stages|
  {
    if child.pull == [] then child
    else Alone(setup, setup.stages[k], child.(pull := []), JobsOf(setup.stages[k], k, child.pull))
  }

  lemma RunChildIsLocal(setup: Setup, c: Container, k: nat, j: nat)
    requires Fits(setup, c) && k < |c.children| && j < |c.children|
    ensures RunChild(setup, c, k).children[j] == if j == k then PassOf(setup, c.children[k], k) else c.children[j]
  {
    if c.children[k].pull != [] {
      CommitsAreLocal(setup, Emptied(c, k), JobsOf(setup.stages[k], k, c.children[k].pull), k, j);
    }
  }

  lemma {:induction false} SequentialIsLocal(setup: Setup, c: Container, i: nat, j: nat, s: Container)
    requires Fits(setup, c) && i <= |c.children| && j < |c.children| && s == Sequential(setup, c, i)
    ensures j < |s.children|
    ensures s.children[j] == if j < i then PassOf(setup, c.children[j], j) else c.children[j]
  {
    if i > 0 {
      var before := Sequential(setup, c, i - 1);
      SequentialIsLocal(setup, c, i - 1, j, before);
      RunChildIsLocal(setup, before, i - 1, j);
    }
  }

  /** Batched or not, each child ends up as if it had been alone with its own requests. */
  lemma EachChildAlone(setup: Setup, c: Container, j: nat)
    requires Fits(setup, c) && j < |c.children|
    ensures j < |Batched(setup, c).children|
    ensures Batched(setup, c).children[j] == PassOf(setup, c.children[j], j)
  {
    BatchingRefines(setup, c);
    SequentialIsLocal(setup, c, |c.children|, j, Sequential(setup, c, |c.children|));
  }

  /** Every container solution is some child's, and every child solution's keys are held. */
  ghost predicate Lifts(own: int, children: seq<Child>, solutions: seq<Solution>) {
    && (forall s :: s in solutions ==> FromSomeChild(own, children, s))
    && forall k, s :: 0 <= k < |children| && s in children[k].solutions ==> HasKeyPair(solutions, s.KeyPair())
  }

  ghost predicate FromSomeChild(own: int, children: seq<Child>, s: Solution) {
    |s.children| == 1 && IsLift(own, s.children[0], s)
    && exists k :: 0 <= k < |children| && s.children[0] in children[k].solutions
  }

  /** A child's solutions only grow. */
  lemma CommittedGrows(stage: MotionStage, child: Child, job: Job, result: Planned)
    ensures var (after, emitted) := Committed(stage, child, job, result);
            after.solutions == child.solutions + emitted && |emitted| <= 1
  {
    assert child.solutions + [] == child.solutions;
  }

  lemma LiftedOntoHolds(own: int, solutions: seq<Solution>, s: Solution)
    ensures var r := LiftedOnto(own, solutions, [s]);
            && HasKeyPair(r, s.KeyPair()) && solutions <= r
            && forall t :: t in r ==> t in solutions || t == LiftChild(s, own)
  {
    var l := LiftChild(s, own);
    assert [l][..0] == [] && EmitOnto(solutions, []) == solutions;
    if !HasKeyPair(solutions, l.KeyPair()) {
      assert l in solutions + [l];
    }
  }

  lemma CommitLifts(setup: Setup, c: Container, job: Job)
    requires Fits(setup, c) && job.child < |c.children| && Lifts(setup.own, c.children, c.solutions)
    ensures Lifts(setup.own, Commit(setup, c, job).children, Commit(setup, c, job).solutions)
  {
    var k := job.child;
    var (child, emitted) := Committed(setup.stages[k], c.children[k], job, setup.plan(job.request));
    CommittedGrows(setup.stages[k], c.children[k], job, setup.plan(job.request));
    var after := c.children[k := child];
    var solutions := LiftedOnto(setup.own, c.solutions, emitted);
    if emitted != [] {
      LiftedOntoHolds(setup.own, c.solutions, emitted[0]);
      assert emitted == [emitted[0]];
    }
    forall s | s in c.solutions ensures FromSomeChild(setup.own, after, s) {
      GrownStillLifts(setup.own, c.children, k, child, s);
    }
    forall s | s in solutions ensures FromSomeChild(setup.own, after, s) {
      if s !in c.solutions {
        assert s == LiftChild(emitted[0], setup.own) && emitted[0] in after[k].solutions;
      }
    }
    forall j, s | 0 <= j < |after| && s in after[j].solutions ensures HasKeyPair(solutions, s.KeyPair()) {
      if s in c.children[j].solutions {
        assert HasKeyPair(c.solutions, s.KeyPair());
        KeyPairStays(c.solutions, solutions, s.KeyPair());
      }
    }
  }

  lemma KeyPairStays(before: seq<Solution>, after: seq<Solution>, k: (Key, Key))
    requires HasKeyPair(before, k) && before <= after
    ensures HasKeyPair(after, k)
  {
    var t :| t in before && t.KeyPair() == k;
    assert t in after;
  }

  lemma GrownStillLifts(own: int, children: seq<Child>, k: nat, child: Child, s: Solution)
    requires k < |children| && FromSomeChild(own, children, s) && children[k].solutions <= child.solutions
    ensures FromSomeChild(own, children[k := child], s)
  {
    var j :| 0 <= j < |children| && s.children[0] in children[j].solutions;
    assert s.children[0] in children[k := child][j].solutions;
  }

  lemma {:induction false} CommitAllLifts(setup: Setup, c: Container, jobs: seq<Job>)
    requires Fits(setup, c) && JobsFit(setup, jobs) && Lifts(setup.own, c.children, c.solutions)
    ensures Lifts(setup.own, CommitAll(setup, c, jobs).children, CommitAll(setup, c, jobs).solutions)
  {
    if jobs != [] {
      CommitAllLifts(setup, c, jobs[..|jobs| - 1]);
      CommitLifts(setup, CommitAll(setup, c, jobs[..|jobs| - 1]), jobs[|jobs| - 1]);
    }
  }

  lemma EmptiedLifts(own: int, c: Container, k: nat)
    requires k < |c.children| && Lifts(own, c.children, c.solutions)
    ensures Lifts(own, Emptied(c, k).children, c.solutions)
  {
    var e := Emptied(c, k).children;
    assert forall j :: 0 <= j < |e| ==> e[j].solutions == c.children[j].solutions;
    forall s | s in c.solutions ensures FromSomeChild(own, e, s) {
      var j :| 0 <= j < |c.children| && s.children[0] in c.children[j].solutions;
      assert s.children[0] in e[j].solutions;
    }
  }

  lemma {:induction false} SequentialLifts(setup: Setup, c: Container, i: nat)
    requires Fits(setup, c) && i <= |c.children| && Lifts(setup.own, c.children, c.solutions)
    ensures Lifts(setup.own, Sequential(setup, c, i).children, Sequential(setup, c, i).solutions)
  {
    if i > 0 {
      SequentialLifts(setup, c, i - 1);
      RunChildLifts(setup, Sequential(setup, c, i - 1), i - 1);
    }
  }

  lemma RunChildLifts(setup: Setup, c: Container, k: nat)
    requires Fits(setup, c) && k < |c.children| && Lifts(setup.own, c.children, c.solutions)
    ensures Lifts(setup.own, RunChild(setup, c, k).children, RunChild(setup, c, k).solutions)
  {
    if c.children[k].pull != [] {
      EmptiedLifts(setup.own, c, k);
      CommitAllLifts(setup, Emptied(c, k), JobsOf(setup.stages[k], k, c.children[k].pull));
    }
  }

  /** A pass keeps it that, up to keys, the container's solutions are its children's. */
  lemma EveryChildSolutionLifted(setup: Setup, c: Container)
    requires Fits(setup, c) && Lifts(setup.own, c.children, c.solutions)
    ensures Lifts(setup.own, Batched(setup, c).children, Batched(setup, c).solutions)
  {
    SequentialLifts(setup, c, |c.children|);
    BatchingRefines(setup, c);
  }

  // ---- what differs ----

  /** The written states of the children that run, as they were before the pass. */
  function OldEnds(c: Container, i: nat): seq<InterfaceState>
    requires i <= |c.children|
  {
    if i == 0 then c.ends else
    if c.children[i - 1].pull == [] then OldEnds(c, i - 1) else PushAll(OldEnds(c, i - 1), c.children[i - 1].ends)
  }

  /** The batch is solved after the written states are passed on, so none of the new ones is. */
  lemma {:induction false} CollectedEnds(setup: Setup, c: Container, i: nat)
    requires Fits(setup, c) && i <= |c.children|
    ensures var q := Collected(setup, c, i).0;
            q.ends == OldEnds(c, i)
            && forall k :: i <= k < |c.children| ==> q.children[k] == c.children[k]
  {
    if i > 0 {
      CollectedEnds(setup, c, i - 1);
    }
  }

  lemma BatchedEnds(setup: Setup, c: Container)
    requires Fits(setup, c)
    ensures Batched(setup, c).ends == OldEnds(c, |c.children|)
  {
    CollectedEnds(setup, c, |c.children|);
    var (q, jobs) := Collected(setup, c, |c.children|);
    CommitIgnoresEnds(setup, q, jobs, []);
  }

  /** A container with one child that has just been fed one state. */
  function OneState(s: InterfaceState): Container {
    Container([Child([s], [], [], [])], [s], 1, [], [])
  }

  lemma CommitOne(setup: Setup, c: Container, job: Job)
    requires Fits(setup, c) && job.child < |setup.stages|
    ensures CommitAll(setup, c, [job]) == Commit(setup, c, job)
  {
    assert [job][..0] == [];
    assert CommitAll(setup, c, []) == c;
  }

  lemma JobsOfOne(stage: MotionStage, s: InterfaceState)
    requires stage.build(s).Some?
    ensures JobsOf(stage, 0, [s]) == [Job(0, s, stage.build(s).value)]
  {
    assert [s][..0] == [];
  }

  lemma OneJob(setup: Setup, s: InterfaceState, end: InterfaceState, job: Job, done: Container)
    requires |setup.stages| == 1 && job.child == 0 && job.start == s && setup.plan(job.request).success
    requires setup.stages[0].finish(s, setup.plan(job.request)) == Some(end)
    requires done == CommitAll(setup, Emptied(OneState(s), 0), [job])
    ensures |done.children| == 1 && done.children[0].ends == [end] && done.ends == []
  {
    CommitOne(setup, Emptied(OneState(s), 0), job);
    assert [] + [end] == [end];
  }

  lemma OneBatched(setup: Setup, s: InterfaceState)
    requires |setup.stages| == 1
    ensures Batched(setup, OneState(s)).ends == []
  {
    var c := OneState(s);
    BatchedEnds(setup, c);
    assert OldEnds(c, 0) == [] && PushAll([], []) == [];
  }

  lemma OneRun(setup: Setup, s: InterfaceState, end: InterfaceState, job: Job)
    requires |setup.stages| == 1 && JobsOf(setup.stages[0], 0, [s]) == [job]
    requires job.child == 0 && job.start == s && setup.plan(job.request).success
    requires setup.stages[0].finish(s, setup.plan(job.request)) == Some(end)
    ensures RunChild(setup, OneState(s), 0).ends == [end]
  {
    var done := CommitAll(setup, Emptied(OneState(s), 0), [job]);
    OneJob(setup, s, end, job, done);
    assert RunChild(setup, OneState(s), 0) == Propagated(done, 0);
    assert [end][..0] == [] && PushAll([], [end]) == [end];
  }

  /** One child, one solvable state: its end reaches the container only without batching. */
  lemma BatchedEndsAreLost(stage: MotionStage, plan: nat -> Planned, s: InterfaceState, end: InterfaceState)
    requires stage.build(s).Some? && plan(stage.build(s).value).success
    requires stage.finish(s, plan(stage.build(s).value)) == Some(end)
    ensures var setup := Setup(0, [stage], plan);
            Batched(setup, OneState(s)).ends == [] && Sequential(setup, OneState(s), 1).ends == [end]
  {
    var setup := Setup(0, [stage], plan);
    OneBatched(setup, s);
    JobsOfOne(stage, s);
    OneRun(setup, s, end, Job(0, s, stage.build(s).value));
    AgreeAtFirst(setup, OneState(s));
    NextSequential(setup, OneState(s), 0);
  }
}
