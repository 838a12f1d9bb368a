/** The alternatives container as an object over whole-task motion stages, with and without a
    batch session. */
module AlternativesContainers {
  import opened Interfaces
  import opened Search
  import opened Solutions
  import opened Stages
  import opened Batches

  /** A robot whose batched solve gives each request the result of solving it alone. */
  class Robot {
    const plan: nat -> Planned

    constructor (plan: nat -> Planned)
      ensures this.plan == plan
    {
      this.plan := plan;
    }

    method PlanBatch(requests: seq<nat>) returns (results: seq<Planned>)
      ensures |results| == |requests| && forall k :: 0 <= k < |results| ==> results[k] == plan(requests[k])
    {
      results := [];
      for i := 0 to |requests|
        invariant |results| == i && forall k :: 0 <= k < i ==> results[k] == plan(requests[k])
      {
        results := results + [plan(requests[i])];
      }
    }
  }

  /** A motion child. Only one of the whole-task kind hands its requests to a batch session; another
      one that plans its states one by one in its own pass differs in nothing else. */
  class TrajectoryStage {
    const index: nat
    const stage: MotionStage
    const wholeTask: bool
    var startPull: seq<InterfaceState>
    var ends: seq<InterfaceState>
    var solutions: seq<Solution>
    var failures: seq<Failure>
    var emittedKeys: set<(Key, Key)>
    var pending: seq<Job>

    constructor (index: nat, stage: MotionStage, wholeTask: bool)
      ensures this.index == index && this.stage == stage && this.wholeTask == wholeTask
      ensures Valid() && View() == Child([], [], [], [])
    {
      this.index, this.stage, this.wholeTask := index, stage, wholeTask;
      startPull, ends, solutions, failures, emittedKeys, pending := [], [], [], [], {}, [];
    }

    function View(): Child
      reads this
    {
      Child(startPull, ends, solutions, failures)
    }

    ghost predicate Valid()
      reads this
    {
      forall k :: k in emittedKeys <==> HasKeyPair(solutions, k)
    }

    method PushStarts(pool: seq<InterfaceState>)
      modifies `startPull
      ensures startPull == PushAll(old(startPull), pool)
    {
      assert pool[..0] == [];
      for i := 0 to |pool|
        invariant startPull == PushAll(old(startPull), pool[..i])
      {
        startPull := PushKeyed(startPull, pool[i]);
        assert pool[..i + 1][..i] == pool[..i];
      }
      assert pool[..|pool|] == pool;
    }

    /** Consumes the pull and keeps the requests that could be built. */
    method Prepare()
      modifies `startPull, `pending
      ensures startPull == [] && pending == JobsOf(stage, index, old(startPull))
    {
      var work := startPull;
      startPull, pending := [], [];
      assert work[..0] == [];
      for i := 0 to |work|
        invariant startPull == [] && pending == JobsOf(stage, index, work[..i])
      {
        var req := stage.build(work[i]);
        if req.Some? {
          pending := pending + [Job(index, work[i], req.value)];
        }
        assert work[..i + 1][..i] == work[..i];
      }
      assert work[..|work|] == work;
    }

    /** The newly emitted solution, if any, goes to the container. */
    method CommitResult(job: Job, result: Planned) returns (emitted: seq<Solution>)
      requires Valid()
      modifies `ends, `solutions, `failures, `emittedKeys
      ensures Valid() && (View(), emitted) == Committed(stage, old(View()), job, result)
    {
      emitted := [];
      if !result.success {
        failures := failures + [Failure(job.start, Message(result))];
        return;
      }
      var end := stage.finish(job.start, result);
      if end.Some? {
        ends := ends + [end.value];
        var s := SolutionOf(stage, job, result, end.value);
        if s.KeyPair() !in emittedKeys {
          KeyPairsSnoc(solutions, s);
          emittedKeys := emittedKeys + {s.KeyPair()};
          solutions := solutions + [s];
          emitted := [s];
        }
      }
    }
  }

  /** The requests of several stages, solved in one call. */
  class BatchSession {
    var jobs: seq<Job>

    constructor ()
      ensures jobs == []
    {
      jobs := [];
    }

    method Defer(more: seq<Job>)
      modifies this
      ensures jobs == old(jobs) + more
    {
      jobs := jobs + more;
    }
  }

  class Alternatives {
    const setup: Setup
    const robot: Robot
    const children: seq<TrajectoryStage>
    var startPull: seq<InterfaceState>
    var fed: nat
    var solutions: seq<Solution>
    var emittedKeys: set<(Key, Key)>
    var ends: seq<InterfaceState>

    constructor (setup: Setup, robot: Robot, children: seq<TrajectoryStage>)
      requires |children| == |setup.stages| && robot.plan == setup.plan
      requires forall k :: 0 <= k < |children| ==>
                 children[k].index == k && children[k].stage == setup.stages[k] && children[k].Valid()
      ensures this.setup == setup && this.robot == robot && this.children == children
      ensures Valid() && View() == Container(Views(), [], 0, [], [])
    {
      this.setup, this.robot, this.children := setup, robot, children;
      startPull, fed, solutions, emittedKeys, ends := [], 0, [], {}, [];
    }

    function Views(): (views: seq<Child>)
      reads children
      ensures |views| == |children| && forall k :: 0 <= k < |views| ==> views[k] == children[k].View()
    {
      seq(|children|, k requires 0 <= k < |children| reads children => children[k].View())
    }

    function View(): Container
      reads this, children
    {
      Container(Views(), startPull, fed, solutions, ends)
    }

    ghost predicate Numbered() {
      && |children| == |setup.stages| && robot.plan == setup.plan
      && forall k :: 0 <= k < |children| ==> children[k].index == k && children[k].stage == setup.stages[k]
    }

    ghost predicate ChildrenValid()
      reads children
    {
      forall k :: 0 <= k < |children| ==> children[k].Valid()
    }

    ghost predicate Valid()
      reads this, children
    {
      && Numbered() && ChildrenValid() && fed <= |startPull|
      && forall k :: k in emittedKeys <==> HasKeyPair(solutions, k)
    }

    method PushStart(s: InterfaceState)
      requires Valid()
      modifies `startPull
      ensures Valid() && View() == old(View()).(startPull := Push(old(startPull), s))
    {
      startPull := PushKeyed(startPull, s);
    }

    method FeedChildren(pool: seq<InterfaceState>)
      requires Numbered() && ChildrenValid()
      modifies children
      ensures ChildrenValid() && Views() == FedAll(old(Views()), pool)
    {
      ghost var was := Views();
      for i := 0 to |children|
        invariant ChildrenValid()
        invariant forall k :: 0 <= k < i ==> children[k].View() == was[k].(pull := PushAll(was[k].pull, pool))
        invariant forall k :: i <= k < |children| ==> children[k].View() == was[k]
      {
        children[i].PushStarts(pool);
      }
    }

    method FeedAll()
      requires Valid()
      modifies this, children
      ensures Valid() && View() == Feed(setup, old(View()))
    {
      FeedChildren(startPull[fed..]);
      fed := |startPull|;
    }

    /** The container's solution for a newly emitted child solution. */
    method LiftChildSolution(emitted: seq<Solution>)
      requires Valid()
      modifies `solutions, `emittedKeys
      ensures Valid() && solutions == LiftedOnto(setup.own, old(solutions), emitted)
    {
      if emitted != [] {
        var s := LiftChild(emitted[0], setup.own);
        assert [s][..0] == [] && EmitOnto(solutions, []) == solutions;
        if s.KeyPair() !in emittedKeys {
          KeyPairsSnoc(solutions, s);
          emittedKeys := emittedKeys + {s.KeyPair()};
          solutions := solutions + [s];
        }
      }
    }

    method CommitJob(job: Job, result: Planned)
      requires Valid() && job.child < |children| && result == setup.plan(job.request)
      modifies this, children
      ensures Valid() && View() == Commit(setup, old(View()), job)
    {
      ghost var was := Views();
      var emitted := children[job.child].CommitResult(job, result);
      assert Views() == was[job.child := children[job.child].View()];
      LiftChildSolution(emitted);
    }

    method CommitJobs(jobs: seq<Job>, results: seq<Planned>)
      requires Valid() && JobsFit(setup, jobs) && |results| == |jobs|
      requires forall k :: 0 <= k < |jobs| ==> results[k] == setup.plan(jobs[k].request)
      modifies this, children
      ensures Valid() && View() == CommitAll(setup, old(View()), jobs)
    {
      assert jobs[..0] == [];
      for i := 0 to |jobs|
        invariant Valid() && View() == CommitAll(setup, old(View()), jobs[..i])
      {
        assert jobs[..i + 1][..i] == jobs[..i];
        CommitJob(jobs[i], results[i]);
      }
      assert jobs[..|jobs|] == jobs;
    }

    /** Without a session every pending request is solved on its own. */
    method SolvePending(jobs: seq<Job>)
      requires Valid() && JobsFit(setup, jobs)
      modifies this, children
      ensures Valid() && View() == CommitAll(setup, old(View()), jobs)
    {
      assert jobs[..0] == [];
      for i := 0 to |jobs|
        invariant Valid() && View() == CommitAll(setup, old(View()), jobs[..i])
      {
        assert jobs[..i + 1][..i] == jobs[..i];
        CommitJob(jobs[i], robot.plan(jobs[i].request));
      }
      assert jobs[..|jobs|] == jobs;
    }

    method PropagateOutputs(k: nat)
      requires k < |children|
      modifies `ends
      ensures View() == Propagated(old(View()), k)
    {
      var more := children[k].ends;
      assert more[..0] == [];
      for i := 0 to |more|
        invariant ends == PushAll(old(ends), more[..i])
      {
        ends := PushKeyed(ends, more[i]);
        assert more[..i + 1][..i] == more[..i];
      }
      assert more[..|more|] == more;
    }

    method PrepareChild(k: nat) returns (jobs: seq<Job>)
      requires Valid() && k < |children|
      modifies children[k]
      ensures Valid() && View() == Emptied(old(View()), k)
      ensures jobs == JobsOf(setup.stages[k], k, old(children[k].startPull))
      ensures JobsFit(setup, jobs)
    {
      ghost var was := Views();
      children[k].Prepare();
      jobs := children[k].pending;
      assert Views() == was[k := children[k].View()];
      forall j | 0 <= j < |jobs| ensures jobs[j].child == k {
        assert jobs[j] in jobs;
      }
    }

    method RunAlone(k: nat)
      requires Valid() && k < |children|
      modifies this, children
      ensures Valid() && View() == RunChild(setup, old(View()), k)
    {
      if children[k].startPull != [] {
        var jobs := PrepareChild(k);
        SolvePending(jobs);
        PropagateOutputs(k);
      }
    }

    method RunDeferred(k: nat) returns (jobs: seq<Job>)
      requires Valid() && k < |children|
      modifies this, children
      ensures Valid() && (View(), jobs) == Deferred(setup, old(View()), k)
    {
      jobs := [];
      if children[k].startPull != [] {
        jobs := PrepareChild(k);
        PropagateOutputs(k);
      }
    }

    method Flush(session: BatchSession)
      requires Valid() && JobsFit(setup, session.jobs)
      modifies this, children
      ensures Valid() && View() == CommitAll(setup, old(View()), old(session.jobs))
    {
      var jobs := session.jobs;
      var results := robot.PlanBatch(seq(|jobs|, k requires 0 <= k < |jobs| => jobs[k].request));
      CommitJobs(jobs, results);
    }

    /** The container is valid and looks like `now`. */
    ghost predicate Is(now: Container)
      reads this, children
    {
      && Valid() && |now.children| == |children|
      && (forall k :: 0 <= k < |children| ==> children[k].View() == now.children[k])
      && startPull == now.startPull && fed == now.fed && solutions == now.solutions && ends == now.ends
    }

    lemma IsView(now: Container)
      requires Valid()
      ensures Is(now) <==> View() == now
    {
      if Is(now) {
        assert Views() == now.children;
      }
    }

    method RunNextAlone(ghost now: Container, i: nat)
      requires Is(now) && i < |children| && Batches.Fits(setup, now) && |now.children| == |children|
      modifies this, children
      ensures Is(RunChild(setup, now, i))
    {
      IsView(now);
      RunAlone(i);
      IsView(RunChild(setup, now, i));
    }

    method RunAllAlone(ghost was: Container) returns (ghost now: Container)
      requires Is(was) && Batches.Fits(setup, was)
      modifies this, children
      ensures Is(now) && now == Sequential(setup, was, |was.children|)
    {
      now := was;
      for i := 0 to |children|
        invariant |was.children| == |children| && Is(now) && now == Sequential(setup, was, i)
      {
        RunNextAlone(now, i);
        now := RunChild(setup, now, i);
      }
    }

    /** The container looks like `r.0` and the session holds `r.1`. */
    ghost predicate Holds(r: (Container, seq<Job>), session: BatchSession)
      reads this, children, session
    {
      Is(r.0) && session.jobs == r.1 && Batches.Fits(setup, r.0) && |r.0.children| == |children|
    }

    method RunNextDeferred(i: nat, session: BatchSession, ghost r: (Container, seq<Job>),
                           ghost next: (Container, seq<Job>))
      requires Holds(r, session) && i < |children|
      requires next == (Deferred(setup, r.0, i).0, r.1 + Deferred(setup, r.0, i).1)
      modifies this, children, session
      ensures Holds(next, session)
    {
      IsView(r.0);
      var jobs := RunDeferred(i);
      session.Defer(jobs);
      IsView(next.0);
    }

    method RunAllDeferred(session: BatchSession, ghost was: Container) returns (ghost r: (Container, seq<Job>))
      requires Batches.Fits(setup, was) && Holds((was, []), session)
      modifies this, children, session
      ensures Holds(r, session) && r == Collected(setup, was, |was.children|)
    {
      r := (was, []);
      for i := 0 to |children|
        invariant Holds(r, session) && |was.children| == |children|
        invariant r == Collected(setup, was, i)
      {
        ghost var next := Collected(setup, was, i + 1);
        NextCollected(setup, was, i);
        RunNextDeferred(i, session, r, next);
        r := next;
      }
    }

    method RunBatched(ghost was: Container)
      requires Valid() && was == View()
      modifies this, children
      ensures Valid() && View() == Batched(setup, was)
    {
      var session := new BatchSession();
      IsView(was);
      ghost var r := RunAllDeferred(session, was);
      IsView(r.0);
      Flush(session);
    }

    method RunUnbatched(ghost was: Container)
      requires Valid() && was == View()
      modifies this, children
      ensures Valid() && View() == Sequential(setup, was, |was.children|)
    {
      IsView(was);
      ghost var now := RunAllAlone(was);
      IsView(now);
    }

    predicate AllMotionChildren() {
      children != [] && forall k :: 0 <= k < |children| ==> children[k].wholeTask
    }

    /** One pass; with a session when every child is a whole-task motion stage. */
    method Compute()
      requires Valid()
      modifies this, children
      ensures Valid()
      ensures View() == if children != [] && forall k :: 0 <= k < |children| ==> children[k].wholeTask
                        then Batched(setup, Feed(setup, old(View())))
                        else Sequential(setup, Feed(setup, old(View())), |children|)
    {
      FeedAll();
      if AllMotionChildren() {
        RunBatched(View());
      } else {
        RunUnbatched(View());
      }
    }
  }
}
