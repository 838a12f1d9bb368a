/** Playing back a solution: every leaf's scene operations, repeated ones skipped, then its motion. */
module Executor {
  import opened Interfaces
  import opened Solutions
  import opened Replay

  datatype Kind = AddKind | RemoveKind | AttachKind | DetachKind

  type OpKey = (Kind, string)

  /** Operations are told apart by kind and object name only. */
  function KeyOf(op: SceneOp): OpKey {
    match op
    case AddOp(name, _) => (AddKind, name)
    case RemoveOp(name) => (RemoveKind, name)
    case AttachOp(name) => (AttachKind, name)
    case DetachOp(name) => (DetachKind, name)
  }

  datatype Event = Did(op: SceneOp) | Drove(request: Request)

  /** Two operations count as the same exactly when they do the same to the same object; what is added does not
      matter. */
  lemma KeyOfExactly(a: SceneOp, b: SceneOp)
    ensures KeyOf(a) == KeyOf(b) <==>
            && a.name == b.name && (a.AddOp? <==> b.AddOp?) && (a.RemoveOp? <==> b.RemoveOp?)
            && (a.AttachOp? <==> b.AttachOp?) && (a.DetachOp? <==> b.DetachOp?)
  {
  }

  ghost predicate Seen(before: seq<SceneOp>, op: SceneOp) {
    exists k :: 0 <= k < |before| && KeyOf(before[k]) == KeyOf(op)
  }

  /** The operations of `ops` whose key occurs neither in `before` nor earlier in `ops`. */
  ghost function News(before: seq<SceneOp>, ops: seq<SceneOp>): seq<SceneOp> {
    if ops == [] then [] else
    var init, last := ops[..|ops| - 1], ops[|ops| - 1];
    News(before, init) + if Seen(before + init, last) then [] else [last]
  }

  ghost function Deduped(ops: seq<SceneOp>): seq<SceneOp> {
    News([], ops)
  }

  function Dids(ops: seq<SceneOp>): (events: seq<Event>)
    ensures |events| == |ops|
  {
    seq(|ops|, k requires 0 <= k < |ops| => Did(ops[k]))
  }

  function Drive(s: Solution): seq<Event> {
    if s.request == NoRequest then [] else [Drove(s.request)]
  }

  /** What playing the leaves back does, in order. */
  ghost function Script(leaves: seq<Solution>): seq<Event> {
    if leaves == [] then [] else
    var init, last := leaves[..|leaves| - 1], leaves[|leaves| - 1];
    Script(init) + Dids(News(ConcatOps(init), last.ops)) + Drive(last)
  }

  function Requests(leaves: seq<Solution>): seq<Request> {
    if leaves == [] then [] else
    var last := leaves[|leaves| - 1];
    Requests(leaves[..|leaves| - 1]) + if last.request == NoRequest then [] else [last.request]
  }

  /** The keys applied so far are those of `before`. */
  ghost predicate Recalls(applied: seq<OpKey>, before: seq<SceneOp>) {
    && (forall k :: 0 <= k < |before| ==> KeyOf(before[k]) in applied)
    && forall key :: key in applied ==> exists k :: 0 <= k < |before| && KeyOf(before[k]) == key
  }

  lemma RecallsNext(applied: seq<OpKey>, before: seq<SceneOp>, op: SceneOp)
    requires Recalls(applied, before)
    ensures KeyOf(op) in applied <==> Seen(before, op)
    ensures Recalls(if KeyOf(op) in applied then applied else applied + [KeyOf(op)], before + [op])
  {
    var next := if KeyOf(op) in applied then applied else applied + [KeyOf(op)];
    forall key | key in next ensures exists j :: 0 <= j < |before + [op]| && KeyOf((before + [op])[j]) == key {
      if key in applied {
        var k :| 0 <= k < |before| && KeyOf(before[k]) == key;
        assert (before + [op])[k] == before[k];
      } else {
        assert (before + [op])[|before|] == op;
      }
    }
  }

  class Robot {
    const backend: Backend
    var world: World
    var log: seq<Event>

    constructor (backend: Backend, objects: map<string, nat>)
      ensures this.backend == backend && world == World(objects, {}) && log == []
    {
      this.backend, world, log := backend, World(objects, {}), [];
    }

    method Perform(op: SceneOp)
      modifies this
      ensures world == Step(backend, old(world), op)
      ensures log == old(log) + [Did(op)]
    {
      world := Step(backend, world, op);
      log := log + [Did(op)];
    }

    method ExecuteRequest(request: Request)
      modifies this`log
      ensures log == old(log) + [Drove(request)]
    {
      log := log + [Drove(request)];
    }
  }

  class TaskExecutor {
    const robot: Robot
    var appliedOps: seq<OpKey>

    constructor (robot: Robot)
      ensures this.robot == robot && appliedOps == []
    {
      this.robot, appliedOps := robot, [];
    }

    ghost predicate Remembers(before: seq<SceneOp>)
      reads this
    {
      Recalls(appliedOps, before)
    }

    method ApplyOp(op: SceneOp, ghost before: seq<SceneOp>)
      requires Remembers(before)
      modifies this, robot
      ensures Remembers(before + [op])
      ensures robot.log == old(robot.log) + if Seen(before, op) then [] else [Did(op)]
      ensures robot.world == if Seen(before, op) then old(robot.world) else Step(robot.backend, old(robot.world), op)
    {
      var key := KeyOf(op);
      RecallsNext(appliedOps, before, op);
      if key in appliedOps {
        return;
      }
      appliedOps := appliedOps + [key];
      robot.Perform(op);
    }

    /** The first `i` operations of a leaf have been applied after those of `before`. */
    ghost predicate Applied(ops: seq<SceneOp>, i: nat, before: seq<SceneOp>, was: World, log: seq<Event>)
      reads this, robot
    {
      && i <= |ops| && Remembers(before + ops[..i])
      && robot.log == log + Dids(News(before, ops[..i]))
      && robot.world == RunOps(robot.backend, was, News(before, ops[..i]))
    }

    method ApplyNext(ops: seq<SceneOp>, i: nat, ghost before: seq<SceneOp>, ghost was: World, ghost log: seq<Event>)
      requires i < |ops| && Applied(ops, i, before, was, log)
      modifies this, robot
      ensures Applied(ops, i + 1, before, was, log)
    {
      ApplyOp(ops[i], before + ops[..i]);
      NextNews(robot.backend, was, before, ops, i);
      if !Seen(before + ops[..i], ops[i]) {
        RunOne(robot.backend, RunOps(robot.backend, was, News(before, ops[..i])), ops[i]);
      }
    }

    /** The operations of one leaf, after those of `before`. */
    method ApplyOps(ops: seq<SceneOp>, ghost before: seq<SceneOp>)
      requires Remembers(before)
      modifies this, robot
      ensures Remembers(before + ops)
      ensures robot.log == old(robot.log) + Dids(News(before, ops))
      ensures robot.world == RunOps(robot.backend, old(robot.world), News(before, ops))
    {
      assert before + ops[..0] == before && ops[..0] == [];
      for i := 0 to |ops|
        invariant Applied(ops, i, before, old(robot.world), old(robot.log))
      {
        ApplyNext(ops, i, before, old(robot.world), old(robot.log));
      }
      assert ops[..|ops|] == ops;
    }

    method PlayLeaf(leaf: Solution, ghost before: seq<SceneOp>) returns (results: seq<Request>)
      requires Remembers(before)
      modifies this, robot
      ensures Remembers(before + leaf.ops)
      ensures robot.log == old(robot.log) + Dids(News(before, leaf.ops)) + Drive(leaf)
      ensures robot.world == RunOps(robot.backend, old(robot.world), News(before, leaf.ops))
      ensures results == if leaf.request == NoRequest then [] else [leaf.request]
    {
      ApplyOps(leaf.ops, before);
      results := [];
      if leaf.request != NoRequest {
        robot.ExecuteRequest(leaf.request);
        results := [leaf.request];
      }
    }

    /** The first `i` leaves have been played, starting from `was`. */
    ghost predicate Played(leaves: seq<Solution>, i: nat, was: World, log: seq<Event>, results: seq<Request>)
      reads this, robot
    {
      && i <= |leaves|
      && Remembers(ConcatOps(leaves[..i]))
      && robot.log == log + Script(leaves[..i])
      && robot.world == RunOps(robot.backend, was, Deduped(ConcatOps(leaves[..i])))
      && results == Requests(leaves[..i])
    }

    method PlayNext(leaves: seq<Solution>, i: nat, ghost was: World, ghost log: seq<Event>, results: seq<Request>)
      returns (more: seq<Request>)
      requires i < |leaves| && Played(leaves, i, was, log, results)
      modifies this, robot
      ensures Played(leaves, i + 1, was, log, more)
    {
      var played := PlayLeaf(leaves[i], ConcatOps(leaves[..i]));
      more := results + played;
      NextLeaf(robot.backend, was, leaves, i);
      Regroup(log, Script(leaves[..i]), Dids(News(ConcatOps(leaves[..i]), leaves[i].ops)), Drive(leaves[i]));
    }

    /** Plays a solution back: the leaves in chain order, each one's new operations before its
        motion; operations already applied are skipped. */
    method Execute(sol: Solution) returns (results: seq<Request>)
      modifies this, robot
      ensures robot.log == old(robot.log) + Script(Leaves(sol))
      ensures robot.world == RunOps(robot.backend, old(robot.world), Deduped(ConcatOps(Leaves(sol))))
      ensures results == Requests(Leaves(sol))
    {
      appliedOps := [];
      results := [];
      var leaves := FlattenLeaves(sol);
      assert leaves[..0] == [];
      for i := 0 to |leaves|
        invariant Played(leaves, i, old(robot.world), old(robot.log), results)
      {
        results := PlayNext(leaves, i, old(robot.world), old(robot.log), results);
      }
      assert leaves[..|leaves|] == leaves;
    }
  }

  lemma Regroup<T>(a: seq<T>, b: seq<T>, c: seq<T>, d: seq<T>)
    ensures a + (b + c + d) == a + b + c + d
  {
  }

  lemma {:induction false} RunConcat(backend: Backend, w: World, p: seq<SceneOp>, q: seq<SceneOp>)
    ensures RunOps(backend, w, p + q) == RunOps(backend, RunOps(backend, w, p), q)
  {
    if q == [] {
      assert p + q == p;
    } else {
      assert (p + q)[..|p + q| - 1] == p + q[..|q| - 1];
      RunConcat(backend, w, p, q[..|q| - 1]);
    }
  }

  lemma NewsSnoc(before: seq<SceneOp>, ops: seq<SceneOp>, i: nat)
    requires i < |ops|
    ensures News(before, ops[..i + 1])
            == News(before, ops[..i]) + if Seen(before + ops[..i], ops[i]) then [] else [ops[i]]
    ensures before + ops[..i + 1] == before + ops[..i] + [ops[i]]
  {
    assert ops[..i + 1][..i] == ops[..i];
  }

  lemma DidsConcat(p: seq<SceneOp>, q: seq<SceneOp>)
    ensures Dids(p + q) == Dids(p) + Dids(q)
  {
  }

  lemma NextNews(backend: Backend, w: World, before: seq<SceneOp>, ops: seq<SceneOp>, i: nat)
    requires i < |ops|
    ensures var more := if Seen(before + ops[..i], ops[i]) then [] else [ops[i]];
            && Dids(News(before, ops[..i + 1])) == Dids(News(before, ops[..i])) + Dids(more)
            && RunOps(backend, w, News(before, ops[..i + 1]))
               == RunOps(backend, RunOps(backend, w, News(before, ops[..i])), more)
            && before + ops[..i + 1] == before + ops[..i] + [ops[i]]
  {
    var more := if Seen(before + ops[..i], ops[i]) then [] else [ops[i]];
    NewsSnoc(before, ops, i);
    RunConcat(backend, w, News(before, ops[..i]), more);
    DidsConcat(News(before, ops[..i]), more);
  }

  lemma {:induction false} NewsConcat(before: seq<SceneOp>, p: seq<SceneOp>, q: seq<SceneOp>)
    ensures News(before, p + q) == News(before, p) + News(before + p, q)
  {
    if q == [] {
      assert p + q == p;
    } else {
      var init := q[..|q| - 1];
      assert (p + q)[..|p + q| - 1] == p + init;
      NewsConcat(before, p, init);
      assert before + (p + init) == (before + p) + init;
    }
  }

  lemma NextLeaf(backend: Backend, w: World, leaves: seq<Solution>, i: nat)
    requires i < |leaves|
    ensures var before, ops := ConcatOps(leaves[..i]), leaves[i].ops;
            && ConcatOps(leaves[..i + 1]) == before + ops
            && Script(leaves[..i + 1]) == Script(leaves[..i]) + Dids(News(before, ops)) + Drive(leaves[i])
            && RunOps(backend, w, Deduped(before + ops))
               == RunOps(backend, RunOps(backend, w, Deduped(before)), News(before, ops))
            && Requests(leaves[..i + 1])
               == Requests(leaves[..i]) + if leaves[i].request == NoRequest then [] else [leaves[i].request]
  {
    assert leaves[..i + 1][..i] == leaves[..i];
    var before, ops := ConcatOps(leaves[..i]), leaves[i].ops;
    NewsConcat([], before, ops);
    assert [] + before == before;
    RunConcat(backend, w, Deduped(before), News(before, ops));
  }

  // ---- what the log of a playback holds ----

  /** The requests driven, in order. */
  function DrivesIn(events: seq<Event>): seq<Request> {
    if events == [] then [] else
    var last := events[|events| - 1];
    DrivesIn(events[..|events| - 1]) + if last.Drove? then [last.request] else []
  }

  /** The scene operations performed, in order. */
  function OpsIn(events: seq<Event>): seq<SceneOp> {
    if events == [] then [] else
    var last := events[|events| - 1];
    OpsIn(events[..|events| - 1]) + if last.Did? then [last.op] else []
  }

  lemma {:induction false} EventsConcat(a: seq<Event>, b: seq<Event>)
    ensures DrivesIn(a + b) == DrivesIn(a) + DrivesIn(b) && OpsIn(a + b) == OpsIn(a) + OpsIn(b)
  {
    if b == [] {
      assert a + b == a;
    } else {
      assert (a + b)[..|a + b| - 1] == a + b[..|b| - 1];
      EventsConcat(a, b[..|b| - 1]);
    }
  }

  lemma {:induction false} DidsOnly(ops: seq<SceneOp>)
    ensures DrivesIn(Dids(ops)) == [] && OpsIn(Dids(ops)) == ops
  {
    if ops != [] {
      assert Dids(ops)[..|ops| - 1] == Dids(ops[..|ops| - 1]);
      DidsOnly(ops[..|ops| - 1]);
    }
  }

  lemma NewsOn(before: seq<SceneOp>, ops: seq<SceneOp>)
    ensures Deduped(before + ops) == Deduped(before) + News(before, ops)
  {
    NewsConcat([], before, ops);
    assert [] + before == before;
  }

  /** The log up to the moment leaf `i` is to be driven. */
  ghost function ScriptBefore(leaves: seq<Solution>, i: nat): seq<Event>
    requires i < |leaves|
  {
    Script(leaves[..i]) + Dids(News(ConcatOps(leaves[..i]), leaves[i].ops))
  }

  /** The requests driven are exactly the leaves' requests in order, and the operations performed are theirs
      in order, the first of each kind and name. */
  lemma {:induction false} LogExactly(leaves: seq<Solution>)
    ensures DrivesIn(Script(leaves)) == Requests(leaves) && OpsIn(Script(leaves)) == Deduped(ConcatOps(leaves))
  {
    if leaves != [] {
      var init, last := leaves[..|leaves| - 1], leaves[|leaves| - 1];
      LogExactly(init);
      BeforeDrive(leaves, |leaves| - 1);
      EventsConcat(ScriptBefore(leaves, |leaves| - 1), Drive(last));
      assert leaves[..|leaves|] == leaves;
    }
  }

  lemma BeforeDrive(leaves: seq<Solution>, i: nat)
    requires i < |leaves| && DrivesIn(Script(leaves[..i])) == Requests(leaves[..i])
    requires OpsIn(Script(leaves[..i])) == Deduped(ConcatOps(leaves[..i]))
    ensures DrivesIn(ScriptBefore(leaves, i)) == Requests(leaves[..i])
    ensures OpsIn(ScriptBefore(leaves, i)) == Deduped(ConcatOps(leaves[..i + 1]))
  {
    var before, news := ConcatOps(leaves[..i]), News(ConcatOps(leaves[..i]), leaves[i].ops);
    EventsConcat(Script(leaves[..i]), Dids(news));
    DidsOnly(news);
    NewsOn(before, leaves[i].ops);
    assert leaves[..i + 1][..i] == leaves[..i];
    assert Requests(leaves[..i]) + [] == Requests(leaves[..i]);
  }

  /** When a leaf's request is driven, the requests of the leaves before it were, and all operations up to its
      own were performed; nothing later was. */
  lemma DrivenAfterOps(leaves: seq<Solution>, i: nat)
    requires i < |leaves| && leaves[i].request != NoRequest
    ensures Script(leaves[..i + 1]) == ScriptBefore(leaves, i) + [Drove(leaves[i].request)]
    ensures DrivesIn(ScriptBefore(leaves, i)) == Requests(leaves[..i])
    ensures OpsIn(ScriptBefore(leaves, i)) == Deduped(ConcatOps(leaves[..i + 1]))
  {
    LogExactly(leaves[..i]);
    BeforeDrive(leaves, i);
    assert leaves[..i + 1][..i] == leaves[..i];
  }

  // ---- when skipping does no harm ----

  ghost predicate NoRecurrence(ops: seq<SceneOp>) {
    forall j, k :: 0 <= j < k < |ops| ==> KeyOf(ops[j]) != KeyOf(ops[k])
  }

  lemma NoneSeen(init: seq<SceneOp>, last: SceneOp)
    requires NoRecurrence(init + [last])
    ensures NoRecurrence(init) && !Seen(init, last)
  {
    var ops := init + [last];
    assert forall k :: 0 <= k < |init| ==> init[k] == ops[k];
    assert ops[|init|] == last;
  }

  lemma DedupedSnoc(init: seq<SceneOp>, last: SceneOp)
    ensures Deduped(init + [last]) == Deduped(init) + if Seen(init, last) then [] else [last]
  {
    assert (init + [last])[..|init|] == init && [] + init == init;
  }

  lemma {:induction false} NothingSkipped(ops: seq<SceneOp>)
    requires NoRecurrence(ops)
    ensures Deduped(ops) == ops
  {
    if ops != [] {
      var init, last := ops[..|ops| - 1], ops[|ops| - 1];
      assert init + [last] == ops;
      NoneSeen(init, last);
      NothingSkipped(init);
      DedupedSnoc(init, last);
    }
  }

  /** Every skipped operation makes the playback shorter. */
  lemma {:induction false} SkippedOnes(ops: seq<SceneOp>)
    ensures |Deduped(ops)| <= |ops|
    ensures |Deduped(ops)| == |ops| ==> NoRecurrence(ops)
  {
    if ops != [] {
      var init, last := ops[..|ops| - 1], ops[|ops| - 1];
      assert init + [last] == ops;
      SkippedOnes(init);
      DedupedSnoc(init, last);
      if !Seen(init, last) && |Deduped(init)| == |init| {
        NotSeen(init, last);
      }
    }
  }

  lemma NotSeen(init: seq<SceneOp>, last: SceneOp)
    requires NoRecurrence(init) && !Seen(init, last)
    ensures NoRecurrence(init + [last])
  {
  }

  /** Nothing is skipped exactly when no (kind, name) pair recurs. */
  lemma NothingSkippedExactly(ops: seq<SceneOp>)
    ensures Deduped(ops) == ops <==> NoRecurrence(ops)
  {
    SkippedOnes(ops);
    if NoRecurrence(ops) {
      NothingSkipped(ops);
    }
  }

  /** The playback of a composed solution brings about its scene operations in full, whatever
      the world, when none recurs. */
  lemma {:induction false} PlaybackIsReplay(backend: Backend, w: World, sol: Solution)
    requires Composed(sol) && NoRecurrence(sol.ops)
    ensures RunOps(backend, w, Deduped(ConcatOps(Leaves(sol)))) == RunOps(backend, w, sol.ops)
  {
    FlattenAddsUp(sol);
    NothingSkippedExactly(sol.ops);
  }

  lemma PickedOnce(name: string)
    ensures Deduped([AttachOp(name), DetachOp(name), AttachOp(name)]) == [AttachOp(name), DetachOp(name)]
  {
    var p: seq<SceneOp> := [AttachOp(name)];
    var q := p + [DetachOp(name)];
    DedupedSnoc([], AttachOp(name));
    DedupedSnoc(p, DetachOp(name));
    DedupedSnoc(q, AttachOp(name));
    assert [] + p == p && Deduped([]) == [];
    assert q[0] == AttachOp(name);
    assert Seen(q, AttachOp(name)) && !Seen(p, DetachOp(name));
    assert q + [AttachOp(name)] == [AttachOp(name), DetachOp(name), AttachOp(name)];
  }

  lemma RunSnoc(backend: Backend, w: World, ops: seq<SceneOp>, op: SceneOp)
    ensures RunOps(backend, w, ops + [op]) == Step(backend, RunOps(backend, w, ops), op)
  {
    assert (ops + [op])[..|ops|] == ops;
  }

  lemma TwoOps(w: World, a: SceneOp, b: SceneOp)
    ensures RunOps(Overwriting, w, [a, b]) == Step(Overwriting, Step(Overwriting, w, a), b)
  {
    RunSnoc(Overwriting, w, [], a);
    RunSnoc(Overwriting, w, [] + [a], b);
    assert [] + [a] + [b] == [a, b];
  }

  lemma ThreeOps(w: World, a: SceneOp, b: SceneOp, c: SceneOp)
    ensures RunOps(Overwriting, w, [a, b, c])
            == Step(Overwriting, RunOps(Overwriting, w, [a, b]), c)
  {
    RunSnoc(Overwriting, w, [a, b], c);
    assert [a, b] + [c] == [a, b, c];
  }

  /** Picking up the same object a second time is skipped: it ends up not held. */
  lemma SecondPickIsSkipped(w: World, name: string)
    ensures var ops := [AttachOp(name), DetachOp(name), AttachOp(name)];
            && name in RunOps(Overwriting, w, ops).held
            && name !in RunOps(Overwriting, w, Deduped(ops)).held
  {
    PickedOnce(name);
    TwoOps(w, AttachOp(name), DetachOp(name));
    ThreeOps(w, AttachOp(name), DetachOp(name), AttachOp(name));
  }
}
