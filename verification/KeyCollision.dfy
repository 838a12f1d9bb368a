/** Why the planner's completeness needs keys that identify states: a task with a way through
    that the planner cannot find. */
module KeyCollision {
  import opened Interfaces
  import opened Chains
  import opened Search
  import opened SearchLemmas
  import opened Network

  const STILL := Motion(0.0, [], [], NoRequest)

  /** Two goal candidates; approached backward they give states with the same key, and only
      the second candidate can be continued. */
  function Collision(): Problem {
    Problem(
      [Generator, Connecting, PropagatorBackward, Generator, PropagatorForward],
      (i: nat) => if i == 0 then [Draft(0, 0, STILL)] else [Draft(1, 1, STILL), Draft(2, 2, STILL)],
      (i: nat, x: InterfaceState) => if x.key == 2 then [Draft(0, 4, STILL)] else [],
      (i: nat, y: InterfaceState) => [Draft(y.serial, 3, STILL)],
      (i: nat, x: InterfaceState, y: InterfaceState) => Some(STILL))
  }

  /** The approach start that wins the key, and the one that loses it. */
  const WINNER := InterfaceState(2, 1, 3, AtStart)
  const LOSER := InterfaceState(2, 2, 3, AtStart)
  const FIRST := InterfaceState(3, 1, 1, OnBoth)
  const SECOND := InterfaceState(3, 2, 2, OnBoth)

  lemma PushTwo(a: InterfaceState, b: InterfaceState)
    ensures PushAll([], [a, b]) == if a.key == b.key then [a] else [a, b]
  {
    assert [a, b][..1] == [a] && [a][..0] == [];
    assert PushAll([], [a]) == [a];
    assert a in [a];
  }

  lemma SpawnTwo(i: nat, d: Draft, e: Draft)
    ensures SpawnAll(i, [d, e]) == [Spawned(i, d), Spawned(i, e)]
  {
    assert [d, e][..1] == [d] && [d][..0] == [];
    assert SpawnAll(i, [d]) == [Spawned(i, d)];
  }

  lemma BackwardOne(i: nat, y: InterfaceState, d: Draft)
    ensures BackwardEach(i, y, [d]) == [SentBackward(i, y, d)]
  {
    assert [d][..0] == [];
  }

  lemma BackwardTwo(p: Problem, i: nat, a: InterfaceState, b: InterfaceState, d: Draft, e: Draft)
    requires p.backward(i, a) == [d] && p.backward(i, b) == [e]
    ensures BackwardWork(p, i, [a, b]) == [SentBackward(i, a, d), SentBackward(i, b, e)]
  {
    assert [a, b][..1] == [a] && [a][..0] == [];
    BackwardOne(i, a, d);
    BackwardOne(i, b, e);
    assert BackwardWork(p, i, [a]) == [SentBackward(i, a, d)];
  }

  lemma CandidatesFirst()
    ensures StartsOf(Collision(), 3) == [FIRST, SECOND]
  {
    SpawnTwo(3, Draft(1, 1, STILL), Draft(2, 2, STILL));
  }

  lemma OnlyWinnerDelivered()
    ensures InEnd(Collision(), 1) == [WINNER]
  {
    var p := Collision();
    CandidatesFirst();
    PushTwo(FIRST, SECOND);
    BackwardTwo(p, 2, FIRST, SECOND, Draft(1, 3, STILL), Draft(2, 3, STILL));
    assert StartsOf(p, 2) == [WINNER, LOSER];
    PushTwo(WINNER, LOSER);
  }

  /** From the delivered approach start no stage function leads to a goal. */
  lemma WinnerIsStuck(y: InterfaceState, z: InterfaceState, w: InterfaceState)
    requires Step(Collision(), 2, WINNER, y) && Step(Collision(), 3, y, z)
    ensures !Step(Collision(), 4, z, w)
  {
    var d :| d in Collision().backward(2, y) && WINNER == Made(2, AtStart, d);
    var e :| e in Collision().generate(3) && y == Made(3, OnBoth, e);
  }

  /** The task has a way through, and no way through survives deduplication. */
  lemma EqualKeysHideAWay()
    ensures Resolved(Collision().kinds) && Solvable(Collision()) && !Survives(Collision())
  {
    var p := Collision();
    var origin, goal := InterfaceState(0, 0, 0, OnBoth), InterfaceState(4, 0, 4, AtEnd);
    var xs := [origin, origin, LOSER, SECOND, SECOND, goal];
    assert Step(p, 0, xs[0], xs[1]) by { assert Draft(0, 0, STILL) in p.generate(0); }
    assert Step(p, 2, xs[2], xs[3]) by { assert Draft(2, 3, STILL) in p.backward(2, SECOND); }
    assert Step(p, 3, xs[3], xs[4]) by { assert Draft(2, 2, STILL) in p.generate(3); }
    assert Step(p, 4, xs[4], xs[5]) by { assert Draft(0, 4, STILL) in p.forward(4, SECOND); }
    assert CompleteChain(p, xs);
    forall c ensures !SurvivingChain(p, c) {
      NoSurvivor(c);
    }
  }

  lemma NoSurvivor(c: Path)
    ensures !SurvivingChain(Collision(), c)
  {
    var p := Collision();
    if SurvivingChain(p, c) {
      ConnectsToWinner(c[1]);
      forall i | 2 <= i < 5 ensures Step(p, i, c[i].start, c[i].end) {
        EmissionSteps(p, i, c[i]);
      }
      WinnerIsStuck(c[2].end, c[3].end, c[4].end);
    }
  }

  lemma ConnectsToWinner(t: Solution)
    requires t in Emissions(Collision(), 1)
    ensures t.end == WINNER
  {
    var p := Collision();
    OnlyWinnerDelivered();
    EmitMember(Work(p, 1, InStart(p, 1), InEnd(p, 1)), t);
    WorkSteps(p, 1, InStart(p, 1), InEnd(p, 1), t);
  }
}
