/** The inverse-kinematics wrapper as an object around its child stage. */
module ComputeIkStages {
  import opened Interfaces
  import opened Search
  import opened Stages
  import opened Attempts
  import opened FallbackContainers
  import opened Candidates

  class ComputeIk {
    const setup: Setup
    const child: ChildStage
    var childSolutions: seq<Solution>
    var processed: nat
    var solutions: seq<Solution>
    var emittedKeys: set<(Key, Key)>
    var failures: seq<InterfaceState>
    var starts: seq<InterfaceState>
    var ends: seq<InterfaceState>

    constructor (setup: Setup, child: ChildStage)
      requires child.behaviour == setup.child && child.history == [] && child.Consistent()
      ensures this.setup == setup && this.child == child
      ensures Valid() && View() == IDLE
    {
      this.setup, this.child := setup, child;
      childSolutions, processed, solutions, emittedKeys, failures, starts, ends := [], 0, [], {}, [], [], [];
    }

    function View(): Wrapper
      reads this, child
    {
      Wrapper(child.history, childSolutions, processed, solutions, failures, starts, ends)
    }

    ghost predicate Valid()
      reads this, child
    {
      && child.behaviour == setup.child && child.Consistent() && processed <= |childSolutions|
      && forall k :: k in emittedKeys <==> HasKeyPair(solutions, k)
    }

    predicate CanComputeNow()
      reads this, child
      ensures child.behaviour == setup.child ==> CanComputeNow() == Candidates.CanCompute(setup, View())
    {
      child.CanCompute() || processed < |childSolutions|
    }

    method Emit(s: Solution)
      requires Valid()
      modifies `solutions, `emittedKeys
      ensures Valid() && solutions == EmitOnto(old(solutions), [s])
    {
      assert [s][..0] == [] && EmitOnto(solutions, []) == solutions;
      if s.KeyPair() !in emittedKeys {
        KeyPairsSnoc(solutions, s);
        emittedKeys := emittedKeys + {s.KeyPair()};
        solutions := solutions + [s];
      }
    }

    method ProcessNext()
      requires Valid() && processed < |childSolutions|
      modifies this
      ensures Valid() && View() == Processed(setup, old(View()))
      ensures childSolutions == old(childSolutions)
    {
      var candidate := childSolutions[processed];
      processed := processed + 1;
      match setup.solve(candidate)
      case NoPose =>
      case NoSolution => failures := failures + [candidate.start];
      case Solved(state) =>
        Emit(SolutionAt(setup.own, state));
        starts := PushKeyed(starts, state);
        ends := PushKeyed(ends, state);
    }

    /** Runs the child if it can, then works through the queue up to the limit. */
    method Compute()
      requires Valid()
      modifies this, child
      ensures Valid() && View() == Candidates.Compute(setup, old(View()))
    {
      if child.CanCompute() {
        var emitted := child.RunCompute();
        childSolutions := childSolutions + emitted;
      }
      ghost var ran := View();
      while processed < |childSolutions| && !(setup.limit != 0 && |solutions| >= setup.limit)
        invariant Valid() && Drained(setup, View()) == Drained(setup, ran)
        decreases |childSolutions| - processed
      {
        ProcessNext();
      }
    }
  }
}
