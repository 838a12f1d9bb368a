/** The fallbacks container as an object over its child stages. */
module FallbackContainers {
  import opened Interfaces
  import opened Solutions
  import opened Search
  import opened Stages
  import opened Attempts

  class ChildStage {
    const behaviour: Behaviour
    var history: History
    var solutions: seq<Solution>

    constructor (behaviour: Behaviour)
      ensures this.behaviour == behaviour && history == [] && Consistent()
    {
      this.behaviour, history, solutions := behaviour, [], [];
    }

    ghost predicate Consistent()
      reads this
    {
      solutions == Produced(behaviour, history)
    }

    predicate CanCompute()
      reads this
    {
      behaviour.can(history)
    }

    method Push(pool: seq<Event>)
      requires Consistent() && NeverRan(pool)
      modifies this
      ensures Consistent() && history == old(history) + pool
    {
      ProducedConcat(behaviour, history, pool);
      history := history + pool;
    }

    /** The new solutions go to the container. */
    method RunCompute() returns (emitted: seq<Solution>)
      requires Consistent()
      modifies this
      ensures Consistent() && history == old(history) + [Ran]
      ensures emitted == behaviour.emits(old(history))
    {
      ProducedNext(behaviour, history);
      emitted := behaviour.emits(history);
      history := history + [Ran];
      solutions := solutions + emitted;
    }
  }

  class Fallbacks {
    const ports: Ports
    const children: seq<ChildStage>
    var startPull: seq<InterfaceState>
    var endPull: seq<InterfaceState>
    var fedStart: nat
    var fedEnd: nat
    var current: Option<nat>
    var solutions: seq<Solution>
    var emittedKeys: set<(Key, Key)>
    var starts: seq<InterfaceState>
    var ends: seq<InterfaceState>

    constructor (ports: Ports, children: seq<ChildStage>)
      requires forall j, k :: 0 <= j < k < |children| ==> children[j] != children[k]
      requires forall c :: c in children ==> c.history == [] && c.Consistent()
      ensures this.ports == ports && this.children == children
      ensures Valid() && View() == Fresh(|children|)
    {
      this.ports, this.children := ports, children;
      startPull, endPull, fedStart, fedEnd := [], [], 0, 0;
      current, solutions, emittedKeys, starts, ends := Some(0), [], {}, [], [];
    }

    function Behaviours(): (bs: seq<Behaviour>)
      ensures |bs| == |children| && forall k :: 0 <= k < |bs| ==> bs[k] == children[k].behaviour
    {
      seq(|children|, k requires 0 <= k < |children| => children[k].behaviour)
    }

    function Histories(): (hs: seq<History>)
      reads children
      ensures |hs| == |children| && forall k :: 0 <= k < |hs| ==> hs[k] == children[k].history
    {
      seq(|children|, k requires 0 <= k < |children| reads children => children[k].history)
    }

    function View(): Bench
      reads this, children
    {
      Bench(startPull, endPull, fedStart, fedEnd, Histories(), current, solutions, emittedKeys, starts, ends)
    }

    ghost predicate Valid()
      reads this, children
    {
      && (forall j, k :: 0 <= j < k < |children| ==> children[j] != children[k])
      && (forall c :: c in children ==> c.Consistent())
      && WellShaped(Behaviours(), View())
    }

    method PushStart(state: InterfaceState)
      requires Valid()
      modifies this`startPull
      ensures Valid() && View() == Perform(Behaviours(), ports, old(View()), GiveStart(state))
    {
      startPull := PushKeyed(startPull, state);
    }

    method PushEnd(state: InterfaceState)
      requires Valid()
      modifies this`endPull
      ensures Valid() && View() == Perform(Behaviours(), ports, old(View()), GiveEnd(state))
    {
      endPull := PushKeyed(endPull, state);
    }

    method PushPool(pool: seq<Event>)
      requires Valid() && NeverRan(pool)
      modifies children
      ensures forall c :: c in children ==> c.Consistent()
      ensures Histories() == FedTo(old(Histories()), pool)
    {
      ghost var was := Histories();
      for i := 0 to |children|
        invariant forall c :: c in children ==> c.Consistent()
        invariant forall k :: 0 <= k < i ==> children[k].history == was[k] + pool
        invariant forall k :: i <= k < |children| ==> children[k].history == was[k]
      {
        children[i].Push(pool);
      }
    }

    method FeedAll()
      requires Valid()
      modifies this, children
      ensures Valid() && View() == Feed(ports, old(View()))
    {
      PoolNeverRan(ports, View());
      PushPool(Pool(ports, View()));
      fedStart, fedEnd := |startPull|, |endPull|;
    }

    method Lift(s: Solution)
      modifies this`solutions, this`emittedKeys
      ensures View() == Lifted(ports.own, old(View()), s)
    {
      if s.KeyPair() !in emittedKeys {
        emittedKeys := emittedKeys + {s.KeyPair()};
        solutions := solutions + [LiftChild(s, ports.own)];
      }
    }

    method LiftAll(more: seq<Solution>)
      modifies this`solutions, this`emittedKeys
      ensures View() == LiftedAll(ports.own, old(View()), more)
    {
      assert more[..0] == [];
      for i := 0 to |more|
        invariant View() == LiftedAll(ports.own, old(View()), more[..i])
      {
        Lift(more[i]);
        assert more[..i + 1][..i] == more[..i];
      }
      assert more[..|more|] == more;
    }

    static method PushWritten(target: seq<InterfaceState>, more: seq<InterfaceState>) returns (r: seq<InterfaceState>)
      ensures r == PushAll(target, more)
    {
      r := target;
      assert more[..0] == [];
      for i := 0 to |more|
        invariant r == PushAll(target, more[..i])
      {
        r := PushKeyed(r, more[i]);
        assert more[..i + 1][..i] == more[..i];
      }
      assert more[..|more|] == more;
    }

    method PropagateOutputs(k: nat)
      requires k < |children|
      modifies this`starts, this`ends
      ensures ends == if ports.end.write then PushAll(old(ends), children[k].behaviour.ends(children[k].history))
                      else old(ends)
      ensures starts == if ports.start.write
                        then PushAll(old(starts), children[k].behaviour.starts(children[k].history)) else old(starts)
    {
      if ports.end.write {
        ends := PushWritten(ends, children[k].behaviour.ends(children[k].history));
      }
      if ports.start.write {
        starts := PushWritten(starts, children[k].behaviour.starts(children[k].history));
      }
    }

    /** Child `k` computes and its solutions are lifted. */
    method RunAndLift(k: nat)
      requires Valid() && k < |children|
      modifies this`solutions, this`emittedKeys, children
      ensures Valid() && children[k].history == old(children[k].history) + [Ran]
      ensures View() == LiftedAll(ports.own, old(View()).(histories := RanAt(old(Histories()), k)),
                                  children[k].behaviour.emits(old(children[k].history)))
    {
      var emitted := children[k].RunCompute();
      assert Histories() == RanAt(old(Histories()), k);
      LiftAll(emitted);
    }

    method RunOne(k: nat)
      requires Valid() && k < |children|
      modifies this, children
      ensures Valid() && View() == RunChild(Behaviours(), ports, old(View()), k)
    {
      LiftedAllShape(ports.own, View().(histories := RanAt(Histories(), k)),
                     children[k].behaviour.emits(children[k].history));
      RunAndLift(k);
      PropagateOutputs(k);
    }

    /** Passes over the children that cannot compute. */
    method Advance()
      requires Valid() && current.Some?
      modifies this`current
      ensures current == Some(Next(Behaviours(), Histories(), old(current).value))
      ensures Valid()
    {
      ghost var bs, hs := Behaviours(), Histories();
      while current.value < |children| && !children[current.value].CanCompute()
        invariant current.Some? && current.value <= |children|
        invariant hs == Histories()
        invariant Next(bs, hs, old(current).value) == Next(bs, hs, current.value)
        decreases |children| - current.value
      {
        current := Some(current.value + 1);
      }
    }

    /** The child to try after child `k` ran: none once it has a solution. */
    method Following(k: nat) returns (next: Option<nat>)
      requires Valid() && k < |children|
      ensures next == After(Behaviours(), Histories(), k)
    {
      var child := children[k];
      assert child in children && child.Consistent();
      next := if child.solutions != [] then None else if !child.CanCompute() then Some(k + 1) else Some(k);
    }

    method RunCurrent(k: nat)
      requires Valid() && k < |children|
      modifies this, children
      ensures Valid() && View() == Tried(Behaviours(), ports, old(View()), k)
    {
      ComputeShape(Behaviours(), ports, View(), k);
      RunOne(k);
      assert View().histories == RanAt(old(Histories()), k);
      current := Following(k);
    }

    method TryNext()
      requires Valid() && current.Some?
      modifies this, children
      ensures Valid() && View() == Attempt(Behaviours(), ports, old(View()))
    {
      Advance();
      if current.value == |children| {
        current := None;
      } else {
        RunFrom(current.value, old(current));
      }
    }

    method RunFrom(k: nat, ghost was: Option<nat>)
      requires Valid() && k < |children|
      modifies this, children
      ensures Valid() && View() == Tried(Behaviours(), ports, old(View()).(current := was), k)
    {
      TriedIgnoresCurrent(Behaviours(), ports, View(), k, was);
      RunCurrent(k);
    }

    /** One pass: feed everybody, then run the first child that can compute. */
    method Compute()
      requires Valid()
      modifies this, children
      ensures Valid() && View() == Attempts.Compute(Behaviours(), ports, old(View()))
    {
      if solutions != [] {
        current := None;
        return;
      }
      FeedAll();
      if current.Some? {
        TryNext();
      }
    }

    method CanCompute() returns (can: bool)
      requires Valid()
      modifies this`current
      ensures Valid() && (View(), can) == Asked(Behaviours(), ports, old(View()))
    {
      if (ports.start.read && |startPull| > fedStart) || (ports.end.read && |endPull| > fedEnd) {
        return true;
      }
      if solutions != [] || current.None? || current.value >= |children| {
        current := None;
        return false;
      }
      return children[current.value].CanCompute();
    }
  }

  lemma ComputeShape(children: seq<Behaviour>, ports: Ports, b: Bench, k: nat)
    requires k < |children| == |b.histories|
    ensures RunChild(children, ports, b, k).histories == RanAt(b.histories, k)
  {
    LiftedAllShape(ports.own, b.(histories := RanAt(b.histories, k)), children[k].emits(b.histories[k]));
  }

  lemma {:induction false} LiftingIgnoresCurrent(own: int, b: Bench, more: seq<Solution>, other: Option<nat>)
    ensures LiftedAll(own, b.(current := other), more) == LiftedAll(own, b, more).(current := other)
  {
    if more != [] {
      LiftingIgnoresCurrent(own, b, more[..|more| - 1], other);
    }
  }

  lemma TriedIgnoresCurrent(children: seq<Behaviour>, ports: Ports, b: Bench, k: nat, other: Option<nat>)
    requires k < |children| == |b.histories|
    ensures Tried(children, ports, b.(current := other), k) == Tried(children, ports, b, k)
  {
    LiftingIgnoresCurrent(ports.own, b.(histories := RanAt(b.histories, k)), children[k].emits(b.histories[k]), other);
  }
}
