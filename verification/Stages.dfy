/** The stages of a flat serial task as objects: pulls, written interfaces and emission. */
module Stages {
  import opened Interfaces
  import opened Chains
  import opened Search
  import opened SearchLemmas
  import opened Network

  /** Stage `i`, having emitted `mine`, may emit what it makes of the pulls `ss` and `es`. */
  ghost predicate Ready(kinds: seq<InterfaceType>, idx: seq<Solution>, i: nat, mine: seq<Solution>,
                        ss: seq<InterfaceState>, es: seq<InterfaceState>)
    requires i < |kinds|
  {
    && (forall t :: t in idx && t.stage == i ==> t in mine)
    && (forall t :: t in mine ==> Shaped(kinds, i, t))
    && (!kinds[i].WritesStart() ==> i > 0 && AllPublishedAtEnd(idx, i - 1, ss))
    && (!kinds[i].WritesEnd() ==> i + 1 < |kinds| && AllPublishedAtStart(idx, i + 1, es))
  }

  ghost predicate AllPublishedAtEnd(idx: seq<Solution>, i: nat, xs: seq<InterfaceState>) {
    forall x :: x in xs ==> x.writer == i && x.sides != AtStart && PublishedAtEnd(idx, i, x)
  }

  ghost predicate AllPublishedAtStart(idx: seq<Solution>, i: nat, xs: seq<InterfaceState>) {
    forall x :: x in xs ==> x.writer == i && x.sides != AtEnd && PublishedAtStart(idx, i, x)
  }

  ghost predicate Shaped(kinds: seq<InterfaceType>, i: nat, t: Solution)
    requires i < |kinds|
  {
    && t.stage == i && t.start.writer == StartWriter(kinds, i) && t.end.writer == EndWriter(kinds, i)
    && (kinds[i].Generator? ==> t.start == t.end)
  }

  lemma WorkShaped(p: Problem, idx: seq<Solution>, i: nat, mine: seq<Solution>,
                   ss: seq<InterfaceState>, es: seq<InterfaceState>, s: Solution)
    requires i < |p.kinds| && Ready(p.kinds, idx, i, mine, ss, es) && s in Work(p, i, ss, es)
    ensures Shaped(p.kinds, i, s)
  {
    WorkSteps(p, i, ss, es, s);
  }

  /** A new emission of a ready stage is one the container may compose. */
  lemma ReadyAdmissible(p: Problem, idx: seq<Solution>, i: nat, mine: seq<Solution>,
                        ss: seq<InterfaceState>, es: seq<InterfaceState>, s: Solution)
    requires i < |p.kinds| && Ready(p.kinds, idx, i, mine, ss, es)
    requires s in Work(p, i, ss, es) && !HasKeyPair(mine, s.KeyPair())
    ensures Admissible(p.kinds, idx, s)
  {
    WorkSteps(p, i, ss, es, s);
    WorkShaped(p, idx, i, mine, ss, es, s);
  }

  lemma ReadyStep(kinds: seq<InterfaceType>, idx: seq<Solution>, i: nat, mine: seq<Solution>,
                  ss: seq<InterfaceState>, es: seq<InterfaceState>, s: Solution)
    requires i < |kinds| && Ready(kinds, idx, i, mine, ss, es) && Shaped(kinds, i, s)
    ensures Ready(kinds, idx + [s], i, mine + [s], ss, es)
  {
    if !kinds[i].WritesStart() {
      forall x | x in ss ensures PublishedAtEnd(idx + [s], i - 1, x) {
        var t :| t in idx && t.stage == i - 1 && t.end == x;
        assert t in idx + [s];
      }
    }
    if !kinds[i].WritesEnd() {
      forall x | x in es ensures PublishedAtStart(idx + [s], i + 1, x) {
        var t :| t in idx && t.stage == i + 1 && t.start == x;
        assert t in idx + [s];
      }
    }
  }

  /** What sending one more solution does to the lists. */
  lemma SendEmits(sols: seq<Solution>, done: seq<Solution>, s: Solution)
    ensures EmitOnto(sols, done + [s]) ==
              if HasKeyPair(EmitOnto(sols, done), s.KeyPair()) then EmitOnto(sols, done) else EmitOnto(sols, done) + [s]
  {
    assert (done + [s])[..|done|] == done;
  }

  lemma SendWrites(kind: InterfaceType, xs: seq<InterfaceState>, done: seq<Solution>, s: Solution)
    ensures StartsAfter(kind, xs, done + [s]) ==
              if kind.WritesStart() then StartsAfter(kind, xs, done) + [s.start] else StartsAfter(kind, xs, done)
    ensures EndsAfter(kind, xs, done + [s]) ==
              if kind.WritesEnd() then EndsAfter(kind, xs, done) + [s.end] else EndsAfter(kind, xs, done)
  {
    assert StartsIn(done + [s]) == StartsIn(done) + [s.start];
    assert EndsIn(done + [s]) == EndsIn(done) + [s.end];
  }

  method PushKeyed(xs: seq<InterfaceState>, x: InterfaceState) returns (r: seq<InterfaceState>)
    ensures r == Push(xs, x)
  {
    for j := 0 to |xs|
      invariant forall k :: 0 <= k < j ==> xs[k].key != x.key
    {
      if xs[j].key == x.key {
        return xs;
      }
    }
    r := xs + [x];
  }

  lemma KeyPairsSnoc(sols: seq<Solution>, s: Solution)
    ensures forall k :: HasKeyPair(sols + [s], k) <==> HasKeyPair(sols, k) || k == s.KeyPair()
  {
    assert s in sols + [s];
    assert forall t :: t in sols + [s] <==> t in sols || t == s;
  }

  class Stage {
    const index: nat
    const kind: InterfaceType

    var startPull: seq<InterfaceState>
    var endPull: seq<InterfaceState>
    var starts: seq<InterfaceState>
    var ends: seq<InterfaceState>
    var solutions: seq<Solution>
    var emittedKeys: set<(Key, Key)>
    var computed: bool
    ghost var runs: nat
    ghost var attempts: seq<(InterfaceState, InterfaceState)>

    ghost function View(): StageView
      reads this
    {
      StageView(startPull, endPull, starts, ends, solutions, computed, runs, attempts)
    }

    ghost predicate Valid()
      reads this
    {
      forall k :: k in emittedKeys <==> HasKeyPair(solutions, k)
    }

    constructor (index: nat, kind: InterfaceType)
      ensures this.index == index && this.kind == kind
      ensures Valid() && View() == StageView([], [], [], [], [], false, 0, [])
    {
      this.index, this.kind := index, kind;
      startPull, endPull, starts, ends, solutions := [], [], [], [], [];
      emittedKeys, computed, runs, attempts := {}, false, 0, [];
    }

    method PushStart(x: InterfaceState)
      modifies `startPull
      ensures startPull == Push(old(startPull), x)
    {
      startPull := PushKeyed(startPull, x);
    }

    method PushEnd(x: InterfaceState)
      modifies `endPull
      ensures endPull == Push(old(endPull), x)
    {
      endPull := PushKeyed(endPull, x);
    }

    /** Keeps the solution unless its key pair was emitted before. */
    method Emit(sol: Solution)
      requires Valid()
      modifies `solutions, `emittedKeys
      ensures Valid()
      ensures solutions == if HasKeyPair(old(solutions), sol.KeyPair()) then old(solutions) else old(solutions) + [sol]
    {
      KeyPairsSnoc(solutions, sol);
      if sol.KeyPair() !in emittedKeys {
        emittedKeys := emittedKeys + {sol.KeyPair()};
        solutions := solutions + [sol];
      }
    }

    /** Since `was`, exactly `done` has been sent. */
    ghost predicate Sent(was: StageView, done: seq<Solution>)
      reads this
    {
      && Valid()
      && solutions == EmitOnto(was.solutions, done)
      && starts == StartsAfter(kind, was.starts, done)
      && ends == EndsAfter(kind, was.ends, done)
    }

    /** Writes the interfaces this kind of stage writes, then emits. */
    method Send(sol: Solution, ghost was: StageView, ghost done: seq<Solution>)
      requires Sent(was, done)
      modifies `starts, `ends, `solutions, `emittedKeys
      ensures Sent(was, done + [sol])
    {
      SendEmits(was.solutions, done, sol);
      SendWrites(kind, was.starts, done, sol);
      SendWrites(kind, was.ends, done, sol);
      if kind.WritesStart() {
        starts := starts + [sol.start];
      }
      if kind.WritesEnd() {
        ends := ends + [sol.end];
      }
      Emit(sol);
    }

    method Generate(p: Problem, ghost was: StageView)
      requires Sent(was, [])
      modifies `starts, `ends, `solutions, `emittedKeys
      ensures Sent(was, SpawnAll(index, p.generate(index)))
    {
      var ds := p.generate(index);
      for k := 0 to |ds|
        invariant Sent(was, SpawnAll(index, ds[..k]))
      {
        assert ds[..k + 1][..k] == ds[..k];
        Send(Spawned(index, ds[k]), was, SpawnAll(index, ds[..k]));
      }
      assert ds[..|ds|] == ds;
    }

    method ComputeForward(p: Problem, x: InterfaceState, ghost was: StageView, ghost done: seq<Solution>)
      requires Sent(was, done)
      modifies `starts, `ends, `solutions, `emittedKeys
      ensures Sent(was, done + ForwardEach(index, x, p.forward(index, x)))
    {
      var ds := p.forward(index, x);
      assert done + ForwardEach(index, x, ds[..0]) == done;
      for k := 0 to |ds|
        invariant Sent(was, done + ForwardEach(index, x, ds[..k]))
      {
        assert ds[..k + 1][..k] == ds[..k];
        var sol := SentForward(index, x, ds[k]);
        Send(sol, was, done + ForwardEach(index, x, ds[..k]));
        assert done + ForwardEach(index, x, ds[..k + 1]) == done + ForwardEach(index, x, ds[..k]) + [sol];
      }
      assert ds[..|ds|] == ds;
    }

    method ComputeBackward(p: Problem, x: InterfaceState, ghost was: StageView, ghost done: seq<Solution>)
      requires Sent(was, done)
      modifies `starts, `ends, `solutions, `emittedKeys
      ensures Sent(was, done + BackwardEach(index, x, p.backward(index, x)))
    {
      var ds := p.backward(index, x);
      assert done + BackwardEach(index, x, ds[..0]) == done;
      for k := 0 to |ds|
        invariant Sent(was, done + BackwardEach(index, x, ds[..k]))
      {
        assert ds[..k + 1][..k] == ds[..k];
        var sol := SentBackward(index, x, ds[k]);
        Send(sol, was, done + BackwardEach(index, x, ds[..k]));
        assert done + BackwardEach(index, x, ds[..k + 1]) == done + BackwardEach(index, x, ds[..k]) + [sol];
      }
      assert ds[..|ds|] == ds;
    }

    /** Tries to connect `s` with the next end. */
    method ConnectNext(p: Problem, s: InterfaceState, es: seq<InterfaceState>, k: nat, ghost was: StageView,
                       ghost done: seq<Solution>)
      requires k < |es| && Sent(was, done + ConnectEach(p, index, s, es[..k]))
      modifies `starts, `ends, `solutions, `emittedKeys, `attempts
      ensures Sent(was, done + ConnectEach(p, index, s, es[..k + 1]))
      ensures attempts == old(attempts) + [(s, es[k])]
    {
      assert es[..k + 1][..k] == es[..k];
      attempts := attempts + [(s, es[k])];
      ghost var sofar := done + ConnectEach(p, index, s, es[..k]);
      match p.connect(index, s, es[k]) {
        case None =>
          assert done + ConnectEach(p, index, s, es[..k + 1]) == sofar;
        case Some(m) =>
          var sol := Connected(index, s, es[k], m);
          Send(sol, was, sofar);
          assert done + ConnectEach(p, index, s, es[..k + 1]) == sofar + [sol];
      }
    }

    /** Tries to connect `s` with every end. */
    method ConnectAll(p: Problem, s: InterfaceState, es: seq<InterfaceState>, ghost was: StageView,
                      ghost done: seq<Solution>)
      requires Sent(was, done)
      modifies `starts, `ends, `solutions, `emittedKeys, `attempts
      ensures Sent(was, done + ConnectEach(p, index, s, es))
      ensures attempts == old(attempts) + PairsWith(s, es)
    {
      assert done + ConnectEach(p, index, s, es[..0]) == done;
      for k := 0 to |es|
        invariant Sent(was, done + ConnectEach(p, index, s, es[..k]))
        invariant attempts == old(attempts) + PairsWith(s, es)[..k]
      {
        ConnectNext(p, s, es, k, was, done);
      }
      assert es[..|es|] == es;
    }

    method ForwardAll(p: Problem, work: seq<InterfaceState>, ghost was: StageView)
      requires Sent(was, [])
      modifies `starts, `ends, `solutions, `emittedKeys
      ensures Sent(was, ForwardWork(p, index, work))
    {
      for j := 0 to |work|
        invariant Sent(was, ForwardWork(p, index, work[..j]))
      {
        assert work[..j + 1][..j] == work[..j];
        ComputeForward(p, work[j], was, ForwardWork(p, index, work[..j]));
      }
      assert work[..|work|] == work;
    }

    method BackwardAll(p: Problem, work: seq<InterfaceState>, ghost was: StageView)
      requires Sent(was, [])
      modifies `starts, `ends, `solutions, `emittedKeys
      ensures Sent(was, BackwardWork(p, index, work))
    {
      for j := 0 to |work|
        invariant Sent(was, BackwardWork(p, index, work[..j]))
      {
        assert work[..j + 1][..j] == work[..j];
        ComputeBackward(p, work[j], was, BackwardWork(p, index, work[..j]));
      }
      assert work[..|work|] == work;
    }

    method ConnectPairs(p: Problem, ss: seq<InterfaceState>, es: seq<InterfaceState>, ghost was: StageView)
      requires Sent(was, [])
      modifies `starts, `ends, `solutions, `emittedKeys, `attempts
      ensures Sent(was, ConnectWork(p, index, ss, es)) && attempts == old(attempts) + Product(ss, es)
    {
      for j := 0 to |ss|
        invariant Sent(was, ConnectWork(p, index, ss[..j], es))
        invariant attempts == old(attempts) + Product(ss[..j], es)
      {
        assert ss[..j + 1][..j] == ss[..j];
        ConnectAll(p, ss[j], es, was, ConnectWork(p, index, ss[..j], es));
      }
      assert ss[..|ss|] == ss;
    }

    method RunGenerator(p: Problem)
      requires Valid() && index < |p.kinds| && kind == p.kinds[index] && kind.Generator?
      modifies this
      ensures Valid() && View() == AfterRun(p, index, old(View()))
    {
      ghost var was := View();
      assert StartsAfter(kind, was.starts, []) == was.starts && EndsAfter(kind, was.ends, []) == was.ends;
      runs := runs + 1;
      computed := true;
      Generate(p, was);
    }

    method RunForward(p: Problem)
      requires Valid() && index < |p.kinds| && kind == p.kinds[index] && kind.PropagatorForward?
      modifies this
      ensures Valid() && View() == AfterRun(p, index, old(View()))
    {
      ghost var was := View();
      assert StartsAfter(kind, was.starts, []) == was.starts && EndsAfter(kind, was.ends, []) == was.ends;
      runs := runs + 1;
      var work := startPull;
      startPull := [];
      ForwardAll(p, work, was);
    }

    method RunBackward(p: Problem)
      requires Valid() && index < |p.kinds| && kind == p.kinds[index] && kind.PropagatorBackward?
      modifies this
      ensures Valid() && View() == AfterRun(p, index, old(View()))
    {
      ghost var was := View();
      assert StartsAfter(kind, was.starts, []) == was.starts && EndsAfter(kind, was.ends, []) == was.ends;
      runs := runs + 1;
      var work := endPull;
      endPull := [];
      BackwardAll(p, work, was);
    }

    method RunConnecting(p: Problem)
      requires Valid() && index < |p.kinds| && kind == p.kinds[index] && kind.Connecting?
      modifies this
      ensures Valid() && View() == AfterRun(p, index, old(View()))
    {
      ghost var was := View();
      assert StartsAfter(kind, was.starts, []) == was.starts && EndsAfter(kind, was.ends, []) == was.ends;
      runs := runs + 1;
      var ss, es := startPull, endPull;
      startPull, endPull := [], [];
      ConnectPairs(p, ss, es, was);
    }

    /** One computation of the stage on everything it has received. */
    method RunCompute(p: Problem)
      requires Valid() && index < |p.kinds| && kind == p.kinds[index]
      requires CanCompute(kind, View())
      modifies this
      ensures Valid() && View() == AfterRun(p, index, old(View()))
    {
      match kind {
        case Generator => RunGenerator(p);
        case PropagatorForward => RunForward(p);
        case PropagatorBackward => RunBackward(p);
        case Connecting => RunConnecting(p);
      }
    }
  }
}
