/** The part of a serial container that composes child solutions as they are emitted. */
module Composer {
  import opened Interfaces
  import opened Chains
  import opened ChainLemmas
  import opened Composition
  import opened Solutions

  function Lookup(m: map<InterfaceState, seq<Solution>>, x: InterfaceState): seq<Solution> {
    if x in m then m[x] else []
  }

  lemma OverNext(idx: seq<Solution>, pool: seq<Solution>, j: nat, d: Direction, lo: int, hi: int)
    requires lo <= hi && j < |pool|
    ensures TracesOver(idx, pool[..j + 1], d, lo, hi)
            == TracesOver(idx, pool[..j], d, lo, hi)
               + if lo <= pool[j].stage <= hi then ExtendAll(d, pool[j], TracesBeyond(idx, pool[j], d, lo, hi)) else []
  {
    assert pool[..j + 1][..j] == pool[..j];
  }

  lemma NoCombos(base: seq<Path>, incoming: seq<Path>, sol: Solution, outgoing: seq<Path>)
    ensures base + Combos(incoming[..0], sol, outgoing) == base
  {
  }

  lemma CombosNext(base: seq<Path>, incoming: seq<Path>, a: nat, sol: Solution, outgoing: seq<Path>)
    requires a < |incoming|
    ensures base + Combos(incoming[..a + 1], sol, outgoing)
            == base + Combos(incoming[..a], sol, outgoing) + Row(incoming[a], sol, outgoing)
  {
    assert incoming[..a + 1][..a] == incoming[..a];
  }

  lemma ArrivalsAre(n: nat, idx: seq<Solution>, sol: Solution, incoming: seq<Path>, outgoing: seq<Path>)
    requires idx != [] && idx[|idx| - 1] == sol
    requires incoming == Traces(idx, sol.start, Backward, 0, sol.stage - 1)
    requires outgoing == Traces(idx, sol.end, Forward, sol.stage + 1, n - 1)
    ensures Arrivals(n, idx) == Combos(incoming, sol, outgoing)
  {
  }

  lemma OfferedNext(n: nat, idx: seq<Solution>, sol: Solution)
    ensures Offered(n, idx + [sol]) == Offered(n, idx) + Arrivals(n, idx + [sol])
  {
    assert (idx + [sol])[..|idx|] == idx;
  }

  /** `table` files every solution of `idx` under its near state, in arrival order. */
  ghost predicate Files(table: map<InterfaceState, seq<Solution>>, idx: seq<Solution>, d: Direction) {
    forall x :: Lookup(table, x) == Pool(idx, d, x)
  }

  function File(table: map<InterfaceState, seq<Solution>>, x: InterfaceState, s: Solution)
    : map<InterfaceState, seq<Solution>>
  {
    table[x := Lookup(table, x) + [s]]
  }

  lemma FileAt(table: map<InterfaceState, seq<Solution>>, idx: seq<Solution>, d: Direction, s: Solution,
               x: InterfaceState)
    requires Lookup(table, x) == Pool(idx, d, x)
    ensures Near(d, s) != x ==> Lookup(File(table, Near(d, s), s), x) == Pool(idx + [s], d, x)
    ensures Near(d, s) == x ==> Lookup(File(table, x, s), x) == Pool(idx + [s], d, x)
  {
    assert (idx + [s])[..|idx|] == idx;
  }

  lemma FileKeeps(table: map<InterfaceState, seq<Solution>>, idx: seq<Solution>, d: Direction, s: Solution)
    requires Files(table, idx, d)
    ensures Files(File(table, Near(d, s), s), idx + [s], d)
  {
    forall x ensures Lookup(File(table, Near(d, s), s), x) == Pool(idx + [s], d, x) {
      FileAt(table, idx, d, s, x);
    }
  }

  ghost predicate Lifts(solutions: seq<Solution>, chains: seq<Path>, position: int) {
    && |solutions| == |chains|
    && forall i :: 0 <= i < |chains| ==> chains[i] != [] && solutions[i] == LiftChain(chains[i], position)
  }

  ghost function KeysOf(chains: seq<Path>): set<(Key, Key)> {
    set c | c in chains :: ChainKey(c)
  }

  lemma KeysOfSnoc(chains: seq<Path>, c: Path)
    ensures KeysOf(chains + [c]) == KeysOf(chains) + {ChainKey(c)}
    ensures KeyTaken(chains, c) <==> ChainKey(c) in KeysOf(chains)
  {
    assert c in chains + [c];
    assert forall k :: k in chains + [c] <==> k in chains || k == c;
  }

  class ChainComposer {
    const kinds: seq<InterfaceType>
    /** This container's place among its own siblings. */
    const position: int

    var byEnd: map<InterfaceState, seq<Solution>>
    var byStart: map<InterfaceState, seq<Solution>>
    var solutions: seq<Solution>
    var emittedKeys: set<(Key, Key)>
    /** Every child solution so far, in order of arrival. */
    ghost var indexed: seq<Solution>

    ghost predicate Indexing()
      reads this
    {
      Files(byEnd, indexed, Backward) && Files(byStart, indexed, Forward)
    }

    /** The container has kept what these offers leave after deduplication. */
    ghost predicate Kept(offers: seq<Path>)
      reads this
    {
      Lifts(solutions, Keep(offers), position) && emittedKeys == KeysOf(Keep(offers))
    }

    ghost predicate Valid()
      reads this
    {
      && kinds != [] && Wired(kinds) && Run(kinds, indexed)
      && Indexing() && Kept(Offered(|kinds|, indexed))
    }

    constructor (kinds: seq<InterfaceType>, position: int)
      requires kinds != [] && Wired(kinds)
      ensures Valid() && indexed == [] && this.kinds == kinds && this.position == position
    {
      this.kinds := kinds;
      this.position := position;
      byEnd, byStart := map[], map[];
      solutions, emittedKeys := [], {};
      indexed := [];
    }

    /** The recursive search through the two tables. */
    method FindPaths(x: InterfaceState, d: Direction, lo: int, hi: int) returns (paths: seq<Path>)
      requires Indexing()
      ensures paths == Traces(indexed, x, d, lo, hi)
      decreases if lo > hi then 0 else hi - lo + 1, 1
    {
      if lo > hi {
        return [[]];
      }
      var pool := Lookup(if d.Backward? then byEnd else byStart, x);
      assert pool == Pool(indexed, d, x);
      paths := [];
      for j := 0 to |pool|
        invariant paths == TracesOver(indexed, pool[..j], d, lo, hi)
      {
        OverNext(indexed, pool, j, d, lo, hi);
        if lo <= pool[j].stage <= hi {
          var rests := FindBeyond(pool[j], d, lo, hi);
          paths := paths + ExtendAll(d, pool[j], rests);
        }
      }
      assert pool[..|pool|] == pool;
    }

    /** The search goes on from the far side of `sol`. */
    method FindBeyond(sol: Solution, d: Direction, lo: int, hi: int) returns (rests: seq<Path>)
      requires Indexing() && lo <= sol.stage <= hi
      ensures rests == TracesBeyond(indexed, sol, d, lo, hi)
      decreases hi - lo + 1, 0
    {
      if d.Backward? {
        rests := FindPaths(sol.start, d, lo, sol.stage - 1);
      } else {
        rests := FindPaths(sol.end, d, sol.stage + 1, hi);
      }
    }

    /** Lifts one chain, unless a chain with the same key pair was lifted before. */
    method Lift(c: Path, ghost offers: seq<Path>)
      requires c != [] && Kept(offers)
      modifies `solutions, `emittedKeys
      ensures Kept(offers + [c])
    {
      assert (offers + [c])[..|offers|] == offers;
      var lifted := LiftChain(c, position);
      KeysOfSnoc(Keep(offers), c);
      if lifted.KeyPair() !in emittedKeys {
        emittedKeys := emittedKeys + {lifted.KeyPair()};
        solutions := solutions + [lifted];
      }
    }

    /** Files a child solution under its two states. */
    method Index(sol: Solution)
      requires Indexing()
      modifies `byEnd, `byStart, `indexed
      ensures Indexing() && indexed == old(indexed) + [sol]
    {
      FileKeeps(byEnd, indexed, Backward, sol);
      FileKeeps(byStart, indexed, Forward, sol);
      byEnd := File(byEnd, sol.end, sol);
      byStart := File(byStart, sol.start, sol);
      indexed := indexed + [sol];
    }

    /** Lifts one incoming path with every outgoing one. */
    method LiftRow(inc: Path, sol: Solution, outgoing: seq<Path>, ghost before: seq<Path>)
      requires Kept(before)
      modifies `solutions, `emittedKeys
      ensures Kept(before + Row(inc, sol, outgoing))
    {
      ghost var row := Row(inc, sol, outgoing);
      assert before + row[..0] == before;
      for b := 0 to |outgoing|
        invariant Kept(before + row[..b])
      {
        assert inc + [sol] + outgoing[b] == row[b];
        assert before + row[..b + 1] == before + row[..b] + [row[b]];
        Lift(inc + [sol] + outgoing[b], before + row[..b]);
      }
      assert row[..|row|] == row;
    }

    /** Lifts every combination of an incoming and an outgoing path. */
    method LiftAll(incoming: seq<Path>, sol: Solution, outgoing: seq<Path>, ghost base: seq<Path>,
                   ghost all: seq<Path>)
      requires Kept(base) && all == base + Combos(incoming, sol, outgoing)
      modifies `solutions, `emittedKeys
      ensures Kept(all)
    {
      ghost var offers := base;
      NoCombos(base, incoming, sol, outgoing);
      for a := 0 to |incoming|
        invariant Kept(offers) && offers == base + Combos(incoming[..a], sol, outgoing)
      {
        CombosNext(base, incoming, a, sol, outgoing);
        LiftRow(incoming[a], sol, outgoing, offers);
        offers := offers + Row(incoming[a], sol, outgoing);
      }
      assert incoming[..|incoming|] == incoming;
    }

    /** Finds and lifts the chains that the last arrival completes. */
    method Compose(sol: Solution, ghost base: seq<Path>, ghost all: seq<Path>)
      requires Indexing() && indexed != [] && indexed[|indexed| - 1] == sol && Kept(base)
      requires all == base + Arrivals(|kinds|, indexed)
      modifies `solutions, `emittedKeys
      ensures Kept(all)
    {
      var incoming := FindPaths(sol.start, Backward, 0, sol.stage - 1);
      var outgoing := FindPaths(sol.end, Forward, sol.stage + 1, |kinds| - 1);
      ArrivalsAre(|kinds|, indexed, sol, incoming, outgoing);
      LiftAll(incoming, sol, outgoing, base, all);
    }

    /** Called the moment a child emits `sol`. */
    method OnChildSolution(sol: Solution)
      requires Valid() && Run(kinds, indexed + [sol])
      modifies this
      ensures Valid() && indexed == old(indexed) + [sol]
    {
      ghost var base, all := Offered(|kinds|, indexed), Offered(|kinds|, indexed + [sol]);
      OfferedNext(|kinds|, indexed, sol);
      Index(sol);
      Compose(sol, base, all);
    }

    /** The solutions of one child computation, in the order of their emission. */
    method OnChildSolutions(sols: seq<Solution>)
      requires Valid() && Run(kinds, indexed + sols)
      modifies this
      ensures Valid() && indexed == old(indexed) + sols
    {
      for k := 0 to |sols|
        invariant Valid() && indexed == old(indexed) + sols[..k]
      {
        RunNext(kinds, old(indexed), sols, k);
        OnChildSolution(sols[k]);
      }
      assert sols[..|sols|] == sols;
    }
  }

  /** A solution the container holds is the lift of a full chain. */
  lemma HeldIsFull(c: ChainComposer, s: Solution)
    requires c.Valid() && s in c.solutions
    ensures FullChain(|c.kinds|, c.indexed, s.children) && s == LiftChain(s.children, c.position)
  {
    var kept := Keep(Offered(|c.kinds|, c.indexed));
    var i :| 0 <= i < |c.solutions| && c.solutions[i] == s;
    assert kept[i] in kept;
    KeptChainsAreFull(c.kinds, c.indexed, kept[i]);
  }

  /** The end keys of a full chain are those of a solution the container holds. */
  lemma FullIsHeld(c: ChainComposer, p: Path)
    requires c.Valid() && FullChain(|c.kinds|, c.indexed, p)
    ensures exists s :: s in c.solutions && s.KeyPair() == ChainKey(p)
  {
    var kept := Keep(Offered(|c.kinds|, c.indexed));
    FullChainsAreRepresented(|c.kinds|, c.indexed, p);
    var i :| 0 <= i < |kept| && ChainKey(kept[i]) == ChainKey(p);
    assert c.solutions[i] in c.solutions;
  }

  /** Whatever was composed so far: the container holds a solution exactly when the arrivals
      contain a full chain; each solution it holds is such a chain, and each full chain's
      endpoint keys are those of a solution it holds. */
  lemma ComposedExactly(c: ChainComposer)
    requires c.Valid()
    ensures forall s :: s in c.solutions ==>
              FullChain(|c.kinds|, c.indexed, s.children) && s == LiftChain(s.children, c.position)
    ensures forall p :: FullChain(|c.kinds|, c.indexed, p) ==>
              exists s :: s in c.solutions && s.KeyPair() == ChainKey(p)
  {
    forall s | s in c.solutions
      ensures FullChain(|c.kinds|, c.indexed, s.children) && s == LiftChain(s.children, c.position)
    {
      HeldIsFull(c, s);
    }
    forall p | FullChain(|c.kinds|, c.indexed, p)
      ensures exists s :: s in c.solutions && s.KeyPair() == ChainKey(p)
    {
      FullIsHeld(c, p);
    }
  }

  lemma FullIsComposed(idx: seq<Solution>, n: nat, s: Solution, position: int)
    requires n > 0 && FullChain(n, idx, s.children) && s == LiftChain(s.children, position)
    requires forall t :: t in idx ==> Composed(t)
    ensures Composed(s)
  {
    forall c | c in s.children ensures Composed(c) {
      var j :| 0 <= j < |s.children| && s.children[j] == c;
      assert s.children[j] in idx;
    }
  }

  /** Where the arrivals are built from leaves, so is what the container holds, and each solution it
      holds adds up from its own leaves. */
  lemma HeldAddsUp(c: ChainComposer)
    requires c.Valid() && forall s :: s in c.indexed ==> Composed(s)
    ensures forall s :: s in c.solutions ==>
              && Composed(s) && AddsUpTo(Leaves(s), s.start, s.end, s.cost, s.ops)
              && s.stage == c.position && s.request == NoRequest
  {
    forall s | s in c.solutions
      ensures Composed(s) && AddsUpTo(Leaves(s), s.start, s.end, s.cost, s.ops)
      ensures s.stage == c.position && s.request == NoRequest
    {
      HeldIsFull(c, s);
      FullIsComposed(c.indexed, |c.kinds|, s, c.position);
      FlattenAddsUp(s);
    }
  }
}
