/** A serial container as a child of another one: what it emits is again what a container may
    compose, although it shows states at its ends before it has solutions that use them. */
module Nesting {
  import opened Interfaces
  import opened Chains
  import opened ChainLemmas
  import opened Composition

  /** The two ends of a chain. */
  function First(c: Path): InterfaceState
    requires c != []
  {
    c[0].start
  }

  function Last(c: Path): InterfaceState
    requires c != []
  {
    c[|c| - 1].end
  }

  lemma ChainSource(kinds: seq<InterfaceType>, idx: seq<Solution>, c: Path)
    requires kinds != [] && Run(kinds, idx) && FullChain(|kinds|, idx, c)
    ensures First(c).writer == StartWriter(kinds, 0) && Last(c).writer == EndWriter(kinds, |kinds| - 1)
  {
    assert c[0] in idx && c[|c| - 1] in idx;
    var q := RunAt(kinds, idx, c[0]);
    var r := RunAt(kinds, idx, c[|c| - 1]);
  }

  /** Where one chain starts in the state another one ends in, the container has a single child and
      both chains are zero-length: the discipline of a child's solutions holds one level up. */
  lemma LiftedZeroLength(kinds: seq<InterfaceType>, idx: seq<Solution>, c: Path, d: Path)
    requires kinds != [] && Run(kinds, idx) && FullChain(|kinds|, idx, c) && FullChain(|kinds|, idx, d)
    requires First(c) == Last(d)
    ensures |kinds| == 1 && First(c) == Last(c) && First(d) == Last(d)
  {
    ChainSource(kinds, idx, c);
    ChainSource(kinds, idx, d);
    assert c[0] in idx && d[0] in idx;
    RunZeroLength(kinds, idx, c[0], d[0]);
  }

  /** The arrivals as chains of their own. */
  function Singles(idx: seq<Solution>): (r: seq<Path>)
    ensures |r| == |idx| && forall k :: 0 <= k < |r| ==> r[k] == [idx[k]]
  {
    seq(|idx|, k requires 0 <= k < |idx| => [idx[k]])
  }

  lemma SingleArrival(idx: seq<Solution>)
    requires idx != [] && idx[|idx| - 1].stage == 0
    ensures Arrivals(1, idx) == [[idx[|idx| - 1]]]
  {
    var sol := idx[|idx| - 1];
    var none: seq<Path> := [[]];
    assert none[..0] == [];
    assert Combos([], sol, none) == [];
    assert [] + [sol] + [] == [sol];
    assert Row([], sol, none) == [[sol]];
    assert Combos(none, sol, none) == [] + [[sol]];
  }

  lemma KeepNew(offers: seq<Path>, c: Path)
    requires forall k :: k in Keep(offers) ==> ChainKey(k) != ChainKey(c)
    ensures Keep(offers + [c]) == Keep(offers) + [c]
  {
    assert (offers + [c])[..|offers|] == offers;
  }

  /** A container with one child emits each of its solutions the moment it arrives; so a state that
      is shown at both ends is published before anybody can read it. */
  lemma {:induction false} SingleChildEmitsAtOnce(kinds: seq<InterfaceType>, idx: seq<Solution>)
    requires |kinds| == 1 && Run(kinds, idx)
    ensures Keep(Offered(1, idx)) == Singles(idx)
  {
    if idx != [] {
      var init, sol := idx[..|idx| - 1], idx[|idx| - 1];
      SingleChildEmitsAtOnce(kinds, init);
      SingleArrival(idx);
      RunStages(kinds, idx);
      forall k | k in Singles(init) ensures ChainKey(k) != ChainKey([sol]) {
        var j :| 0 <= j < |init| && k == [init[j]];
        assert init[j] in init && init[j].stage == 0 == sol.stage;
      }
      KeepNew(Offered(1, init), [sol]);
      assert Singles(idx) == Singles(init) + [[sol]];
    }
  }

  /** What a parent may rely on: no two emissions share their keys, those that meet are zero-length,
      and with several children no state is at both ends. */
  lemma NestedDiscipline(kinds: seq<InterfaceType>, idx: seq<Solution>, i: nat, j: nat)
    requires kinds != [] && Wired(kinds) && Run(kinds, idx)
    requires i < |Keep(Offered(|kinds|, idx))| && j < |Keep(Offered(|kinds|, idx))|
    ensures var kept := Keep(Offered(|kinds|, idx));
      && kept[i] != [] && kept[j] != []
      && (i != j ==> ChainKey(kept[i]) != ChainKey(kept[j]))
      && (First(kept[i]) == Last(kept[j]) ==>
            |kinds| == 1 && First(kept[i]) == Last(kept[i]) && First(kept[j]) == Last(kept[j]))
  {
    var kept := Keep(Offered(|kinds|, idx));
    KeptChainsAreFull(kinds, idx, kept[i]);
    KeptChainsAreFull(kinds, idx, kept[j]);
    KeepDistinct(Offered(|kinds|, idx));
    if First(kept[i]) == Last(kept[j]) {
      LiftedZeroLength(kinds, idx, kept[i], kept[j]);
    }
  }

  lemma LateRun(f: Solution, c: Solution)
    requires c.stage == 0 && f.stage == 1 && c.end == f.start && c.start != c.end && f.start != f.end
    requires c.start.writer == 0 && c.end.writer == 0 && f.end.writer == 1 && f.start.sides == AtEnd
    ensures Run([Generator, PropagatorForward], [f, c])
  {
    var kinds := [Generator, PropagatorForward];
    assert Admissible(kinds, [], f);
    assert [f][..0] == [];
    assert Run(kinds, [f]);
    assert [f, c][..1] == [f];
    assert Admissible(kinds, [f], c);
  }

  lemma OnlyChain(f: Solution, c: Solution, k: Path)
    requires c.stage == 0 && f.stage == 1 && FullChain(2, [f, c], k)
    ensures k == [c, f]
  {
    assert k[0] in [f, c] && k[1] in [f, c];
  }

  lemma SameKey(kept: seq<Path>, c: Path)
    requires c in kept && forall k :: k in kept ==> ChainKey(k) == ChainKey(c) && k == c
    requires forall i, j :: 0 <= i < j < |kept| ==> ChainKey(kept[i]) != ChainKey(kept[j])
    ensures kept == [c]
  {
    var last := |kept| - 1;
    assert kept[0] in kept && kept[last] in kept;
  }

  lemma OnlyKept(kinds: seq<InterfaceType>, f: Solution, c: Solution, offers: seq<Path>)
    requires |kinds| == 2 && Wired(kinds) && Run(kinds, [f, c]) && offers == Offered(2, [f, c])
    requires c.stage == 0 && f.stage == 1 && FullChain(2, [f, c], [c, f])
    ensures Keep(offers) == [[c, f]]
  {
    FullChainsAreRepresented(2, [f, c], [c, f]);
    forall k | k in Keep(offers) ensures k == [c, f] {
      KeptChainsAreFull(kinds, [f, c], k);
      OnlyChain(f, c, k);
    }
    var k :| k in Keep(offers) && ChainKey(k) == ChainKey([c, f]);
    KeepDistinct(offers);
    SameKey(Keep(offers), [c, f]);
  }

  /** The order that nesting brings about: a reader of a state of one end emits before the child that
      wrote the state has composed the solution that ends in it. The late solution completes the
      chain. */
  lemma LateWriterCompletes(f: Solution, c: Solution)
    requires c.stage == 0 && f.stage == 1 && c.end == f.start && c.start != c.end && f.start != f.end
    requires c.start.writer == 0 && c.end.writer == 0 && f.end.writer == 1 && f.start.sides == AtEnd
    ensures var kinds := [Generator, PropagatorForward];
      Wired(kinds) && Run(kinds, [f, c]) && [c, f] in Arrivals(2, [f, c]) && Keep(Offered(2, [f, c])) == [[c, f]]
  {
    var kinds, idx := [Generator, PropagatorForward], [f, c];
    LateRun(f, c);
    assert FullChain(2, idx, [c, f]);
    FullSplit(2, idx, [c, f]);
    OnlyKept(kinds, f, c, Offered(2, idx));
  }
}
