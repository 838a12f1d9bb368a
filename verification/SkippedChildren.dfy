/** Paths that skip a child: the search returns exactly the paths that thread through the range in
    order, and some of them miss a child exactly when a full one has a zero-length member. */
module SkippedChildren {
  import opened Interfaces
  import opened Chains
  import opened ChainLemmas
  import opened Composition

  // ---- the search returns exactly the sound paths ----

  /** A found path begins, next to the entry, with an arrival. */
  lemma FoundStarts(idx: seq<Solution>, x: InterfaceState, d: Direction, lo: int, hi: int, p: Path)
    returns (s: Solution, rest: Path)
    requires lo <= hi && p in Traces(idx, x, d, lo, hi)
    ensures s in idx && Near(d, s) == x && lo <= s.stage <= hi && rest in TracesBeyond(idx, s, d, lo, hi)
    ensures p == Extend(d, s, rest)
  {
    s, rest := OverElim(idx, Pool(idx, d, x), d, lo, hi, p);
    PoolMember(idx, d, x, s);
  }

  /** The search returns exactly the linked paths in index order that thread through the given state,
      stay in the range and reach its far end. */
  lemma TracesExactly(p: Path, idx: seq<Solution>, x: InterfaceState, d: Direction, lo: int, hi: int)
    ensures p in Traces(idx, x, d, lo, hi) <==> Sound(p, idx, x, d, lo, hi)
  {
    if p in Traces(idx, x, d, lo, hi) {
      TracesSound(idx, x, d, lo, hi, p);
    }
    if Sound(p, idx, x, d, lo, hi) {
      SoundFound(p, idx, x, d, lo, hi);
    }
  }

  // ---- exactly when a child is skipped ----

  predicate ZeroLength(s: Solution) {
    s.start == s.end
  }

  /** The far end of the range; a path that reaches it has a member there. */
  function Farthest(d: Direction, lo: int, hi: int): int {
    if d.Backward? then lo else hi
  }

  /** A path that misses no child and has a zero-length member before the far end. */
  ghost predicate Shortenable(c: Path, d: Direction, lo: int, hi: int) {
    Covers(c, lo, hi) && exists j :: 0 <= j < |c| && ZeroLength(c[j]) && c[j].stage != Farthest(d, lo, hi)
  }

  function Without(c: Path, j: nat): (r: Path)
    requires j < |c|
    ensures |r| == |c| - 1
    ensures forall k :: 0 <= k < |r| ==> r[k] == c[if k < j then k else k + 1]
  {
    c[..j] + c[j + 1..]
  }

  /** Leaving out a zero-length member before the far end leaves a path the search returns too. */
  lemma ShortenedSound(c: Path, idx: seq<Solution>, x: InterfaceState, d: Direction, lo: int, hi: int, j: nat)
    requires lo <= hi && Sound(c, idx, x, d, lo, hi) && Covers(c, lo, hi)
    requires j < |c| && ZeroLength(c[j]) && c[j].stage != Farthest(d, lo, hi)
    ensures Sound(Without(c, j), idx, x, d, lo, hi) && !Covers(Without(c, j), lo, hi)
  {
    var p := Without(c, j);
    forall k | 0 <= k < |p| - 1 ensures p[k].end == p[k + 1].start {
      if k == j - 1 {
        assert c[j - 1].end == c[(j - 1) + 1].start && c[j].end == c[j + 1].start;
      } else {
        var i := if k < j then k else k + 1;
        assert c[i].end == c[i + 1].start;
      }
    }
    assert d.Forward? && j == 0 ==> c[0].end == c[0 + 1].start;
    assert d.Backward? && j == |c| - 1 ==> c[j - 1].end == c[(j - 1) + 1].start;
  }

  ghost predicate Skips(idx: seq<Solution>, x: InterfaceState, d: Direction, lo: int, hi: int) {
    exists p :: p in Traces(idx, x, d, lo, hi) && !Covers(p, lo, hi)
  }

  ghost predicate CanSkip(idx: seq<Solution>, x: InterfaceState, d: Direction, lo: int, hi: int) {
    exists c :: c in Traces(idx, x, d, lo, hi) && Shortenable(c, d, lo, hi)
  }

  lemma ShorteningSkips(idx: seq<Solution>, x: InterfaceState, d: Direction, lo: int, hi: int)
    requires lo <= hi && CanSkip(idx, x, d, lo, hi)
    ensures Skips(idx, x, d, lo, hi)
  {
    var c: Path :| c in Traces(idx, x, d, lo, hi) && Shortenable(c, d, lo, hi);
    var j :| 0 <= j < |c| && ZeroLength(c[j]) && c[j].stage != Farthest(d, lo, hi);
    TracesSound(idx, x, d, lo, hi, c);
    ShortenedSound(c, idx, x, d, lo, hi, j);
    SoundFound(Without(c, j), idx, x, d, lo, hi);
  }

  /** The range behind the child next to the entry. */
  function LoBehind(d: Direction, lo: int): int {
    if d.Backward? then lo else lo + 1
  }

  function HiBehind(d: Direction, hi: int): int {
    if d.Backward? then hi - 1 else hi
  }

  lemma ExtendShortenable(s: Solution, c: Path, d: Direction, lo: int, hi: int)
    requires lo <= hi && s.stage == Nearest(d, lo, hi) && Covers(c, LoBehind(d, lo), HiBehind(d, hi)) && c != []
    requires ZeroLength(s) || Shortenable(c, d, LoBehind(d, lo), HiBehind(d, hi))
    ensures Shortenable(Extend(d, s, c), d, lo, hi)
  {
    var e := Extend(d, s, c);
    if ZeroLength(s) {
      assert e[if d.Backward? then |c| else 0] == s;
    } else {
      var j :| 0 <= j < |c| && ZeroLength(c[j]) && c[j].stage != Farthest(d, LoBehind(d, lo), HiBehind(d, hi));
      assert e[if d.Backward? then j else j + 1] == c[j];
    }
  }

  /** A path that misses the child next to the entry: a bridge leads to a full path instead. */
  lemma MissesNearest(kinds: seq<InterfaceType>, idx: seq<Solution>, x: InterfaceState, d: Direction, lo: int, hi: int,
                      b: Solution, s: Solution, rest: Path)
    requires Wired(kinds) && Run(kinds, idx) && 0 <= lo <= hi < |kinds| && Entry(idx, b, x, d, lo, hi)
    requires s in idx && Near(d, s) == x && lo <= s.stage <= hi && s.stage != Nearest(d, lo, hi)
    requires rest in TracesBeyond(idx, s, d, lo, hi)
    ensures CanSkip(idx, x, d, lo, hi)
  {
    var q :| 0 <= q < |idx| && idx[q] == s;
    SkipHasBridge(kinds, idx, x, d, lo, hi, b, q);
    var z :| z in idx[..q] && Bridge(z, x, Nearest(d, lo, hi));
    PoolMember(idx, d, x, s);
    FoundWithoutNearest(idx, x, d, lo, hi, s, rest);
    var f := ThroughBridge(kinds, idx, x, d, lo, hi, z, Extend(d, s, rest));
    FoundThrough(idx, x, d, lo, hi, z, f);
    BridgedShortenable(d, z, f, lo, hi);
  }

  lemma BridgedShortenable(d: Direction, z: Solution, f: Path, lo: int, hi: int)
    requires lo < hi && z.stage == Nearest(d, lo, hi) && ZeroLength(z) && Covers(Extend(d, z, f), lo, hi)
    ensures Shortenable(Extend(d, z, f), d, lo, hi)
  {
    var e := Extend(d, z, f);
    assert e[if d.Backward? then |f| else 0] == z;
  }

  /** Where the child next to the entry is on a path that skips a child, what follows skips one. */
  lemma SkipsBehind(d: Direction, s: Solution, rest: Path, lo: int, hi: int)
    requires lo <= hi && s.stage == Nearest(d, lo, hi) && !Covers(Extend(d, s, rest), lo, hi)
    ensures !Covers(rest, LoBehind(d, lo), HiBehind(d, hi))
  {
  }

  /** The search behind the child next to the entry starts from that child's solution. */
  lemma EntersBehind(idx: seq<Solution>, d: Direction, lo: int, hi: int, s: Solution, rest: Path)
    requires lo <= hi && s in idx && s.stage == Nearest(d, lo, hi) && rest in TracesBeyond(idx, s, d, lo, hi)
    ensures Entry(idx, s, Far(d, s), d, LoBehind(d, lo), HiBehind(d, hi))
    ensures rest in Traces(idx, Far(d, s), d, LoBehind(d, lo), HiBehind(d, hi))
    ensures 0 <= lo ==> 0 <= LoBehind(d, lo)
    ensures lo < hi ==> LoBehind(d, lo) <= HiBehind(d, hi) <= hi
    ensures HiBehind(d, hi) - LoBehind(d, lo) < hi - lo
  {
  }

  lemma NothingBehind(idx: seq<Solution>, d: Direction, s: Solution, rest: Path, lo: int, hi: int)
    requires lo == hi && s.stage == lo && rest in TracesBeyond(idx, s, d, lo, hi)
    ensures Covers(Extend(d, s, rest), lo, hi)
  {
  }

  lemma {:induction false} SkippingShortens(kinds: seq<InterfaceType>, idx: seq<Solution>, x: InterfaceState,
                                            d: Direction, lo: int, hi: int, b: Solution, p: Path)
    requires Wired(kinds) && Run(kinds, idx) && 0 <= lo <= hi < |kinds| && Entry(idx, b, x, d, lo, hi)
    requires p in Traces(idx, x, d, lo, hi) && !Covers(p, lo, hi)
    ensures CanSkip(idx, x, d, lo, hi)
    decreases hi - lo
  {
    var s, rest := FoundStarts(idx, x, d, lo, hi, p);
    if s.stage == Nearest(d, lo, hi) {
      if lo == hi {
        NothingBehind(idx, d, s, rest, lo, hi);
      } else {
        SkipsBehind(d, s, rest, lo, hi);
        EntersBehind(idx, d, lo, hi, s, rest);
        SkippingShortens(kinds, idx, Far(d, s), d, LoBehind(d, lo), HiBehind(d, hi), s, rest);
        ShortensFurther(idx, x, d, lo, hi, s);
      }
    } else {
      MissesNearest(kinds, idx, x, d, lo, hi, b, s, rest);
    }
  }

  lemma ShortensFurther(idx: seq<Solution>, x: InterfaceState, d: Direction, lo: int, hi: int, s: Solution)
    requires lo < hi && s in idx && Near(d, s) == x && s.stage == Nearest(d, lo, hi)
    requires CanSkip(idx, Far(d, s), d, LoBehind(d, lo), HiBehind(d, hi))
    ensures CanSkip(idx, x, d, lo, hi)
  {
    var c: Path :| c in Traces(idx, Far(d, s), d, LoBehind(d, lo), HiBehind(d, hi))
      && Shortenable(c, d, LoBehind(d, lo), HiBehind(d, hi));
    FoundThrough(idx, x, d, lo, hi, s, c);
    ExtendShortenable(s, c, d, lo, hi);
  }

  /** The search returns a path that misses a child exactly when it also returns a full one with a
      zero-length member before the far end. */
  lemma SkipsExactly(kinds: seq<InterfaceType>, idx: seq<Solution>, x: InterfaceState, d: Direction, lo: int, hi: int,
                     b: Solution)
    requires Wired(kinds) && Run(kinds, idx) && 0 <= lo <= hi < |kinds| && Entry(idx, b, x, d, lo, hi)
    ensures Skips(idx, x, d, lo, hi) <==> CanSkip(idx, x, d, lo, hi)
  {
    if p :| p in Traces(idx, x, d, lo, hi) && !Covers(p, lo, hi) {
      SkippingShortens(kinds, idx, x, d, lo, hi, b, p);
    }
    if CanSkip(idx, x, d, lo, hi) {
      ShorteningSkips(idx, x, d, lo, hi);
    }
  }

  // ---- what the container is handed ----

  /** A chain of every child with a zero-length member inside, other than the arriving solution. */
  ghost predicate Passable(c: Path, n: nat, stage: int) {
    Covers(c, 0, n - 1) && exists j :: 0 < j < n - 1 && j != stage && ZeroLength(c[j])
  }

  function Incoming(idx: seq<Solution>, sol: Solution): seq<Path> {
    Traces(idx, sol.start, Backward, 0, sol.stage - 1)
  }

  function Outgoing(n: nat, idx: seq<Solution>, sol: Solution): seq<Path> {
    Traces(idx, sol.end, Forward, sol.stage + 1, n - 1)
  }

  lemma JoinCovers(n: nat, i: Path, sol: Solution, o: Path)
    requires 0 <= sol.stage < n
    ensures Covers(i, 0, sol.stage - 1) && Covers(o, sol.stage + 1, n - 1) ==> Covers(i + [sol] + o, 0, n - 1)
    ensures Covers(i + [sol] + o, 0, n - 1) ==> Covers(i, 0, sol.stage - 1) && Covers(o, sol.stage + 1, n - 1)
  {
    var c := i + [sol] + o;
    assert c[|i|] == sol;
    assert forall k :: 0 <= k < |i| ==> c[k] == i[k];
    assert forall k :: 0 <= k < |o| ==> c[|i| + 1 + k] == o[k];
  }

  /** Where any path leads on from an arrival, a full one does. */
  lemma FullBeside(kinds: seq<InterfaceType>, idx: seq<Solution>, sol: Solution, d: Direction, lo: int, hi: int,
                   p: Path)
    returns (f: Path)
    requires Wired(kinds) && Run(kinds, idx) && sol in idx && 0 <= lo <= hi + 1 <= |kinds|
    requires Entry(idx, sol, Far(d, sol), d, lo, hi) && p in Traces(idx, Far(d, sol), d, lo, hi)
    ensures f in Traces(idx, Far(d, sol), d, lo, hi) && Covers(f, lo, hi)
  {
    TracesDominated(kinds, idx, Far(d, sol), d, lo, hi, sol);
    f := PickFull(Traces(idx, Far(d, sol), d, lo, hi), p, d, Far(d, sol), lo, hi);
  }

  lemma PassableThrough(n: nat, i: Path, sol: Solution, o: Path)
    requires 0 <= sol.stage < n && Covers(i, 0, sol.stage - 1) && Covers(o, sol.stage + 1, n - 1)
    requires Shortenable(i, Backward, 0, sol.stage - 1) || Shortenable(o, Forward, sol.stage + 1, n - 1)
    ensures Passable(i + [sol] + o, n, sol.stage)
  {
    var c := i + [sol] + o;
    JoinCovers(n, i, sol, o);
    if Shortenable(i, Backward, 0, sol.stage - 1) {
      var j :| 0 <= j < |i| && ZeroLength(i[j]) && i[j].stage != 0;
      assert c[j] == i[j];
    } else {
      var j :| 0 <= j < |o| && ZeroLength(o[j]) && o[j].stage != n - 1;
      assert c[|i| + 1 + j] == o[j];
    }
  }

  lemma PassableParts(n: nat, i: Path, sol: Solution, o: Path)
    requires 0 <= sol.stage < n && Passable(i + [sol] + o, n, sol.stage)
    ensures Covers(i, 0, sol.stage - 1) && Covers(o, sol.stage + 1, n - 1)
    ensures Shortenable(i, Backward, 0, sol.stage - 1) || Shortenable(o, Forward, sol.stage + 1, n - 1)
  {
    var c := i + [sol] + o;
    JoinCovers(n, i, sol, o);
    var j :| 0 < j < n - 1 && j != sol.stage && ZeroLength(c[j]);
    if j < sol.stage {
      assert i[j] == c[j];
    } else {
      assert o[j - |i| - 1] == c[j];
    }
  }

  lemma SkippingOffer(kinds: seq<InterfaceType>, idx: seq<Solution>, sol: Solution, i: Path, o: Path) returns (c: Path)
    requires Wired(kinds) && Run(kinds, idx) && sol in idx && 0 <= sol.stage < |kinds|
    requires i in Incoming(idx, sol) && o in Outgoing(|kinds|, idx, sol)
    requires !Covers(i + [sol] + o, 0, |kinds| - 1)
    ensures c in Combos(Incoming(idx, sol), sol, Outgoing(|kinds|, idx, sol)) && Passable(c, |kinds|, sol.stage)
  {
    var n, st := |kinds|, sol.stage;
    JoinCovers(n, i, sol, o);
    var f := FullBeside(kinds, idx, sol, Backward, 0, st - 1, i);
    var g := FullBeside(kinds, idx, sol, Forward, st + 1, n - 1, o);
    if !Covers(i, 0, st - 1) {
      NonEmptyRange(idx, sol.start, Backward, 0, st - 1, i);
      SkippingShortens(kinds, idx, sol.start, Backward, 0, st - 1, sol, i);
      f :| f in Incoming(idx, sol) && Shortenable(f, Backward, 0, st - 1);
    } else {
      NonEmptyRange(idx, sol.end, Forward, st + 1, n - 1, o);
      SkippingShortens(kinds, idx, sol.end, Forward, st + 1, n - 1, sol, o);
      g :| g in Outgoing(n, idx, sol) && Shortenable(g, Forward, st + 1, n - 1);
    }
    c := f + [sol] + g;
    CombosIntro(Incoming(idx, sol), sol, Outgoing(n, idx, sol), f, g);
    PassableThrough(n, f, sol, g);
  }

  /** Nothing is skipped where there is no child. */
  lemma NonEmptyRange(idx: seq<Solution>, x: InterfaceState, d: Direction, lo: int, hi: int, p: Path)
    requires lo <= hi + 1 && p in Traces(idx, x, d, lo, hi) && !Covers(p, lo, hi)
    ensures lo <= hi
  {
  }

  lemma Passed(n: nat, idx: seq<Solution>, sol: Solution, i: Path, o: Path) returns (c: Path)
    requires 0 <= sol.stage < n && i in Incoming(idx, sol) && o in Outgoing(n, idx, sol)
    requires Passable(i + [sol] + o, n, sol.stage)
    ensures c in Combos(Incoming(idx, sol), sol, Outgoing(n, idx, sol)) && !Covers(c, 0, n - 1)
  {
    PassableParts(n, i, sol, o);
    var f, g := i, o;
    if Shortenable(i, Backward, 0, sol.stage - 1) {
      ShorteningSkips(idx, sol.start, Backward, 0, sol.stage - 1);
      f :| f in Incoming(idx, sol) && !Covers(f, 0, sol.stage - 1);
    } else {
      ShorteningSkips(idx, sol.end, Forward, sol.stage + 1, n - 1);
      g :| g in Outgoing(n, idx, sol) && !Covers(g, sol.stage + 1, n - 1);
    }
    c := f + [sol] + g;
    CombosIntro(Incoming(idx, sol), sol, Outgoing(n, idx, sol), f, g);
    JoinCovers(n, f, sol, g);
  }

  ghost predicate OffersSkipping(n: nat, idx: seq<Solution>)
    requires idx != []
  {
    exists c :: c in Arrivals(n, idx) && !Covers(c, 0, n - 1)
  }

  ghost predicate OffersPassable(n: nat, idx: seq<Solution>)
    requires idx != []
  {
    exists c :: c in Arrivals(n, idx) && Passable(c, n, idx[|idx| - 1].stage)
  }

  lemma ArrivalParts(n: nat, idx: seq<Solution>, c: Path) returns (i: Path, o: Path)
    requires idx != [] && c in Arrivals(n, idx)
    ensures var sol := idx[|idx| - 1];
      i in Incoming(idx, sol) && o in Outgoing(n, idx, sol) && c == i + [sol] + o
  {
    var sol := idx[|idx| - 1];
    i, o := CombosElim(Incoming(idx, sol), sol, Outgoing(n, idx, sol), c);
  }

  lemma SkippingOffered(kinds: seq<InterfaceType>, idx: seq<Solution>)
    requires Wired(kinds) && Run(kinds, idx) && idx != [] && OffersSkipping(|kinds|, idx)
    ensures OffersPassable(|kinds|, idx)
  {
    var q := RunAt(kinds, idx, idx[|idx| - 1]);
    var c :| c in Arrivals(|kinds|, idx) && !Covers(c, 0, |kinds| - 1);
    var i, o := ArrivalParts(|kinds|, idx, c);
    var e := SkippingOffer(kinds, idx, idx[|idx| - 1], i, o);
  }

  lemma PassableChain(n: nat, idx: seq<Solution>, c: Path) returns (e: Path)
    requires idx != [] && 0 <= idx[|idx| - 1].stage < n
    requires c in Arrivals(n, idx) && Passable(c, n, idx[|idx| - 1].stage)
    ensures e in Arrivals(n, idx) && !Covers(e, 0, n - 1)
  {
    var i, o := ArrivalParts(n, idx, c);
    e := Passed(n, idx, idx[|idx| - 1], i, o);
  }

  lemma PassableOffered(n: nat, idx: seq<Solution>)
    requires idx != [] && 0 <= idx[|idx| - 1].stage < n && OffersPassable(n, idx)
    ensures OffersSkipping(n, idx)
  {
    var c :| c in Arrivals(n, idx) && Passable(c, n, idx[|idx| - 1].stage);
    var e := PassableChain(n, idx, c);
  }

  /** An arrival hands over a chain that misses a child exactly when it also hands over a full chain
      that has a zero-length member between its ends besides the arrival itself. */
  lemma OffersSkipExactly(kinds: seq<InterfaceType>, idx: seq<Solution>)
    requires Wired(kinds) && Run(kinds, idx) && idx != []
    ensures OffersSkipping(|kinds|, idx) <==> OffersPassable(|kinds|, idx)
  {
    var q := RunAt(kinds, idx, idx[|idx| - 1]);
    if OffersSkipping(|kinds|, idx) {
      SkippingOffered(kinds, idx);
    } else if OffersPassable(|kinds|, idx) {
      PassableOffered(|kinds|, idx);
    }
  }

  // ---- an ordinary run in which it happens ----

  const TWO_GENERATORS: seq<InterfaceType> := [Generator, Connecting, Generator, PropagatorForward]

  function Leg(stage: int, start: InterfaceState, end: InterfaceState): Solution {
    Solution(start, end, stage, 0.0, [], [], NoRequest, [])
  }

  /** Two generated states, the motion between them, and what follows the second. */
  function Four(a: InterfaceState, b: InterfaceState, c: InterfaceState): seq<Solution> {
    [Leg(0, a, a), Leg(2, b, b), Leg(1, a, b), Leg(3, b, c)]
  }

  ghost predicate FourStates(a: InterfaceState, b: InterfaceState, c: InterfaceState) {
    a.writer == 0 && b.writer == 2 && c.writer == 3 && a.sides == OnBoth && b.sides == OnBoth && c.sides == AtEnd
  }

  lemma GeneratorsRun(a: InterfaceState, b: InterfaceState, c: InterfaceState)
    requires FourStates(a, b, c)
    ensures Run(TWO_GENERATORS, [Leg(0, a, a), Leg(2, b, b)])
  {
    var kinds := TWO_GENERATORS;
    assert Admissible(kinds, [], Leg(0, a, a));
    RunSnoc(kinds, [], Leg(0, a, a));
    assert [] + [Leg(0, a, a)] == [Leg(0, a, a)];
    assert Admissible(kinds, [Leg(0, a, a)], Leg(2, b, b));
    RunSnoc(kinds, [Leg(0, a, a)], Leg(2, b, b));
    assert [Leg(0, a, a)] + [Leg(2, b, b)] == [Leg(0, a, a), Leg(2, b, b)];
  }

  lemma MotionRun(a: InterfaceState, b: InterfaceState, c: InterfaceState, before: seq<Solution>)
    requires FourStates(a, b, c) && before == [Leg(0, a, a), Leg(2, b, b)]
    ensures Run(TWO_GENERATORS, before + [Leg(1, a, b)])
  {
    GeneratorsRun(a, b, c);
    assert before[0] in before && before[1] in before;
    assert PublishedAtEnd(before, 0, a) && PublishedAtStart(before, 2, b);
    assert Admissible(TWO_GENERATORS, before, Leg(1, a, b));
    RunSnoc(TWO_GENERATORS, before, Leg(1, a, b));
  }

  lemma FourRun(a: InterfaceState, b: InterfaceState, c: InterfaceState, before: seq<Solution>)
    requires FourStates(a, b, c) && before == [Leg(0, a, a), Leg(2, b, b), Leg(1, a, b)]
    ensures Run(TWO_GENERATORS, before + [Leg(3, b, c)]) && before + [Leg(3, b, c)] == Four(a, b, c)
  {
    MotionRun(a, b, c, [Leg(0, a, a), Leg(2, b, b)]);
    assert [Leg(0, a, a), Leg(2, b, b)] + [Leg(1, a, b)] == before;
    assert before[1] in before;
    assert PublishedAtEnd(before, 2, b);
    assert Admissible(TWO_GENERATORS, before, Leg(3, b, c));
    RunSnoc(TWO_GENERATORS, before, Leg(3, b, c));
  }

  lemma ShortFound(a: InterfaceState, b: InterfaceState, idx: seq<Solution>)
    requires Leg(0, a, a) in idx && Leg(1, a, b) in idx
    ensures [Leg(0, a, a), Leg(1, a, b)] in Traces(idx, b, Backward, 0, 2)
  {
    SoundFound([Leg(0, a, a), Leg(1, a, b)], idx, b, Backward, 0, 2);
  }

  lemma ShortOffered(a: InterfaceState, b: InterfaceState, c: InterfaceState, idx: seq<Solution>)
    requires Leg(0, a, a) in idx && Leg(1, a, b) in idx && idx != [] && idx[|idx| - 1] == Leg(3, b, c)
    ensures [Leg(0, a, a), Leg(1, a, b), Leg(3, b, c)] in Arrivals(4, idx)
  {
    ShortFound(a, b, idx);
    SoundFound([], idx, c, Forward, 4, 3);
    PartsArrive(4, idx, [Leg(0, a, a), Leg(1, a, b)], Leg(3, b, c), []);
    assert [Leg(0, a, a), Leg(1, a, b)] + [Leg(3, b, c)] + [] == [Leg(0, a, a), Leg(1, a, b), Leg(3, b, c)];
  }

  lemma ShortNotKept(idx: seq<Solution>, short: Path)
    requires Run(TWO_GENERATORS, idx) && |short| != 4
    ensures short !in Keep(Offered(4, idx))
  {
    if short in Keep(Offered(4, idx)) {
      KeptChainsAreFull(TWO_GENERATORS, idx, short);
    }
  }

  /** The backward search from the last child skips the second generator, and the chain without it is
      handed over; it is not kept. */
  lemma SecondGeneratorSkipped(a: InterfaceState, b: InterfaceState, c: InterfaceState, idx: seq<Solution>)
    requires FourStates(a, b, c) && idx == Four(a, b, c)
    ensures var short := [Leg(0, a, a), Leg(1, a, b), Leg(3, b, c)];
            && Wired(TWO_GENERATORS) && Run(TWO_GENERATORS, idx)
            && [Leg(0, a, a), Leg(1, a, b)] in Traces(idx, b, Backward, 0, 2)
            && short in Arrivals(4, idx) && short !in Keep(Offered(4, idx))
  {
    FourRun(a, b, c, [Leg(0, a, a), Leg(2, b, b), Leg(1, a, b)]);
    assert idx[0] in idx && idx[2] in idx;
    ShortFound(a, b, idx);
    ShortOffered(a, b, c, idx);
    ShortNotKept(idx, [Leg(0, a, a), Leg(1, a, b), Leg(3, b, c)]);
  }
}
