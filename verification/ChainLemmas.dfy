/** The search finds exactly the linked paths, each once, and a path that skips a child
    never comes before a path that does not. */
module ChainLemmas {
  import opened Interfaces
  import opened Chains

  /** What the search may return. */
  ghost predicate Sound(p: Path, idx: seq<Solution>, x: InterfaceState, d: Direction, lo: int, hi: int) {
    if lo > hi then p == []
    else
      && |p| > 0 && Drawn(p, idx) && Linked(p)
      && (forall j :: 0 <= j < |p| ==> lo <= p[j].stage <= hi)
      && (forall j, k :: 0 <= j < k < |p| ==> p[j].stage < p[k].stage)
      && (if d.Backward? then p[|p| - 1].end == x && p[0].stage == lo
          else p[0].start == x && p[|p| - 1].stage == hi)
  }

  /** The state at the far end of a path that was entered through `x`. */
  function FarState(d: Direction, p: Path, x: InterfaceState): InterfaceState {
    if p == [] then x else if d.Backward? then p[0].start else p[|p| - 1].end
  }

  lemma {:induction false} PoolMember(idx: seq<Solution>, d: Direction, x: InterfaceState, s: Solution)
    ensures s in Pool(idx, d, x) <==> s in idx && Near(d, s) == x
  {
    if idx != [] {
      var init, last := idx[..|idx| - 1], idx[|idx| - 1];
      assert idx == init + [last];
      PoolMember(init, d, x, s);
    }
  }

  lemma {:induction false} PoolNoDup(idx: seq<Solution>, d: Direction, x: InterfaceState)
    requires NoDup(idx)
    ensures NoDup(Pool(idx, d, x))
  {
    if idx != [] {
      var init, last := idx[..|idx| - 1], idx[|idx| - 1];
      PoolNoDup(init, d, x);
      PoolMember(init, d, x, last);
    }
  }

  lemma {:induction false} RunAdmits(kinds: seq<InterfaceType>, idx: seq<Solution>, q: nat)
    requires Run(kinds, idx) && q < |idx|
    ensures Admissible(kinds, idx[..q], idx[q])
  {
    if q < |idx| - 1 {
      RunAdmits(kinds, idx[..|idx| - 1], q);
      assert idx[..|idx| - 1][..q] == idx[..q];
    }
  }

  lemma {:induction false} RunPrefix(kinds: seq<InterfaceType>, idx: seq<Solution>, m: nat)
    requires Run(kinds, idx) && m <= |idx|
    ensures Run(kinds, idx[..m])
  {
    if m < |idx| {
      RunPrefix(kinds, idx[..|idx| - 1], m);
      assert idx[..|idx| - 1][..m] == idx[..m];
    } else {
      assert idx[..m] == idx;
    }
  }

  lemma RunSnoc(kinds: seq<InterfaceType>, idx: seq<Solution>, s: Solution)
    ensures Run(kinds, idx + [s]) <==> Run(kinds, idx) && Admissible(kinds, idx, s)
  {
    assert (idx + [s])[..|idx|] == idx;
  }

  /** The next of several solutions that may all arrive may arrive. */
  lemma RunNext(kinds: seq<InterfaceType>, base: seq<Solution>, sols: seq<Solution>, k: nat)
    requires Run(kinds, base + sols) && k < |sols|
    ensures Run(kinds, base + sols[..k] + [sols[k]])
    ensures base + sols[..k + 1] == base + sols[..k] + [sols[k]]
  {
    RunPrefix(kinds, base + sols, |base| + k + 1);
    assert (base + sols)[..|base| + k + 1] == base + sols[..k] + [sols[k]];
  }

  lemma RunNoDup(kinds: seq<InterfaceType>, idx: seq<Solution>)
    requires Run(kinds, idx)
    ensures NoDup(idx)
  {
    forall i, j | 0 <= i < j < |idx| ensures idx[i] != idx[j] {
      RunAdmits(kinds, idx, j);
      assert idx[..j][i] == idx[i];
      assert idx[i] in idx[..j];
    }
  }

  // --- membership ----------------------------------------------------------------------

  /** Extensions of solutions of the pool are found, and nothing else is. */
  lemma {:induction false} OverIntro(idx: seq<Solution>, pool: seq<Solution>, d: Direction, lo: int, hi: int,
                                     s: Solution, rest: Path)
    requires lo <= hi && s in pool && lo <= s.stage <= hi && rest in TracesBeyond(idx, s, d, lo, hi)
    ensures Extend(d, s, rest) in TracesOver(idx, pool, d, lo, hi)
    decreases |pool|
  {
    var init, last := pool[..|pool| - 1], pool[|pool| - 1];
    assert pool == init + [last];
    if s in init {
      OverIntro(idx, init, d, lo, hi, s, rest);
    } else {
      var beyond := TracesBeyond(idx, s, d, lo, hi);
      var j :| 0 <= j < |beyond| && beyond[j] == rest;
      assert ExtendAll(d, s, beyond)[j] == Extend(d, s, rest);
    }
  }

  lemma {:induction false} OverElim(idx: seq<Solution>, pool: seq<Solution>, d: Direction, lo: int, hi: int, p: Path)
    returns (s: Solution, rest: Path)
    requires lo <= hi && p in TracesOver(idx, pool, d, lo, hi)
    ensures s in pool && lo <= s.stage <= hi && rest in TracesBeyond(idx, s, d, lo, hi) && p == Extend(d, s, rest)
    decreases |pool|
  {
    var init, last := pool[..|pool| - 1], pool[|pool| - 1];
    assert pool == init + [last];
    if p in TracesOver(idx, init, d, lo, hi) {
      s, rest := OverElim(idx, init, d, lo, hi, p);
    } else {
      s := last;
      var beyond := TracesBeyond(idx, s, d, lo, hi);
      var block := ExtendAll(d, s, beyond);
      var j :| 0 <= j < |block| && block[j] == p;
      rest := beyond[j];
    }
  }

  lemma SoundAfter(s: Solution, rest: Path, idx: seq<Solution>, lo: int, hi: int)
    requires s in idx && lo <= s.stage <= hi
    requires Sound(rest, idx, s.end, Forward, s.stage + 1, hi)
    ensures Sound([s] + rest, idx, s.start, Forward, lo, hi)
  {
    var p := [s] + rest;
    assert forall j :: 0 <= j < |rest| ==> p[j + 1] == rest[j];
  }

  lemma SoundBefore(s: Solution, rest: Path, idx: seq<Solution>, lo: int, hi: int)
    requires s in idx && lo <= s.stage <= hi
    requires Sound(rest, idx, s.start, Backward, lo, s.stage - 1)
    ensures Sound(rest + [s], idx, s.end, Backward, lo, hi)
  {
    var p := rest + [s];
    assert p[|rest|] == s && forall j :: 0 <= j < |rest| ==> p[j] == rest[j];
  }

  lemma {:induction false} TracesSound(idx: seq<Solution>, x: InterfaceState, d: Direction, lo: int, hi: int, p: Path)
    requires p in Traces(idx, x, d, lo, hi)
    ensures Sound(p, idx, x, d, lo, hi)
    decreases if lo > hi then 0 else hi - lo + 1
  {
    if lo <= hi {
      var s, rest := OverElim(idx, Pool(idx, d, x), d, lo, hi, p);
      PoolMember(idx, d, x, s);
      if d.Backward? {
        TracesSound(idx, s.start, d, lo, s.stage - 1, rest);
        SoundBefore(s, rest, idx, lo, hi);
      } else {
        TracesSound(idx, s.end, d, s.stage + 1, hi, rest);
        SoundAfter(s, rest, idx, lo, hi);
      }
    }
  }

  /** A sound path without its member next to the entry is sound behind it. */
  lemma SoundPart(p: Path, idx: seq<Solution>, x: InterfaceState, d: Direction, lo: int, hi: int)
    returns (s: Solution, rest: Path)
    requires lo <= hi && Sound(p, idx, x, d, lo, hi)
    ensures s in idx && Near(d, s) == x && lo <= s.stage <= hi && p == Extend(d, s, rest)
    ensures |rest| < |p| && Sound(rest, idx, Far(d, s), d, if d.Backward? then lo else s.stage + 1,
                                  if d.Backward? then s.stage - 1 else hi)
  {
    if d.Backward? {
      s, rest := p[|p| - 1], p[..|p| - 1];
    } else {
      s, rest := p[0], p[1..];
    }
    assert s in idx;
  }

  lemma FoundThrough(idx: seq<Solution>, x: InterfaceState, d: Direction, lo: int, hi: int, s: Solution, rest: Path)
    requires s in idx && Near(d, s) == x && lo <= s.stage <= hi && rest in TracesBeyond(idx, s, d, lo, hi)
    ensures Extend(d, s, rest) in Traces(idx, x, d, lo, hi)
  {
    PoolMember(idx, d, x, s);
    OverIntro(idx, Pool(idx, d, x), d, lo, hi, s, rest);
  }

  lemma {:induction false} SoundFound(p: Path, idx: seq<Solution>, x: InterfaceState, d: Direction, lo: int, hi: int)
    requires Sound(p, idx, x, d, lo, hi)
    ensures p in Traces(idx, x, d, lo, hi)
    decreases |p|
  {
    if lo <= hi {
      var s, rest := SoundPart(p, idx, x, d, lo, hi);
      if d.Backward? {
        SoundFound(rest, idx, s.start, d, lo, s.stage - 1);
      } else {
        SoundFound(rest, idx, s.end, d, s.stage + 1, hi);
      }
      FoundThrough(idx, x, d, lo, hi, s, rest);
    }
  }

  /** Every linked path of all children of the range through the state is found. */
  lemma TracesComplete(idx: seq<Solution>, x: InterfaceState, d: Direction, lo: int, hi: int, p: Path)
    requires lo <= hi + 1 && Covers(p, lo, hi) && Linked(p) && Drawn(p, idx)
    requires p != [] ==> (if d.Backward? then p[|p| - 1].end else p[0].start) == x
    ensures p in Traces(idx, x, d, lo, hi)
  {
    SoundFound(p, idx, x, d, lo, hi);
  }

  // --- no path twice ---------------------------------------------------------------------

  lemma ExtendInjective(d: Direction, s: Solution, t: Solution, p: Path, q: Path)
    requires Extend(d, s, p) == Extend(d, t, q)
    ensures s == t && p == q
  {
    var e, f := Extend(d, s, p), Extend(d, t, q);
    if d.Backward? {
      assert e[|e| - 1] == s && f[|f| - 1] == t;
      assert p == e[..|e| - 1] && q == f[..|f| - 1];
    } else {
      assert e[0] == s && f[0] == t;
      assert p == e[1..] && q == f[1..];
    }
  }

  lemma NoDupConcat<T>(a: seq<T>, b: seq<T>)
    requires NoDup(a) && NoDup(b)
    requires forall x :: x in a ==> x !in b
    ensures NoDup(a + b)
  {
    forall i, j | 0 <= i < j < |a + b| ensures (a + b)[i] != (a + b)[j] {
      if i < |a| <= j {
        assert a[i] in a && b[j - |a|] in b;
      }
    }
  }

  lemma {:induction false} TracesNoDup(idx: seq<Solution>, x: InterfaceState, d: Direction, lo: int, hi: int)
    requires NoDup(idx)
    ensures NoDup(Traces(idx, x, d, lo, hi))
    decreases if lo > hi then 0 else hi - lo + 1, 1, 0
  {
    if lo <= hi {
      PoolNoDup(idx, d, x);
      OverNoDup(idx, Pool(idx, d, x), d, lo, hi);
    }
  }

  lemma {:induction false} OverNoDup(idx: seq<Solution>, pool: seq<Solution>, d: Direction, lo: int, hi: int)
    requires NoDup(idx) && NoDup(pool) && lo <= hi
    ensures NoDup(TracesOver(idx, pool, d, lo, hi))
    decreases hi - lo + 1, 0, |pool|
  {
    if pool != [] {
      var init, s := pool[..|pool| - 1], pool[|pool| - 1];
      assert forall j :: 0 <= j < |init| ==> init[j] == pool[j] != s;
      OverNoDup(idx, init, d, lo, hi);
      if lo <= s.stage <= hi {
        BlockNoDup(idx, s, d, lo, hi);
        var before := TracesOver(idx, init, d, lo, hi);
        var block := ExtendAll(d, s, TracesBeyond(idx, s, d, lo, hi));
        forall p | p in before ensures p !in block {
          var t, rest := OverElim(idx, init, d, lo, hi, p);
          if p in block {
            var j :| 0 <= j < |block| && block[j] == p;
            ExtendInjective(d, t, s, rest, TracesBeyond(idx, s, d, lo, hi)[j]);
          }
        }
        NoDupConcat(before, block);
      }
    }
  }

  lemma {:induction false} BlockNoDup(idx: seq<Solution>, s: Solution, d: Direction, lo: int, hi: int)
    requires NoDup(idx) && lo <= s.stage <= hi
    ensures NoDup(ExtendAll(d, s, TracesBeyond(idx, s, d, lo, hi)))
    decreases hi - lo + 1, 0, 0
  {
    var beyond := TracesBeyond(idx, s, d, lo, hi);
    if d.Backward? {
      TracesNoDup(idx, s.start, d, lo, s.stage - 1);
    } else {
      TracesNoDup(idx, s.end, d, s.stage + 1, hi);
    }
    var block := ExtendAll(d, s, beyond);
    forall i, j | 0 <= i < j < |block| ensures block[i] != block[j] {
      if block[i] == block[j] {
        ExtendInjective(d, s, s, beyond[i], beyond[j]);
      }
    }
  }

  // --- a skipping path never comes first -----------------------------------------------

  /** `p` misses no child of the range and reaches state `y`. */
  ghost predicate ReachesFully(d: Direction, p: Path, x: InterfaceState, y: InterfaceState, lo: int, hi: int) {
    Covers(p, lo, hi) && FarState(d, p, x) == y
  }

  /** Path `j` is, or is preceded by, a path over every child with the same far state. */
  ghost predicate PrecededByFull(paths: seq<Path>, j: nat, d: Direction, x: InterfaceState, lo: int, hi: int)
    requires j < |paths|
  {
    exists i :: 0 <= i <= j && ReachesFully(d, paths[i], x, FarState(d, paths[j], x), lo, hi)
  }

  ghost predicate Dominated(paths: seq<Path>, d: Direction, x: InterfaceState, lo: int, hi: int) {
    forall j :: 0 <= j < |paths| ==> PrecededByFull(paths, j, d, x, lo, hi)
  }

  /** `b` is the solution, just outside the range, whose state `x` the search starts from. */
  ghost predicate Entry(idx: seq<Solution>, b: Solution, x: InterfaceState, d: Direction, lo: int, hi: int) {
    b in idx && Near(if d.Backward? then Forward else Backward, b) == x
    && b.stage == if d.Backward? then hi + 1 else lo - 1
  }

  /** The child of the range next to the entry. */
  function Nearest(d: Direction, lo: int, hi: int): int {
    if d.Backward? then hi else lo
  }

  /** A zero-length solution at the child next to the entry. */
  ghost predicate Bridge(z: Solution, x: InterfaceState, stage: int) {
    z.stage == stage && z.start == x && z.end == x
  }

  lemma RunAt(kinds: seq<InterfaceType>, idx: seq<Solution>, s: Solution) returns (q: nat)
    requires Run(kinds, idx) && s in idx
    ensures q < |idx| && idx[q] == s && Admissible(kinds, idx[..q], s)
  {
    q :| 0 <= q < |idx| && idx[q] == s;
    RunAdmits(kinds, idx, q);
  }

  lemma InPrefix(idx: seq<Solution>, q: nat, r: nat)
    ensures q < r <= |idx| ==> idx[q] in idx[..r]
  {
    if q < r <= |idx| {
      assert idx[..r][q] == idx[q];
    }
  }

  /** Zero-length discipline between any two arrivals of a run. */
  lemma RunZeroLength(kinds: seq<InterfaceType>, idx: seq<Solution>, s: Solution, t: Solution)
    requires Run(kinds, idx) && s in idx && t in idx && s.stage == t.stage && s.start == t.end
    ensures s.start == s.end && t.start == t.end
  {
    var q := RunAt(kinds, idx, s);
    var r := RunAt(kinds, idx, t);
    InPrefix(idx, q, r);
    InPrefix(idx, r, q);
  }

  /** If the search enters at a child that is not next to the entry, then the child between
      them is a generator that published the state before with a zero-length solution. */
  lemma SkipHasBridge(kinds: seq<InterfaceType>, idx: seq<Solution>, x: InterfaceState,
                      d: Direction, lo: int, hi: int, b: Solution, q: nat)
    requires Wired(kinds) && Run(kinds, idx) && 0 <= lo <= hi < |kinds|
    requires Entry(idx, b, x, d, lo, hi)
    requires q < |idx| && Near(d, idx[q]) == x
    requires lo <= idx[q].stage <= hi && idx[q].stage != Nearest(d, lo, hi)
    ensures exists z :: z in idx[..q] && Bridge(z, x, Nearest(d, lo, hi))
  {
    var a := idx[q];
    RunAdmits(kinds, idx, q);
    var r := RunAt(kinds, idx, b);
    var g := Nearest(d, lo, hi);
    // the writers of the two edges agree only when both are the child in between
    if d.Backward? {
      assert kinds[g].WritesStart() && kinds[g].WritesEnd() && a.stage == g - 1;
      var s :| s in idx[..q] && s.stage == g && s.start == x;
      var t :| t in idx[..r] && t.stage == g && t.end == x;
      RunZeroLength(kinds, idx, s, t);
      assert Bridge(s, x, g);
    } else {
      assert kinds[g].WritesStart() && kinds[g].WritesEnd() && a.stage == g + 1;
      var t :| t in idx[..q] && t.stage == g && t.end == x;
      var s :| s in idx[..r] && s.stage == g && s.start == x;
      RunZeroLength(kinds, idx, s, t);
      assert Bridge(t, x, g);
    }
  }

  /** A bridge among the first arrivals comes before them in the pool too. */
  ghost predicate Led(pool: seq<Solution>, x: InterfaceState, lo: int, hi: int, g: int) {
    forall q :: 0 <= q < |pool| && lo <= pool[q].stage <= hi && pool[q].stage != g ==>
      exists z :: z in pool[..q] && Bridge(z, x, g)
  }

  lemma LedSnoc(init: seq<Solution>, last: Solution, x: InterfaceState, lo: int, hi: int, g: int)
    requires Led(init, x, lo, hi, g)
    requires lo <= last.stage <= hi && last.stage != g ==> exists z :: z in init && Bridge(z, x, g)
    ensures Led(init + [last], x, lo, hi, g)
  {
    var pool := init + [last];
    forall q | 0 <= q < |pool| && lo <= pool[q].stage <= hi && pool[q].stage != g
      ensures exists z :: z in pool[..q] && Bridge(z, x, g)
    {
      assert pool[..q] == init[..q];
    }
  }

  lemma {:induction false} PoolLed(kinds: seq<InterfaceType>, idx: seq<Solution>, x: InterfaceState,
                                   d: Direction, lo: int, hi: int, b: Solution, m: nat)
    requires Wired(kinds) && Run(kinds, idx) && 0 <= lo <= hi < |kinds|
    requires Entry(idx, b, x, d, lo, hi) && m <= |idx|
    ensures Led(Pool(idx[..m], d, x), x, lo, hi, Nearest(d, lo, hi))
    decreases m
  {
    if m > 0 {
      PoolLed(kinds, idx, x, d, lo, hi, b, m - 1);
      var g, last := Nearest(d, lo, hi), idx[m - 1];
      assert idx[..m][..m - 1] == idx[..m - 1];
      if Near(d, last) == x {
        if lo <= last.stage <= hi && last.stage != g {
          SkipHasBridge(kinds, idx, x, d, lo, hi, b, m - 1);
          var z :| z in idx[..m - 1] && Bridge(z, x, g);
          PoolMember(idx[..m - 1], d, x, z);
        }
        LedSnoc(Pool(idx[..m - 1], d, x), last, x, lo, hi, g);
      } else {
        assert Pool(idx[..m], d, x) == Pool(idx[..m - 1], d, x);
      }
    }
  }

  /** Extending a full path of the rest by the solution next to the entry. */
  lemma ExtendFully(d: Direction, z: Solution, p: Path, x: InterfaceState, y: InterfaceState, lo: int, hi: int)
    requires lo <= hi && z.stage == Nearest(d, lo, hi) && Near(d, z) == x
    requires if d.Backward? then ReachesFully(d, p, z.start, y, lo, hi - 1)
             else ReachesFully(d, p, z.end, y, lo + 1, hi)
    ensures ReachesFully(d, Extend(d, z, p), x, y, lo, hi)
  {
  }

  /** Every path of `block` leads where a full one of `before` leads. */
  ghost predicate Backed(before: seq<Path>, block: seq<Path>, d: Direction, x: InterfaceState, lo: int, hi: int) {
    forall p :: p in block ==> exists f :: f in before && ReachesFully(d, f, x, FarState(d, p, x), lo, hi)
  }

  /** Dominance of a longer list of paths, given that of its start and of what follows. */
  lemma DominatedConcat(a: seq<Path>, block: seq<Path>, d: Direction, x: InterfaceState, lo: int, hi: int)
    requires Dominated(a, d, x, lo, hi)
    requires Dominated(block, d, x, lo, hi) || Backed(a, block, d, x, lo, hi)
    ensures Dominated(a + block, d, x, lo, hi)
  {
    var all := a + block;
    forall j | 0 <= j < |all| ensures PrecededByFull(all, j, d, x, lo, hi) {
      if j < |a| {
        assert PrecededByFull(a, j, d, x, lo, hi);
        var i :| 0 <= i <= j && ReachesFully(d, a[i], x, FarState(d, a[j], x), lo, hi);
        assert all[i] == a[i];
      } else if Dominated(block, d, x, lo, hi) {
        var k := j - |a|;
        assert PrecededByFull(block, k, d, x, lo, hi);
        var i :| 0 <= i <= k && ReachesFully(d, block[i], x, FarState(d, block[k], x), lo, hi);
        assert all[|a| + i] == block[i];
      } else {
        assert all[j] in block;
        var f :| f in a && ReachesFully(d, f, x, FarState(d, all[j], x), lo, hi);
        var i :| 0 <= i < |a| && a[i] == f;
        assert all[i] == f;
      }
    }
  }

  /** A full path to where another one leads. */
  lemma PickFull(paths: seq<Path>, p: Path, d: Direction, x: InterfaceState, lo: int, hi: int) returns (f: Path)
    requires Dominated(paths, d, x, lo, hi) && p in paths
    ensures f in paths && ReachesFully(d, f, x, FarState(d, p, x), lo, hi)
  {
    var j :| 0 <= j < |paths| && paths[j] == p;
    assert PrecededByFull(paths, j, d, x, lo, hi);
    var i :| 0 <= i <= j && ReachesFully(d, paths[i], x, FarState(d, p, x), lo, hi);
    f := paths[i];
  }

  /** The far state of an extended path is that of the path it extends. */
  lemma FarOfExtend(d: Direction, s: Solution, rest: Path, x: InterfaceState)
    ensures FarState(d, Extend(d, s, rest), x) == FarState(d, rest, Far(d, s))
  {
  }

  lemma {:induction false} TracesDominated(kinds: seq<InterfaceType>, idx: seq<Solution>, x: InterfaceState,
                                           d: Direction, lo: int, hi: int, b: Solution)
    requires Wired(kinds) && Run(kinds, idx) && 0 <= lo <= hi + 1 <= |kinds|
    requires Entry(idx, b, x, d, lo, hi)
    ensures Dominated(Traces(idx, x, d, lo, hi), d, x, lo, hi)
    decreases hi - lo + 1, 1, 0
  {
    if lo <= hi {
      var pool := Pool(idx, d, x);
      PoolLed(kinds, idx, x, d, lo, hi, b, |idx|);
      assert idx[..|idx|] == idx;
      OverDominated(kinds, idx, x, d, lo, hi, b, |pool|);
      assert pool[..|pool|] == pool;
    } else {
      var none: seq<Path> := [[]];
      assert ReachesFully(d, none[0], x, FarState(d, none[0], x), lo, hi);
      assert PrecededByFull(none, 0, d, x, lo, hi);
    }
  }

  lemma {:induction false} OverDominated(kinds: seq<InterfaceType>, idx: seq<Solution>, x: InterfaceState,
                                         d: Direction, lo: int, hi: int, b: Solution, m: nat)
    requires Wired(kinds) && Run(kinds, idx) && 0 <= lo <= hi < |kinds|
    requires Entry(idx, b, x, d, lo, hi)
    requires m <= |Pool(idx, d, x)| && Led(Pool(idx, d, x), x, lo, hi, Nearest(d, lo, hi))
    ensures Dominated(TracesOver(idx, Pool(idx, d, x)[..m], d, lo, hi), d, x, lo, hi)
    decreases hi - lo + 1, 0, m
  {
    if m > 0 {
      OverDominated(kinds, idx, x, d, lo, hi, b, m - 1);
      NextDominated(kinds, idx, x, d, lo, hi, m - 1);
    }
  }

  lemma {:induction false} NextDominated(kinds: seq<InterfaceType>, idx: seq<Solution>, x: InterfaceState,
                                         d: Direction, lo: int, hi: int, m: nat)
    requires Wired(kinds) && Run(kinds, idx) && 0 <= lo <= hi < |kinds|
    requires m < |Pool(idx, d, x)| && Led(Pool(idx, d, x), x, lo, hi, Nearest(d, lo, hi))
    requires Dominated(TracesOver(idx, Pool(idx, d, x)[..m], d, lo, hi), d, x, lo, hi)
    ensures Dominated(TracesOver(idx, Pool(idx, d, x)[..m + 1], d, lo, hi), d, x, lo, hi)
    decreases hi - lo + 1, 0, 0, 3
  {
    var pool := Pool(idx, d, x);
    var s := pool[m];
    assert pool[..m + 1][..m] == pool[..m];
    if lo <= s.stage <= hi {
      if s.stage == Nearest(d, lo, hi) {
        AdjacentBlock(kinds, idx, x, d, lo, hi, s);
      } else {
        SkippingBlock(kinds, idx, x, d, lo, hi, m);
      }
      DominatedConcat(TracesOver(idx, pool[..m], d, lo, hi), ExtendAll(d, s, TracesBeyond(idx, s, d, lo, hi)),
                      d, x, lo, hi);
    }
  }

  lemma {:induction false} AdjacentBlock(kinds: seq<InterfaceType>, idx: seq<Solution>, x: InterfaceState,
                                         d: Direction, lo: int, hi: int, s: Solution)
    requires Wired(kinds) && Run(kinds, idx) && 0 <= lo <= hi < |kinds|
    requires s in Pool(idx, d, x) && s.stage == Nearest(d, lo, hi)
    ensures Dominated(ExtendAll(d, s, TracesBeyond(idx, s, d, lo, hi)), d, x, lo, hi)
    decreases hi - lo + 1, 0, 0, 2
  {
    PoolMember(idx, d, x, s);
    var beyond := TracesBeyond(idx, s, d, lo, hi);
    var lo', hi' := if d.Backward? then lo else lo + 1, if d.Backward? then hi - 1 else hi;
    TracesDominated(kinds, idx, Far(d, s), d, lo', hi', s);
    var block := ExtendAll(d, s, beyond);
    forall j | 0 <= j < |block| ensures PrecededByFull(block, j, d, x, lo, hi) {
      assert PrecededByFull(beyond, j, d, Far(d, s), lo', hi');
      var y := FarState(d, beyond[j], Far(d, s));
      var i :| 0 <= i <= j && ReachesFully(d, beyond[i], Far(d, s), y, lo', hi');
      FarOfExtend(d, s, beyond[j], x);
      ExtendFully(d, s, beyond[i], x, y, lo, hi);
      assert block[i] == Extend(d, s, beyond[i]);
    }
  }

  /** What continues behind a solution does not depend on the near end of the range. */
  lemma BeyondBackward(idx: seq<Solution>, s: Solution, lo: int, hi: int, wider: int)
    requires lo <= s.stage <= hi <= wider
    ensures TracesBeyond(idx, s, Backward, lo, hi) == TracesBeyond(idx, s, Backward, lo, wider)
  {
  }

  lemma BeyondForward(idx: seq<Solution>, s: Solution, lo: int, hi: int, wider: int)
    requires wider <= lo <= s.stage <= hi
    ensures TracesBeyond(idx, s, Forward, lo, hi) == TracesBeyond(idx, s, Forward, wider, hi)
  {
  }

  /** A path that skips the nearest child is also found without that child in the range. */
  lemma FoundWithoutNearest(idx: seq<Solution>, x: InterfaceState, d: Direction, lo: int, hi: int, s: Solution,
                            rest: Path)
    requires lo <= hi && s in Pool(idx, d, x) && lo <= s.stage <= hi && s.stage != Nearest(d, lo, hi)
    requires rest in TracesBeyond(idx, s, d, lo, hi)
    ensures Extend(d, s, rest) in
              if d.Backward? then Traces(idx, x, d, lo, hi - 1) else Traces(idx, x, d, lo + 1, hi)
  {
    PoolMember(idx, d, x, s);
    if d.Backward? {
      BeyondBackward(idx, s, lo, hi - 1, hi);
      FoundThrough(idx, x, d, lo, hi - 1, s, rest);
    } else {
      BeyondForward(idx, s, lo + 1, hi, lo);
      FoundThrough(idx, x, d, lo + 1, hi, s, rest);
    }
  }

  lemma {:induction false} SkippingBlock(kinds: seq<InterfaceType>, idx: seq<Solution>, x: InterfaceState,
                                         d: Direction, lo: int, hi: int, m: nat)
    requires Wired(kinds) && Run(kinds, idx) && 0 <= lo <= hi < |kinds|
    requires m < |Pool(idx, d, x)| && Led(Pool(idx, d, x), x, lo, hi, Nearest(d, lo, hi))
    requires lo <= Pool(idx, d, x)[m].stage <= hi && Pool(idx, d, x)[m].stage != Nearest(d, lo, hi)
    ensures var s := Pool(idx, d, x)[m];
            Backed(TracesOver(idx, Pool(idx, d, x)[..m], d, lo, hi),
                   ExtendAll(d, s, TracesBeyond(idx, s, d, lo, hi)), d, x, lo, hi)
    decreases hi - lo + 1, 0, 0, 2
  {
    var s := Pool(idx, d, x)[m];
    var beyond := TracesBeyond(idx, s, d, lo, hi);
    var block := ExtendAll(d, s, beyond);
    forall p | p in block
      ensures exists f :: f in TracesOver(idx, Pool(idx, d, x)[..m], d, lo, hi)
                          && ReachesFully(d, f, x, FarState(d, p, x), lo, hi)
    {
      var j :| 0 <= j < |block| && block[j] == p;
      SkippingPath(kinds, idx, x, d, lo, hi, m, beyond[j]);
    }
  }

  /** A path that skips the nearest child was preceded by the one through the bridge. */
  lemma {:induction false} SkippingPath(kinds: seq<InterfaceType>, idx: seq<Solution>, x: InterfaceState,
                                        d: Direction, lo: int, hi: int, m: nat, rest: Path)
    requires Wired(kinds) && Run(kinds, idx) && 0 <= lo <= hi < |kinds|
    requires m < |Pool(idx, d, x)| && Led(Pool(idx, d, x), x, lo, hi, Nearest(d, lo, hi))
    requires var s := Pool(idx, d, x)[m];
      lo <= s.stage <= hi && s.stage != Nearest(d, lo, hi) && rest in TracesBeyond(idx, s, d, lo, hi)
    ensures var p := Extend(d, Pool(idx, d, x)[m], rest);
      exists f :: f in TracesOver(idx, Pool(idx, d, x)[..m], d, lo, hi)
        && ReachesFully(d, f, x, FarState(d, p, x), lo, hi)
    decreases hi - lo + 1, 0, 0, 1
  {
    var pool := Pool(idx, d, x);
    var p := Extend(d, pool[m], rest);
    var z :| z in pool[..m] && Bridge(z, x, Nearest(d, lo, hi));
    PoolMember(idx, d, x, z);
    FoundWithoutNearest(idx, x, d, lo, hi, pool[m], rest);
    var f := ThroughBridge(kinds, idx, x, d, lo, hi, z, p);
    OverIntro(idx, pool[..m], d, lo, hi, z, f);
  }

  lemma {:induction false} ThroughBridge(kinds: seq<InterfaceType>, idx: seq<Solution>, x: InterfaceState,
                                         d: Direction, lo: int, hi: int, z: Solution, p: Path) returns (f: Path)
    requires Wired(kinds) && Run(kinds, idx) && 0 <= lo <= hi < |kinds|
    requires z in idx && Bridge(z, x, Nearest(d, lo, hi))
    requires p in if d.Backward? then Traces(idx, x, d, lo, hi - 1) else Traces(idx, x, d, lo + 1, hi)
    ensures f in TracesBeyond(idx, z, d, lo, hi)
    ensures ReachesFully(d, Extend(d, z, f), x, FarState(d, p, x), lo, hi)
    decreases hi - lo + 1, 0, 0, 0
  {
    var lo', hi' := if d.Backward? then lo else lo + 1, if d.Backward? then hi - 1 else hi;
    TracesDominated(kinds, idx, x, d, lo', hi', z);
    f := PickFull(Traces(idx, x, d, lo', hi'), p, d, x, lo', hi');
    ExtendFully(d, z, f, x, FarState(d, p, x), lo, hi);
  }
}
