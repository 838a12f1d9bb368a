/** Paths of solutions through a serial container: the search the container runs when a
    child emits, and what that search finds. */
module Chains {
  import opened Interfaces

  type Path = seq<Solution>

  /** Every adjacent pair of children joins a writer to a reader. */
  ghost predicate Wired(kinds: seq<InterfaceType>) {
    forall i :: 0 <= i < |kinds| - 1 ==> kinds[i].WritesEnd() != kinds[i + 1].WritesStart()
  }

  /** The child that creates the states at the start of child `i`. */
  function StartWriter(kinds: seq<InterfaceType>, i: nat): int
    requires i < |kinds|
  {
    if kinds[i].WritesStart() then i else i - 1
  }

  /** The child that creates the states at the end of child `i`. */
  function EndWriter(kinds: seq<InterfaceType>, i: nat): int
    requires i < |kinds|
  {
    if kinds[i].WritesEnd() then i else i + 1
  }

  ghost predicate Linked(p: Path) {
    forall j :: 0 <= j < |p| - 1 ==> p[j].end == p[j + 1].start
  }

  /** One solution per child `lo..hi`, in index order. */
  ghost predicate Covers(p: Path, lo: int, hi: int) {
    && |p| == hi - lo + 1
    && forall j :: 0 <= j < |p| ==> p[j].stage == lo + j
  }

  ghost predicate Drawn(p: Path, idx: seq<Solution>) {
    forall j :: 0 <= j < |p| ==> p[j] in idx
  }

  /** A complete chain of the container's children. */
  ghost predicate FullChain(n: nat, idx: seq<Solution>, c: Path) {
    Covers(c, 0, n - 1) && Linked(c) && Drawn(c, idx)
  }

  ghost predicate NoDup<T>(s: seq<T>) {
    forall i, j :: 0 <= i < j < |s| ==> s[i] != s[j]
  }

  // --- what children may emit -------------------------------------------------------

  /** Some earlier solution in `idx` published `x` at the start of child `i`. */
  ghost predicate PublishedAtStart(idx: seq<Solution>, i: int, x: InterfaceState) {
    exists s :: s in idx && s.stage == i && s.start == x
  }

  ghost predicate PublishedAtEnd(idx: seq<Solution>, i: int, x: InterfaceState) {
    exists s :: s in idx && s.stage == i && s.end == x
  }

  /** Child `i` shows `x` at its end; a state it shows at both ends it has published before. A
      container may show a state of one end long before it has a solution that uses it. */
  ghost predicate ReadAtEnd(idx: seq<Solution>, i: int, x: InterfaceState) {
    x.sides != AtStart && (x.sides == OnBoth ==> PublishedAtEnd(idx, i, x))
  }

  ghost predicate ReadAtStart(idx: seq<Solution>, i: int, x: InterfaceState) {
    x.sides != AtEnd && (x.sides == OnBoth ==> PublishedAtStart(idx, i, x))
  }

  /** The states of a solution belong to the writers of its edges, and a state that was
      read is one the neighbour shows on that side. */
  ghost predicate Sourced(kinds: seq<InterfaceType>, idx: seq<Solution>, s: Solution) {
    && 0 <= s.stage < |kinds|
    && s.start.writer == StartWriter(kinds, s.stage)
    && s.end.writer == EndWriter(kinds, s.stage)
    && (!kinds[s.stage].WritesStart() && s.stage > 0 ==>
          ReadAtEnd(idx, s.stage - 1, s.start))
    && (!kinds[s.stage].WritesEnd() && s.stage < |kinds| - 1 ==>
          ReadAtStart(idx, s.stage + 1, s.end))
  }

  /** A state a child shows at both its ends belongs to zero-length solutions only. */
  ghost predicate ZeroLengthPair(s: Solution, t: Solution) {
    s.stage == t.stage && s.start == t.end ==> s.start == s.end && t.start == t.end
  }

  /** What a child guarantees about the next solution it emits after `idx`. */
  ghost predicate Admissible(kinds: seq<InterfaceType>, idx: seq<Solution>, s: Solution) {
    && Sourced(kinds, idx, s)
    && ZeroLengthPair(s, s)
    && forall t :: t in idx && t.stage == s.stage ==>
         t.KeyPair() != s.KeyPair() && ZeroLengthPair(s, t) && ZeroLengthPair(t, s)
  }

  /** A run: every arrival is admissible after the ones before it. */
  ghost predicate Run(kinds: seq<InterfaceType>, idx: seq<Solution>) {
    idx == [] || (Run(kinds, idx[..|idx| - 1]) && Admissible(kinds, idx[..|idx| - 1], idx[|idx| - 1]))
  }

  // --- the search --------------------------------------------------------------------

  /** The side of `s` the search enters by, and the one it leaves by. */
  function Near(d: Direction, s: Solution): InterfaceState {
    if d.Backward? then s.end else s.start
  }

  function Far(d: Direction, s: Solution): InterfaceState {
    if d.Backward? then s.start else s.end
  }

  /** Arrivals that touch `x` with their near side, in arrival order. */
  function Pool(idx: seq<Solution>, d: Direction, x: InterfaceState): seq<Solution> {
    if idx == [] then []
    else
      var last := idx[|idx| - 1];
      Pool(idx[..|idx| - 1], d, x) + if Near(d, last) == x then [last] else []
  }

  function Extend(d: Direction, s: Solution, rest: Path): Path {
    if d.Backward? then rest + [s] else [s] + rest
  }

  function ExtendAll(d: Direction, s: Solution, rests: seq<Path>): (r: seq<Path>)
    ensures |r| == |rests|
    ensures forall j :: 0 <= j < |r| ==> r[j] == Extend(d, s, rests[j])
  {
    seq(|rests|, j requires 0 <= j < |rests| => Extend(d, s, rests[j]))
  }

  /** The paths the container finds between children `lo..hi` through `x`. The guard lets
      a path enter at any child of the range, as the container's own guard does. */
  function Traces(idx: seq<Solution>, x: InterfaceState, d: Direction, lo: int, hi: int): seq<Path>
    decreases if lo > hi then 0 else hi - lo + 1, 1, 0
  {
    if lo > hi then [[]] else TracesOver(idx, Pool(idx, d, x), d, lo, hi)
  }

  function TracesOver(idx: seq<Solution>, pool: seq<Solution>, d: Direction, lo: int, hi: int): seq<Path>
    requires lo <= hi
    decreases hi - lo + 1, 0, |pool|
  {
    if pool == [] then []
    else
      var s := pool[|pool| - 1];
      var before := TracesOver(idx, pool[..|pool| - 1], d, lo, hi);
      if lo <= s.stage <= hi then
        before + ExtendAll(d, s, TracesBeyond(idx, s, d, lo, hi))
      else before
  }

  /** The paths that continue on the far side of `s`. */
  function TracesBeyond(idx: seq<Solution>, s: Solution, d: Direction, lo: int, hi: int): seq<Path>
    requires lo <= s.stage <= hi
    decreases hi - lo + 1, 0, 0
  {
    if d.Backward? then Traces(idx, s.start, d, lo, s.stage - 1)
    else Traces(idx, s.end, d, s.stage + 1, hi)
  }
}
