/** Keys that do not identify states: as long as they carry through the stages, deduplication loses
    no solvable task. */
module CarriedKeys {
  import opened Interfaces
  import opened Chains
  import opened Search
  import opened SearchLemmas
  import opened Network

  // ---- the states stages can write, without deduplication ----

  ghost predicate WrittenEnd(p: Problem, i: nat, x: InterfaceState)
    requires i < |p.kinds|
    decreases i
  {
    match p.kinds[i]
    case Generator => exists d :: d in p.generate(i) && x == Made(i, OnBoth, d)
    case PropagatorForward => i > 0 && exists w :: WrittenEnd(p, i - 1, w) && Step(p, i, w, x)
    case _ => false
  }

  ghost predicate WrittenStart(p: Problem, i: nat, x: InterfaceState)
    requires i < |p.kinds|
    decreases |p.kinds| - i
  {
    match p.kinds[i]
    case Generator => exists d :: d in p.generate(i) && x == Made(i, OnBoth, d)
    case PropagatorBackward => i < |p.kinds| - 1 && exists w :: WrittenStart(p, i + 1, w) && Step(p, i, x, w)
    case _ => false
  }

  // ---- keys carry ----

  ghost predicate ForwardTo(p: Problem, i: nat, w: InterfaceState, k: Key)
    requires i < |p.kinds|
  {
    exists y :: Step(p, i, w, y) && y.key == k
  }

  ghost predicate BackwardTo(p: Problem, i: nat, w: InterfaceState, k: Key)
    requires i < |p.kinds|
  {
    exists x :: Step(p, i, x, w) && x.key == k
  }

  ghost predicate BothEnds(p: Problem, i: nat, v: InterfaceState, w: InterfaceState)
    requires i < |p.kinds|
  {
    WrittenEnd(p, i, v) && WrittenEnd(p, i, w)
  }

  ghost predicate BothStarts(p: Problem, i: nat, v: InterfaceState, w: InterfaceState)
    requires i < |p.kinds|
  {
    WrittenStart(p, i, v) && WrittenStart(p, i, w)
  }

  /** The stages up to `i` are a generator and what it sends forward: nothing is left of the source. */
  predicate FirstFlow(p: Problem, i: nat)
    requires i < |p.kinds|
  {
    p.kinds[0].Generator? && forall k :: 0 < k <= i ==> p.kinds[k].PropagatorForward?
  }

  /** The stages from `i` on are a generator and what it sends backward: nothing is right of the source. */
  predicate LastFlow(p: Problem, i: nat)
    requires i < |p.kinds|
  {
    p.kinds[|p.kinds| - 1].Generator? && forall k :: i <= k < |p.kinds| - 1 ==> p.kinds[k].PropagatorBackward?
  }

  /** From states of one key the stage gets to the same keys, and from states of two to no common one
      unless nothing is left of their source. */
  ghost predicate ForwardCarries(p: Problem, i: nat)
    requires 0 < i < |p.kinds|
  {
    forall v, w, k :: BothEnds(p, i - 1, v, w) && ForwardTo(p, i, v, k) ==>
                        if ForwardTo(p, i, w, k) then v.key == w.key || FirstFlow(p, i) else v.key != w.key
  }

  ghost predicate BackwardCarries(p: Problem, i: nat)
    requires i < |p.kinds| - 1
  {
    forall v, w, k :: BothStarts(p, i + 1, v, w) && BackwardTo(p, i, v, k) ==>
                        if BackwardTo(p, i, w, k) then v.key == w.key || LastFlow(p, i) else v.key != w.key
  }

  /** Whether the stage connects two states depends on their keys. */
  ghost predicate ConnectCarries(p: Problem, i: nat)
    requires 0 < i < |p.kinds| - 1
  {
    forall s, t, e, f ::
      BothEnds(p, i - 1, s, t) && BothStarts(p, i + 1, e, f) && s.key == t.key && e.key == f.key ==>
        (Step(p, i, s, e) <==> Step(p, i, t, f))
  }

  ghost predicate StageCarries(p: Problem, i: nat)
    requires i < |p.kinds|
  {
    match p.kinds[i]
    case Generator => true
    case PropagatorForward => i > 0 ==> ForwardCarries(p, i)
    case PropagatorBackward => i < |p.kinds| - 1 ==> BackwardCarries(p, i)
    case Connecting => 0 < i < |p.kinds| - 1 ==> ConnectCarries(p, i)
  }

  ghost predicate KeysCarry(p: Problem) {
    forall i :: 0 <= i < |p.kinds| ==> StageCarries(p, i)
  }

  // ---- what the engine lists is written, and what a way through passes is too ----

  lemma {:induction false} ListedEnds(p: Problem, i: nat, x: InterfaceState)
    requires Resolved(p.kinds) && i < |p.kinds| && x in EndsOf(p, i)
    ensures WrittenEnd(p, i, x)
    decreases i
  {
    var work := Work(p, i, InStart(p, i), InEnd(p, i));
    WritesItsFlow(p, i);
    var j :| 0 <= j < |EndsOf(p, i)| && EndsOf(p, i)[j] == x;
    WorkSteps(p, i, InStart(p, i), InEnd(p, i), work[j]);
    if p.kinds[i].PropagatorForward? {
      PushAllMember(EndsOf(p, i - 1), work[j].start);
      ListedEnds(p, i - 1, work[j].start);
    }
  }

  lemma {:induction false} ListedStarts(p: Problem, i: nat, x: InterfaceState)
    requires Resolved(p.kinds) && i < |p.kinds| && x in StartsOf(p, i)
    ensures WrittenStart(p, i, x)
    decreases |p.kinds| - i
  {
    var work := Work(p, i, InStart(p, i), InEnd(p, i));
    WritesItsFlow(p, i);
    var j :| 0 <= j < |StartsOf(p, i)| && StartsOf(p, i)[j] == x;
    WorkSteps(p, i, InStart(p, i), InEnd(p, i), work[j]);
    if p.kinds[i].PropagatorBackward? {
      PushAllMember(StartsOf(p, i + 1), work[j].end);
      ListedStarts(p, i + 1, work[j].end);
    }
  }

  lemma {:induction false} PassedEnds(p: Problem, xs: seq<InterfaceState>, i: nat)
    requires Resolved(p.kinds) && CompleteChain(p, xs) && i < |p.kinds| && p.kinds[i].WritesEnd()
    ensures WrittenEnd(p, i, xs[i + 1])
    decreases i
  {
    assert Step(p, i, xs[i], xs[i + 1]);
    if p.kinds[i].PropagatorForward? {
      assert p.kinds[i - 1].WritesEnd() != p.kinds[(i - 1) + 1].WritesStart();
      PassedEnds(p, xs, i - 1);
    }
  }

  lemma {:induction false} PassedStarts(p: Problem, xs: seq<InterfaceState>, i: nat)
    requires Resolved(p.kinds) && CompleteChain(p, xs) && i < |p.kinds| && p.kinds[i].WritesStart()
    ensures WrittenStart(p, i, xs[i])
    decreases |p.kinds| - i
  {
    assert Step(p, i, xs[i], xs[i + 1]);
    if p.kinds[i].PropagatorBackward? {
      assert p.kinds[i].WritesEnd() != p.kinds[i + 1].WritesStart();
      PassedStarts(p, xs, i + 1);
    }
  }

  // ---- the delivered state of each key of a way through ----

  /** Between stages `j - 1` and `j` the left one writes. */
  predicate FromLeft(p: Problem, j: nat)
    requires j <= |p.kinds|
  {
    j > 0 && p.kinds[j - 1].WritesEnd()
  }

  /** `r` is delivered between stages `j - 1` and `j`, with the key of the way's state there. */
  ghost predicate Stands(p: Problem, xs: seq<InterfaceState>, j: nat, r: InterfaceState)
    requires j <= |p.kinds| && |xs| == |p.kinds| + 1
  {
    && r.key == xs[j].key
    && if FromLeft(p, j) then r in PushAll([], EndsOf(p, j - 1)) else j < |p.kinds| && r in PushAll([], StartsOf(p, j))
  }

  lemma SameDelivered(ys: seq<InterfaceState>, r: InterfaceState, q: InterfaceState)
    requires r in PushAll([], ys) && q in PushAll([], ys) && r.key == q.key
    ensures r == q
  {
    PushAllDistinct(ys);
    var a :| 0 <= a < |PushAll([], ys)| && PushAll([], ys)[a] == r;
    var b :| 0 <= b < |PushAll([], ys)| && PushAll([], ys)[b] == q;
    assert a < b ==> r.key != q.key;
    assert b < a ==> q.key != r.key;
  }

  /** The writer between two stages, and what a delivered state was written by. */
  lemma StandsWritten(p: Problem, xs: seq<InterfaceState>, j: nat, r: InterfaceState)
    requires Resolved(p.kinds) && CompleteChain(p, xs) && j <= |p.kinds| && Stands(p, xs, j, r)
    ensures FromLeft(p, j) ==> BothEnds(p, j - 1, xs[j], r)
    ensures !FromLeft(p, j) ==> j < |p.kinds| && p.kinds[j].WritesStart() && BothStarts(p, j, xs[j], r)
    ensures FromLeft(p, j) && j < |p.kinds| ==> !p.kinds[j].WritesStart()
  {
    if 0 < j < |p.kinds| {
      assert p.kinds[j - 1].WritesEnd() != p.kinds[(j - 1) + 1].WritesStart();
    }
    if FromLeft(p, j) {
      PushAllMember(EndsOf(p, j - 1), r);
      ListedEnds(p, j - 1, r);
      PassedEnds(p, xs, j - 1);
    } else {
      PushAllMember(StartsOf(p, j), r);
      ListedStarts(p, j, r);
      PassedStarts(p, xs, j);
    }
  }

  lemma Represented(ys: seq<InterfaceState>, y: InterfaceState) returns (r: InterfaceState)
    requires y in ys
    ensures r in PushAll([], ys) && r.key == y.key
  {
    PushAllKeys(ys, y);
    r :| r in PushAll([], ys) && r.key == y.key;
  }

  lemma {:induction false} EndStands(p: Problem, xs: seq<InterfaceState>, i: nat) returns (r: InterfaceState)
    requires Resolved(p.kinds) && KeysCarry(p) && CompleteChain(p, xs) && i < |p.kinds| && p.kinds[i].WritesEnd()
    ensures Stands(p, xs, i + 1, r)
    decreases i
  {
    assert Step(p, i, xs[i], xs[i + 1]);
    var x, y := xs[i], xs[i + 1];
    if p.kinds[i].PropagatorForward? {
      assert p.kinds[i - 1].WritesEnd() != p.kinds[(i - 1) + 1].WritesStart();
      x := EndStands(p, xs, i - 1);
      StandsWritten(p, xs, i, x);
      assert StageCarries(p, i) && ForwardTo(p, i, xs[i], y.key);
      y :| Step(p, i, x, y) && y.key == xs[i + 1].key;
    }
    StepsWork(p, i, InStart(p, i), InEnd(p, i), x, y);
    EndWritten(Work(p, i, InStart(p, i), InEnd(p, i)), x, y);
    WritesItsFlow(p, i);
    r := Represented(EndsOf(p, i), y);
  }

  lemma {:induction false} StartStands(p: Problem, xs: seq<InterfaceState>, i: nat) returns (r: InterfaceState)
    requires Resolved(p.kinds) && KeysCarry(p) && CompleteChain(p, xs) && i < |p.kinds| && p.kinds[i].WritesStart()
    ensures Stands(p, xs, i, r)
    decreases |p.kinds| - i
  {
    assert Step(p, i, xs[i], xs[i + 1]);
    if i > 0 {
      assert p.kinds[i - 1].WritesEnd() != p.kinds[(i - 1) + 1].WritesStart();
    }
    var x, y := xs[i], xs[i + 1];
    if p.kinds[i].PropagatorBackward? {
      assert p.kinds[i].WritesEnd() != p.kinds[i + 1].WritesStart();
      y := StartStands(p, xs, i + 1);
      StandsWritten(p, xs, i + 1, y);
      assert StageCarries(p, i) && BackwardTo(p, i, xs[i + 1], x.key);
      x :| Step(p, i, x, y) && x.key == xs[i].key;
    }
    StepsWork(p, i, InStart(p, i), InEnd(p, i), x, y);
    EndWritten(Work(p, i, InStart(p, i), InEnd(p, i)), x, y);
    WritesItsFlow(p, i);
    r := Represented(StartsOf(p, i), x);
  }

  // ---- the delivered states are linked by emissions ----

  ghost predicate Emitted(p: Problem, i: nat, r: InterfaceState, q: InterfaceState)
    requires i < |p.kinds|
  {
    exists t :: t in Emissions(p, i) && t.start == r && t.end == q
  }

  lemma GeneratorEmits(p: Problem, xs: seq<InterfaceState>, i: nat, r: InterfaceState, q: InterfaceState)
    requires Resolved(p.kinds) && CompleteChain(p, xs) && i < |p.kinds| && p.kinds[i].Generator?
    requires Stands(p, xs, i, r) && Stands(p, xs, i + 1, q)
    ensures Emitted(p, i, r, q)
  {
    var work := Work(p, i, InStart(p, i), InEnd(p, i));
    assert Step(p, i, xs[i], xs[i + 1]);
    StandsWritten(p, xs, i, r);
    WritesItsFlow(p, i);
    assert StartsIn(work) == EndsIn(work) by {
      forall j | 0 <= j < |work| ensures work[j].start == work[j].end {
        WorkSteps(p, i, InStart(p, i), InEnd(p, i), work[j]);
      }
    }
    SameDelivered(EndsOf(p, i), r, q);
    PushedEndsEmitted(work, q);
    var t :| t in EmitOnto([], work) && t.end == q;
    EmitMember(work, t);
    WorkSteps(p, i, InStart(p, i), InEnd(p, i), t);
  }

  lemma ForwardEmits(p: Problem, xs: seq<InterfaceState>, i: nat, r: InterfaceState, q: InterfaceState)
    requires Resolved(p.kinds) && KeysCarry(p) && CompleteChain(p, xs) && i < |p.kinds| && p.kinds[i].PropagatorForward?
    requires !FirstFlow(p, i)
    requires Stands(p, xs, i, r) && Stands(p, xs, i + 1, q)
    ensures Emitted(p, i, r, q)
  {
    var work := Work(p, i, InStart(p, i), InEnd(p, i));
    assert Step(p, i, xs[i], xs[i + 1]);
    StandsWritten(p, xs, i, r);
    WritesItsFlow(p, i);
    PushedEndsEmitted(work, q);
    var t :| t in EmitOnto([], work) && t.end == q;
    EmitMember(work, t);
    WorkSteps(p, i, InStart(p, i), InEnd(p, i), t);
    PushAllMember(EndsOf(p, i - 1), t.start);
    ListedEnds(p, i - 1, t.start);
    assert StageCarries(p, i) && ForwardTo(p, i, xs[i], q.key) && ForwardTo(p, i, t.start, q.key);
    assert BothEnds(p, i - 1, xs[i], t.start);
    SameDelivered(EndsOf(p, i - 1), r, t.start);
  }

  lemma BackwardEmits(p: Problem, xs: seq<InterfaceState>, i: nat, r: InterfaceState, q: InterfaceState)
    requires Resolved(p.kinds) && KeysCarry(p) && CompleteChain(p, xs)
    requires i < |p.kinds| && p.kinds[i].PropagatorBackward? && !LastFlow(p, i)
    requires Stands(p, xs, i, r) && Stands(p, xs, i + 1, q)
    ensures Emitted(p, i, r, q)
  {
    var work := Work(p, i, InStart(p, i), InEnd(p, i));
    assert Step(p, i, xs[i], xs[i + 1]);
    StandsWritten(p, xs, i, r);
    StandsWritten(p, xs, i + 1, q);
    WritesItsFlow(p, i);
    PushedStartsEmitted(work, r);
    var t :| t in EmitOnto([], work) && t.start == r;
    EmitMember(work, t);
    WorkSteps(p, i, InStart(p, i), InEnd(p, i), t);
    PushAllMember(StartsOf(p, i + 1), t.end);
    ListedStarts(p, i + 1, t.end);
    assert StageCarries(p, i) && BackwardTo(p, i, xs[i + 1], r.key) && BackwardTo(p, i, t.end, r.key);
    assert BothStarts(p, i + 1, xs[i + 1], t.end);
    SameDelivered(StartsOf(p, i + 1), q, t.end);
  }

  lemma ConnectEmits(p: Problem, xs: seq<InterfaceState>, i: nat, r: InterfaceState, q: InterfaceState)
    requires Resolved(p.kinds) && KeysCarry(p) && CompleteChain(p, xs) && i < |p.kinds| && p.kinds[i].Connecting?
    requires Stands(p, xs, i, r) && Stands(p, xs, i + 1, q)
    ensures Emitted(p, i, r, q)
  {
    var ss, es := InStart(p, i), InEnd(p, i);
    var work := Work(p, i, ss, es);
    assert Step(p, i, xs[i], xs[i + 1]);
    StandsWritten(p, xs, i, r);
    StandsWritten(p, xs, i + 1, q);
    assert StageCarries(p, i);
    assert Step(p, i, r, q);
    StepsWork(p, i, ss, es, r, q);
    var s :| s in work && s.start == r && s.end == q;
    EmitKeys(work, s);
    var t :| t in EmitOnto([], work) && t.KeyPair() == s.KeyPair();
    EmitMember(work, t);
    WorkSteps(p, i, ss, es, t);
    SameDelivered(EndsOf(p, i - 1), r, t.start);
    SameDelivered(StartsOf(p, i + 1), q, t.end);
  }

  lemma BoundaryStands(p: Problem, xs: seq<InterfaceState>, j: nat) returns (r: InterfaceState)
    requires Resolved(p.kinds) && KeysCarry(p) && CompleteChain(p, xs) && j <= |p.kinds|
    ensures Stands(p, xs, j, r)
  {
    if FromLeft(p, j) {
      r := EndStands(p, xs, j - 1);
    } else {
      if j > 0 {
        assert p.kinds[j - 1].WritesEnd() != p.kinds[(j - 1) + 1].WritesStart();
      }
      r := StartStands(p, xs, j);
    }
  }

  lemma StageEmits(p: Problem, xs: seq<InterfaceState>, i: nat, r: InterfaceState, q: InterfaceState)
    requires Resolved(p.kinds) && KeysCarry(p) && CompleteChain(p, xs) && i < |p.kinds|
    requires !FirstFlow(p, i) && !LastFlow(p, i)
    requires Stands(p, xs, i, r) && Stands(p, xs, i + 1, q)
    ensures Emitted(p, i, r, q)
  {
    match p.kinds[i]
    case Generator => GeneratorEmits(p, xs, i, r, q);
    case PropagatorForward => ForwardEmits(p, xs, i, r, q);
    case PropagatorBackward => BackwardEmits(p, xs, i, r, q);
    case Connecting => ConnectEmits(p, xs, i, r, q);
  }

  /** Member `i` is in list `i`. */
  ghost predicate InOrder(lists: seq<seq<Solution>>, c: Path) {
    |c| <= |lists| && forall i :: 0 <= i < |c| ==> c[i] in lists[i]
  }

  lemma InOrderSnoc(lists: seq<seq<Solution>>, c: Path, t: Solution)
    requires InOrder(lists, c) && |c| < |lists| && t in lists[|c|]
    requires Linked(c) && (c != [] ==> c[|c| - 1].end == t.start)
    ensures InOrder(lists, c + [t]) && Linked(c + [t])
  {
  }

  /** What each stage emits. */
  ghost predicate AreEmissions(p: Problem, lists: seq<seq<Solution>>) {
    |lists| == |p.kinds| && forall i :: 0 <= i < |lists| ==> lists[i] == Emissions(p, i)
  }

  /** What the first flow delivers was emitted along it. */
  lemma {:induction false} TraceBack(p: Problem, lists: seq<seq<Solution>>, m: nat, r: InterfaceState)
    returns (c: Path)
    requires Resolved(p.kinds) && AreEmissions(p, lists) && 0 < m <= |p.kinds| && FirstFlow(p, m - 1)
    requires r in PushAll([], EndsOf(p, m - 1))
    ensures |c| == m && Linked(c) && InOrder(lists, c) && c[m - 1].end == r
  {
    var work := Work(p, m - 1, InStart(p, m - 1), InEnd(p, m - 1));
    WritesItsFlow(p, m - 1);
    PushedEndsEmitted(work, r);
    var t :| t in EmitOnto([], work) && t.end == r;
    var init: Path := [];
    if m > 1 {
      EmitMember(work, t);
      WorkSteps(p, m - 1, InStart(p, m - 1), InEnd(p, m - 1), t);
      init := TraceBack(p, lists, m - 1, t.start);
    }
    InOrderSnoc(lists, init, t);
    c := init + [t];
  }

  /** Member `k` is in list `m + k`. */
  ghost predicate InOrderFrom(lists: seq<seq<Solution>>, m: nat, c: Path) {
    m + |c| <= |lists| && forall k :: 0 <= k < |c| ==> c[k] in lists[m + k]
  }

  lemma InOrderCons(lists: seq<seq<Solution>>, m: nat, t: Solution, c: Path)
    requires InOrderFrom(lists, m + 1, c) && m < |lists| && t in lists[m]
    requires Linked(c) && (c != [] ==> t.end == c[0].start)
    ensures InOrderFrom(lists, m, [t] + c) && Linked([t] + c)
  {
    var e := [t] + c;
    forall k | 0 <= k < |e| ensures e[k] in lists[m + k] {
      if k > 0 {
        assert e[k] == c[k - 1] && c[k - 1] in lists[m + 1 + (k - 1)];
      }
    }
  }

  lemma InOrderJoined(lists: seq<seq<Solution>>, c: Path, d: Path)
    requires InOrder(lists, c) && InOrderFrom(lists, |c|, d) && Linked(c) && Linked(d)
    requires c != [] && d != [] ==> c[|c| - 1].end == d[0].start
    ensures InOrder(lists, c + d) && Linked(c + d)
  {
    var e := c + d;
    forall k | 0 <= k < |e| ensures e[k] in lists[k] {
      if k >= |c| {
        assert e[k] == d[k - |c|] && d[k - |c|] in lists[|c| + (k - |c|)];
      }
    }
  }

  /** What the last flow delivers was emitted along it. */
  lemma {:induction false} TraceOn(p: Problem, lists: seq<seq<Solution>>, m: nat, r: InterfaceState)
    returns (c: Path)
    requires Resolved(p.kinds) && AreEmissions(p, lists) && m < |p.kinds| && LastFlow(p, m)
    requires r in PushAll([], StartsOf(p, m))
    ensures |c| == |p.kinds| - m && Linked(c) && InOrderFrom(lists, m, c) && c[0].start == r
    decreases |p.kinds| - m
  {
    var work := Work(p, m, InStart(p, m), InEnd(p, m));
    WritesItsFlow(p, m);
    PushedStartsEmitted(work, r);
    var t :| t in EmitOnto([], work) && t.start == r;
    var rest: Path := [];
    if m < |p.kinds| - 1 {
      EmitMember(work, t);
      WorkSteps(p, m, InStart(p, m), InEnd(p, m), t);
      rest := TraceOn(p, lists, m + 1, t.end);
    }
    InOrderCons(lists, m, t, rest);
    c := [t] + rest;
  }

  /** The emissions of the first `m` stages along the delivered states, up to `r`. */
  lemma {:induction false} LinkStages(p: Problem, lists: seq<seq<Solution>>, xs: seq<InterfaceState>, m: nat)
    returns (c: Path, r: InterfaceState)
    requires Resolved(p.kinds) && KeysCarry(p) && CompleteChain(p, xs) && m <= |p.kinds| && AreEmissions(p, lists)
    requires m > 0 ==> !LastFlow(p, m - 1)
    ensures |c| == m && Linked(c) && InOrder(lists, c) && (m > 0 ==> c[m - 1].end == r)
    ensures Stands(p, xs, m, r)
  {
    r := BoundaryStands(p, xs, m);
    if m == 0 {
      c := [];
    } else if FirstFlow(p, m - 1) {
      c := TraceBack(p, lists, m, r);
    } else {
      var init, q := LinkStages(p, lists, xs, m - 1);
      StageEmits(p, xs, m - 1, q, r);
      var t :| t in Emissions(p, m - 1) && t.start == q && t.end == r;
      InOrderSnoc(lists, init, t);
      c := init + [t];
    }
  }

  /** Where the last flow begins, if there is one. */
  lemma {:induction false} FlowBegins(p: Problem, m: nat) returns (k: nat)
    requires m <= |p.kinds| && (m < |p.kinds| ==> LastFlow(p, m))
    ensures k <= m && (k > 0 ==> !LastFlow(p, k - 1)) && (k < |p.kinds| ==> LastFlow(p, k))
  {
    k := m;
    if m > 0 && LastFlow(p, m - 1) {
      k := FlowBegins(p, m - 1);
    }
  }

  /** What a state delivered where the last flow begins was emitted along. */
  lemma TraceRest(p: Problem, lists: seq<seq<Solution>>, xs: seq<InterfaceState>, m: nat, r: InterfaceState)
    returns (d: Path)
    requires Resolved(p.kinds) && CompleteChain(p, xs) && AreEmissions(p, lists) && m <= |p.kinds|
    requires Stands(p, xs, m, r) && (m < |p.kinds| ==> LastFlow(p, m))
    ensures |d| == |p.kinds| - m && Linked(d) && InOrderFrom(lists, m, d) && (d != [] ==> d[0].start == r)
  {
    d := [];
    if m < |p.kinds| {
      StandsWritten(p, xs, m, r);
      d := TraceOn(p, lists, m, r);
    }
  }

  lemma InOrderSurvives(p: Problem, lists: seq<seq<Solution>>, c: Path)
    requires AreEmissions(p, lists) && |c| == |p.kinds| && InOrder(lists, c) && Linked(c)
    ensures SurvivingChain(p, c)
  {
  }

  lemma WaySurvives(p: Problem, lists: seq<seq<Solution>>, xs: seq<InterfaceState>) returns (c: Path)
    requires Resolved(p.kinds) && KeysCarry(p) && CompleteChain(p, xs) && AreEmissions(p, lists)
    ensures SurvivingChain(p, c)
  {
    var m := FlowBegins(p, |p.kinds|);
    var init, r := LinkStages(p, lists, xs, m);
    var rest := TraceRest(p, lists, xs, m, r);
    InOrderJoined(lists, init, rest);
    c := init + rest;
    InOrderSurvives(p, lists, c);
  }

  /** Where keys carry through the stages, a task that can be solved at all has a way through made of
      emissions none of which deduplication has dropped, even if states share keys. */
  lemma CarriedKeysSurvive(p: Problem)
    requires Resolved(p.kinds) && KeysCarry(p)
    ensures Solvable(p) <==> Survives(p)
  {
    if xs :| CompleteChain(p, xs) {
      var lists := seq(|p.kinds|, i requires 0 <= i < |p.kinds| => Emissions(p, i));
      var c := WaySurvives(p, lists, xs);
    }
    if c :| SurvivingChain(p, c) {
      SurvivorSolves(p, c);
    }
  }
}
