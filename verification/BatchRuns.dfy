/** Batched and unbatched alternatives over whole runs, and exactly when one batched pass passes on
    the states the unbatched pass does. */
module BatchRuns {
  import opened Interfaces
  import opened Search
  import opened SearchLemmas
  import opened Batches

  // ---- runs ----

  /** What happens to the container: a state arrives, or it is computed. */
  datatype Turn = Arrive(s: InterfaceState) | Pass

  function Took(setup: Setup, c: Container, turn: Turn, batched: bool): (r: Container)
    requires Fits(setup, c)
    ensures Fits(setup, r)
  {
    match turn
    case Arrive(s) => c.(startPull := Push(c.startPull, s))
    case Pass =>
      if batched then Batched(setup, Feed(setup, c)) else Sequential(setup, Feed(setup, c), |c.children|)
  }

  function TookAll(setup: Setup, c: Container, turns: seq<Turn>, batched: bool): (r: Container)
    requires Fits(setup, c)
    ensures Fits(setup, r)
  {
    if turns == [] then c
    else Took(setup, TookAll(setup, c, turns[..|turns| - 1], batched), turns[|turns| - 1], batched)
  }

  /** A child's run does not look at what the container has written. */
  lemma RunChildCore(setup: Setup, c: Container, d: Container, k: nat)
    requires Fits(setup, c) && Fits(setup, d) && Core(c) == Core(d) && k < |c.children|
    ensures k < |d.children| && Core(RunChild(setup, c, k)) == Core(RunChild(setup, d, k))
  {
    assert c.children == Core(c).children == Core(d).children == d.children;
    if c.children[k].pull != [] {
      RunCore(setup, d, c, k);
      RunCore(setup, d, d, k);
    }
  }

  /** After the first `i` children the two containers are alike up to what they have written. */
  ghost predicate AlikeUpTo(setup: Setup, c: Container, d: Container, i: nat)
    requires Fits(setup, c) && Fits(setup, d) && i <= |c.children| == |d.children|
  {
    Core(Sequential(setup, c, i)) == Core(Sequential(setup, d, i))
  }

  lemma NextAlike(setup: Setup, c: Container, d: Container, i: nat)
    requires Fits(setup, c) && Fits(setup, d) && i < |c.children| == |d.children| && AlikeUpTo(setup, c, d, i)
    ensures AlikeUpTo(setup, c, d, i + 1)
  {
    NextSequential(setup, c, i);
    NextSequential(setup, d, i);
    RunChildCore(setup, Sequential(setup, c, i), Sequential(setup, d, i), i);
  }

  lemma {:induction false} SequentialCore(setup: Setup, c: Container, d: Container, i: nat)
    requires Fits(setup, c) && Fits(setup, d) && Core(c) == Core(d) && i <= |c.children| == |d.children|
    ensures AlikeUpTo(setup, c, d, i)
  {
    if i > 0 {
      SequentialCore(setup, c, d, i - 1);
      NextAlike(setup, c, d, i - 1);
    }
  }

  lemma FeedCore(setup: Setup, c: Container, d: Container)
    requires Fits(setup, c) && Fits(setup, d) && Core(c) == Core(d)
    ensures Core(Feed(setup, c)) == Core(Feed(setup, d)) && |c.children| == |d.children|
  {
    assert c == d.(ends := c.ends) by {
      assert c == Core(c).(ends := c.ends);
    }
  }

  lemma TookCore(setup: Setup, c: Container, d: Container, turn: Turn)
    requires Fits(setup, c) && Fits(setup, d) && Core(c) == Core(d)
    ensures Core(Took(setup, c, turn, true)) == Core(Took(setup, d, turn, false))
  {
    if turn.Pass? {
      FeedCore(setup, c, d);
      BatchingRefines(setup, Feed(setup, c));
      var n := |c.children|;
      SequentialCore(setup, Feed(setup, c), Feed(setup, d), n);
      assert AlikeUpTo(setup, Feed(setup, c), Feed(setup, d), n);
    } else {
      assert c.startPull == Core(c).startPull == Core(d).startPull == d.startPull;
      assert Core(Took(setup, c, turn, true)) == Core(c).(startPull := Push(c.startPull, turn.s));
    }
  }

  /** Over every run of arrivals and passes, batching leaves every child and the container's solutions
      as they are without it, although what the container has written differs on the way. */
  lemma {:induction false} BatchedRunsRefine(setup: Setup, c: Container, turns: seq<Turn>)
    requires Fits(setup, c)
    ensures Core(TookAll(setup, c, turns, true)) == Core(TookAll(setup, c, turns, false))
  {
    if turns != [] {
      var before := turns[..|turns| - 1];
      BatchedRunsRefine(setup, c, before);
      TookCore(setup, TookAll(setup, c, before, true), TookAll(setup, c, before, false), turns[|turns| - 1]);
    }
  }

  // ---- what one pass writes ----

  /** The end states that the results of some requests give. */
  function Written(setup: Setup, stage: MotionStage, jobs: seq<Job>): seq<InterfaceState> {
    if jobs == [] then [] else
    var job := jobs[|jobs| - 1];
    var result := setup.plan(job.request);
    Written(setup, stage, jobs[..|jobs| - 1])
    + if result.success && stage.finish(job.start, result).Some? then [stage.finish(job.start, result).value] else []
  }

  /** What child `k` newly writes in a pass; a child without requests writes nothing. */
  function NewEnds(setup: Setup, c: Container, k: nat): seq<InterfaceState>
    requires Fits(setup, c) && k < |c.children|
  {
    Written(setup, setup.stages[k], JobsOf(setup.stages[k], k, c.children[k].pull))
  }

  lemma {:induction false} AloneWrites(setup: Setup, stage: MotionStage, child: Child, jobs: seq<Job>)
    ensures Alone(setup, stage, child, jobs).ends == child.ends + Written(setup, stage, jobs)
  {
    if jobs == [] {
      assert child.ends + [] == child.ends;
    } else {
      AloneWrites(setup, stage, child, jobs[..|jobs| - 1]);
    }
  }

  lemma {:induction false} PushAllConcat(xs: seq<InterfaceState>, ys: seq<InterfaceState>, zs: seq<InterfaceState>)
    ensures PushAll(xs, ys + zs) == PushAll(PushAll(xs, ys), zs)
  {
    if zs == [] {
      assert ys + zs == ys;
    } else {
      assert (ys + zs)[..|ys + zs| - 1] == ys + zs[..|zs| - 1];
      PushAllConcat(xs, ys, zs[..|zs| - 1]);
    }
  }

  // ---- lists pushed one after the other ----

  function Folded(start: seq<InterfaceState>, olds: seq<seq<InterfaceState>>, i: nat): seq<InterfaceState>
    requires i <= |olds|
  {
    if i == 0 then start else PushAll(Folded(start, olds, i - 1), olds[i - 1])
  }

  /** The same, each list followed by one of `news`. */
  function FoldedBoth(start: seq<InterfaceState>, olds: seq<seq<InterfaceState>>, news: seq<seq<InterfaceState>>,
                      i: nat)
    : seq<InterfaceState>
    requires i <= |olds| == |news|
  {
    if i == 0 then start else PushAll(PushAll(FoldedBoth(start, olds, news, i - 1), olds[i - 1]), news[i - 1])
  }

  ghost predicate SameKeys(xs: seq<InterfaceState>, ys: seq<InterfaceState>) {
    forall k :: HasKey(xs, k) <==> HasKey(ys, k)
  }

  ghost predicate KeysKnown(xs: seq<InterfaceState>, known: seq<InterfaceState>) {
    forall x :: x in xs ==> HasKey(known, x.key)
  }

  ghost predicate AnyHas(lists: seq<seq<InterfaceState>>, i: nat, k: Key)
    requires i <= |lists|
  {
    exists j :: 0 <= j < i && HasKey(lists[j], k)
  }

  lemma {:induction false} FoldedKeys(start: seq<InterfaceState>, olds: seq<seq<InterfaceState>>,
                                      news: seq<seq<InterfaceState>>, i: nat, k: Key)
    requires i <= |olds| == |news|
    ensures HasKey(FoldedBoth(start, olds, news, i), k) <==> HasKey(Folded(start, olds, i), k) || AnyHas(news, i, k)
  {
    if i > 0 {
      var xs, ys := FoldedBoth(start, olds, news, i - 1), Folded(start, olds, i - 1);
      FoldedKeys(start, olds, news, i - 1, k);
      PushAllHas(xs, olds[i - 1], k);
      PushAllHas(PushAll(xs, olds[i - 1]), news[i - 1], k);
      PushAllHas(ys, olds[i - 1], k);
      assert AnyHas(news, i, k) <==> AnyHas(news, i - 1, k) || HasKey(news[i - 1], k);
    }
  }

  lemma {:induction false} PushKnown(xs: seq<InterfaceState>, ys: seq<InterfaceState>)
    requires KeysKnown(ys, xs)
    ensures PushAll(xs, ys) == xs
  {
    if ys != [] {
      PushKnown(xs, ys[..|ys| - 1]);
    }
  }

  lemma {:induction false} PushGrows(xs: seq<InterfaceState>, ys: seq<InterfaceState>)
    ensures xs <= PushAll(xs, ys)
    ensures forall p :: |xs| <= p < |PushAll(xs, ys)| ==> PushAll(xs, ys)[p] in ys
  {
    if ys != [] {
      PushGrows(xs, ys[..|ys| - 1]);
    }
  }

  /** A key that is not there makes the list longer. */
  lemma PushUnknown(xs: seq<InterfaceState>, ys: seq<InterfaceState>)
    requires !KeysKnown(ys, xs)
    ensures |PushAll(xs, ys)| > |xs| && PushAll(xs, ys)[|xs|] in ys
  {
    var y :| y in ys && !HasKey(xs, y.key);
    PushGrows(xs, ys);
    PushAllHas(xs, ys, y.key);
    assert PushAll(xs, ys) != xs;
  }

  lemma {:induction false} BothGrows(start: seq<InterfaceState>, olds: seq<seq<InterfaceState>>,
                                     news: seq<seq<InterfaceState>>, i: nat, n: nat)
    requires i <= n <= |olds| == |news|
    ensures FoldedBoth(start, olds, news, i) <= FoldedBoth(start, olds, news, n)
  {
    if i < n {
      BothGrows(start, olds, news, i, n - 1);
      var xs := FoldedBoth(start, olds, news, n - 1);
      PushGrows(xs, olds[n - 1]);
      PushGrows(PushAll(xs, olds[n - 1]), news[n - 1]);
    }
  }

  lemma {:induction false} FoldedBeyond(start: seq<InterfaceState>, olds: seq<seq<InterfaceState>>, i: nat, n: nat,
                                        p: nat)
    returns (l: nat)
    requires i <= n <= |olds| && |Folded(start, olds, i)| <= p < |Folded(start, olds, n)|
    ensures i <= l < n && Folded(start, olds, n)[p] in olds[l]
  {
    l := n - 1;
    PushGrows(Folded(start, olds, n - 1), olds[n - 1]);
    if p < |Folded(start, olds, n - 1)| {
      l := FoldedBeyond(start, olds, i, n - 1, p);
    }
  }

  /** List `j` of `news` has no key that is not there when it is pushed. */
  ghost predicate KnownAt(start: seq<InterfaceState>, olds: seq<seq<InterfaceState>>, news: seq<seq<InterfaceState>>,
                          j: nat)
    requires j < |olds| == |news|
  {
    KeysKnown(news[j], Folded(start, olds, j + 1))
  }

  /** No state of `news` is in a later list of `olds`. */
  ghost predicate Unseen(olds: seq<seq<InterfaceState>>, news: seq<seq<InterfaceState>>)
    requires |olds| == |news|
  {
    forall j, l, x :: 0 <= j < l < |olds| && x in news[j] ==> x !in olds[l]
  }

  /** The first new key of list `j` sets the two results apart for good. */
  lemma SetsApart(start: seq<InterfaceState>, olds: seq<seq<InterfaceState>>, news: seq<seq<InterfaceState>>, j: nat)
    requires j < |olds| == |news| && Unseen(olds, news) && !KnownAt(start, olds, news, j)
    requires FoldedBoth(start, olds, news, j) == Folded(start, olds, j)
    ensures FoldedBoth(start, olds, news, |olds|) != Folded(start, olds, |olds|)
  {
    var before, n := Folded(start, olds, j + 1), |olds|;
    PushUnknown(before, news[j]);
    BothGrows(start, olds, news, j + 1, n);
    var p := |before|;
    var x := FoldedBoth(start, olds, news, j + 1)[p];
    assert FoldedBoth(start, olds, news, n)[p] == x;
    if p < |Folded(start, olds, n)| {
      var l := FoldedBeyond(start, olds, j + 1, n, p);
    }
  }

  lemma SameNext(start: seq<InterfaceState>, olds: seq<seq<InterfaceState>>, news: seq<seq<InterfaceState>>, j: nat)
    requires j < |olds| == |news| && KnownAt(start, olds, news, j)
    requires FoldedBoth(start, olds, news, j) == Folded(start, olds, j)
    ensures FoldedBoth(start, olds, news, j + 1) == Folded(start, olds, j + 1)
  {
    PushKnown(Folded(start, olds, j + 1), news[j]);
  }

  ghost predicate AllKnownAt(start: seq<InterfaceState>, olds: seq<seq<InterfaceState>>,
                             news: seq<seq<InterfaceState>>, i: nat)
    requires i <= |olds| == |news|
  {
    i == 0 || (AllKnownAt(start, olds, news, i - 1) && KnownAt(start, olds, news, i - 1))
  }

  lemma {:induction false} SameWhenKnown(start: seq<InterfaceState>, olds: seq<seq<InterfaceState>>,
                                         news: seq<seq<InterfaceState>>, i: nat)
    requires i <= |olds| == |news| && AllKnownAt(start, olds, news, i)
    ensures FoldedBoth(start, olds, news, i) == Folded(start, olds, i)
  {
    if i > 0 {
      SameWhenKnown(start, olds, news, i - 1);
      SameNext(start, olds, news, i - 1);
    }
  }

  lemma KnownNext(start: seq<InterfaceState>, olds: seq<seq<InterfaceState>>, news: seq<seq<InterfaceState>>, j: nat)
    requires j < |olds| == |news| && Unseen(olds, news)
    requires FoldedBoth(start, olds, news, |olds|) == Folded(start, olds, |olds|)
    requires FoldedBoth(start, olds, news, j) == Folded(start, olds, j)
    ensures KnownAt(start, olds, news, j) && FoldedBoth(start, olds, news, j + 1) == Folded(start, olds, j + 1)
  {
    if KnownAt(start, olds, news, j) {
      SameNext(start, olds, news, j);
    } else {
      SetsApart(start, olds, news, j);
    }
  }

  lemma {:induction false} KnownWhenSame(start: seq<InterfaceState>, olds: seq<seq<InterfaceState>>,
                                         news: seq<seq<InterfaceState>>, i: nat)
    requires i <= |olds| == |news| && Unseen(olds, news)
    requires FoldedBoth(start, olds, news, |olds|) == Folded(start, olds, |olds|)
    ensures FoldedBoth(start, olds, news, i) == Folded(start, olds, i) && AllKnownAt(start, olds, news, i)
  {
    if i > 0 {
      KnownWhenSame(start, olds, news, i - 1);
      KnownNext(start, olds, news, i - 1);
    }
  }

  lemma {:induction false} AllKnownAtEach(start: seq<InterfaceState>, olds: seq<seq<InterfaceState>>,
                                          news: seq<seq<InterfaceState>>, i: nat)
    requires i <= |olds| == |news|
    ensures AllKnownAt(start, olds, news, i) <==> forall j :: 0 <= j < i ==> KnownAt(start, olds, news, j)
  {
    if i > 0 {
      AllKnownAtEach(start, olds, news, i - 1);
    }
  }

  lemma FoldedSameExactly(start: seq<InterfaceState>, olds: seq<seq<InterfaceState>>, news: seq<seq<InterfaceState>>)
    requires |olds| == |news| && Unseen(olds, news)
    ensures FoldedBoth(start, olds, news, |olds|) == Folded(start, olds, |olds|)
            <==> forall j :: 0 <= j < |olds| ==> KnownAt(start, olds, news, j)
  {
    AllKnownAtEach(start, olds, news, |olds|);
    if AllKnownAt(start, olds, news, |olds|) {
      SameWhenKnown(start, olds, news, |olds|);
    }
    if FoldedBoth(start, olds, news, |olds|) == Folded(start, olds, |olds|) {
      KnownWhenSame(start, olds, news, |olds|);
    }
  }

  // ---- what the passes write, as lists pushed ----

  /** What each child had written, if it runs. */
  function OldLists(c: Container): (lists: seq<seq<InterfaceState>>)
    ensures |lists| == |c.children|
    ensures forall k :: 0 <= k < |lists| ==> lists[k] == if c.children[k].pull == [] then [] else c.children[k].ends
  {
    seq(|c.children|,
        k requires 0 <= k < |c.children| => if c.children[k].pull == [] then [] else c.children[k].ends)
  }

  function NewLists(setup: Setup, c: Container): (lists: seq<seq<InterfaceState>>)
    requires Fits(setup, c)
    ensures |lists| == |c.children| && forall k :: 0 <= k < |lists| ==> lists[k] == NewEnds(setup, c, k)
  {
    seq(|c.children|, k requires 0 <= k < |c.children| => NewEnds(setup, c, k))
  }

  lemma {:induction false} OldEndsFolded(c: Container, i: nat)
    requires i <= |c.children|
    ensures OldEnds(c, i) == Folded(c.ends, OldLists(c), i)
  {
    if i > 0 {
      OldEndsFolded(c, i - 1);
    }
  }

  lemma RunChildEnds(setup: Setup, c: Container, s: Container, k: nat)
    requires Fits(setup, c) && Fits(setup, s) && k < |c.children| && s.children[k] == c.children[k]
    ensures RunChild(setup, s, k).ends == PushAll(PushAll(s.ends, OldLists(c)[k]), NewEnds(setup, c, k))
  {
    var stage := setup.stages[k];
    var jobs := JobsOf(stage, k, c.children[k].pull);
    if c.children[k].pull != [] {
      CommitsAreLocal(setup, Emptied(s, k), jobs, k, k);
      CommitIgnoresEnds(setup, Emptied(s, k), jobs, []);
      AloneWrites(setup, stage, c.children[k].(pull := []), jobs);
      PushAllConcat(s.ends, c.children[k].ends, NewEnds(setup, c, k));
    }
  }

  lemma NextWritten(setup: Setup, c: Container, i: nat)
    requires Fits(setup, c) && i < |c.children|
    ensures Sequential(setup, c, i + 1).ends
            == PushAll(PushAll(Sequential(setup, c, i).ends, OldLists(c)[i]), NewEnds(setup, c, i))
  {
    SequentialIsLocal(setup, c, i, i, Sequential(setup, c, i));
    NextSequential(setup, c, i);
    RunChildEnds(setup, c, Sequential(setup, c, i), i);
  }

  /** Lists that grow by what is pushed are the folded ones. */
  lemma {:induction false} GrownIsFolded(lists: seq<seq<InterfaceState>>, olds: seq<seq<InterfaceState>>,
                                         news: seq<seq<InterfaceState>>, i: nat)
    requires i <= |olds| == |news| == |lists| - 1
    requires forall k :: 0 <= k < |olds| ==> lists[k + 1] == PushAll(PushAll(lists[k], olds[k]), news[k])
    ensures lists[i] == FoldedBoth(lists[0], olds, news, i)
  {
    if i > 0 {
      GrownIsFolded(lists, olds, news, i - 1);
      assert lists[(i - 1) + 1] == PushAll(PushAll(lists[i - 1], olds[i - 1]), news[i - 1]);
    }
  }

  /** The container's written states before the first child, after it, and so on. */
  function EndsByTurn(setup: Setup, c: Container): (lists: seq<seq<InterfaceState>>)
    requires Fits(setup, c)
    ensures |lists| == |c.children| + 1
    ensures forall k :: 0 <= k < |lists| ==> lists[k] == Sequential(setup, c, k).ends
  {
    seq(|c.children| + 1, k requires 0 <= k <= |c.children| => Sequential(setup, c, k).ends)
  }

  lemma EndsGrow(setup: Setup, c: Container, k: nat)
    requires Fits(setup, c) && k < |c.children|
    ensures var lists := EndsByTurn(setup, c);
            lists[k + 1] == PushAll(PushAll(lists[k], OldLists(c)[k]), NewLists(setup, c)[k])
  {
    NextWritten(setup, c, k);
  }

  lemma SequentialEnds(setup: Setup, c: Container)
    requires Fits(setup, c)
    ensures Sequential(setup, c, |c.children|).ends == FoldedBoth(c.ends, OldLists(c), NewLists(setup, c), |c.children|)
  {
    var lists, olds, news := EndsByTurn(setup, c), OldLists(c), NewLists(setup, c);
    forall k | 0 <= k < |olds| ensures lists[k + 1] == PushAll(PushAll(lists[k], olds[k]), news[k]) {
      EndsGrow(setup, c, k);
    }
    GrownIsFolded(lists, olds, news, |olds|);
    AgreeAtFirst(setup, c);
  }

  lemma PassesWrite(setup: Setup, c: Container)
    requires Fits(setup, c)
    ensures var n := |c.children|;
            && Batched(setup, c).ends == Folded(c.ends, OldLists(c), n)
            && Sequential(setup, c, n).ends == FoldedBoth(c.ends, OldLists(c), NewLists(setup, c), n)
  {
    BatchedEnds(setup, c);
    OldEndsFolded(c, |c.children|);
    SequentialEnds(setup, c);
  }

  // ---- exactly when they write the same ----

  /** Every state a child newly writes has the key of one that was written before. */
  ghost predicate AllKnown(setup: Setup, c: Container)
    requires Fits(setup, c)
  {
    forall j :: 0 <= j < |c.children| ==> KeysKnown(NewEnds(setup, c, j), OldEnds(c, |c.children|))
  }

  /** A batched pass passes on the keys the unbatched one does exactly when it has no new ones to pass on. */
  lemma SameKeysExactly(setup: Setup, c: Container)
    requires Fits(setup, c)
    ensures SameKeys(Batched(setup, c).ends, Sequential(setup, c, |c.children|).ends) <==> AllKnown(setup, c)
  {
    var n, olds, news := |c.children|, OldLists(c), NewLists(setup, c);
    PassesWrite(setup, c);
    OldEndsFolded(c, n);
    var xs, ys := Folded(c.ends, olds, n), FoldedBoth(c.ends, olds, news, n);
    if AllKnown(setup, c) {
      forall k ensures HasKey(xs, k) <==> HasKey(ys, k) {
        FoldedKeys(c.ends, olds, news, n, k);
        if j :| 0 <= j < n && HasKey(news[j], k) {
          var x: InterfaceState :| x in news[j] && x.key == k;
          assert KeysKnown(NewEnds(setup, c, j), OldEnds(c, n));
        }
      }
    }
    if SameKeys(xs, ys) {
      forall j, x | 0 <= j < n && x in NewEnds(setup, c, j) ensures HasKey(OldEnds(c, n), x.key) {
        FoldedKeys(c.ends, olds, news, n, x.key);
        assert HasKey(news[j], x.key);
      }
    }
  }

  /** A state written in the pass is a new object: no later child has written it before. */
  ghost predicate NewObjects(setup: Setup, c: Container)
    requires Fits(setup, c)
  {
    forall j, l, x :: 0 <= j < l < |c.children| && x in NewEnds(setup, c, j) ==> x !in c.children[l].ends
  }

  /** Every state child `j` newly writes has a key that is there by its turn. */
  ghost predicate KnownByTurn(setup: Setup, c: Container, j: nat)
    requires Fits(setup, c) && j < |c.children|
  {
    KeysKnown(NewEnds(setup, c, j), OldEnds(c, j + 1))
  }

  lemma NewListsUnseen(setup: Setup, c: Container, olds: seq<seq<InterfaceState>>, news: seq<seq<InterfaceState>>)
    requires Fits(setup, c) && NewObjects(setup, c) && olds == OldLists(c) && news == NewLists(setup, c)
    ensures Unseen(olds, news)
  {
    forall j, l, x | 0 <= j < l < |olds| && x in news[j] ensures x !in olds[l] {
      assert x in NewEnds(setup, c, j);
    }
  }

  lemma ListKnown(setup: Setup, c: Container, j: nat)
    requires Fits(setup, c) && j < |c.children|
    ensures KnownByTurn(setup, c, j) <==> KnownAt(c.ends, OldLists(c), NewLists(setup, c), j)
  {
    OldEndsFolded(c, j + 1);
  }

  lemma ListsKnown(setup: Setup, c: Container, olds: seq<seq<InterfaceState>>, news: seq<seq<InterfaceState>>)
    requires Fits(setup, c) && NewObjects(setup, c) && olds == OldLists(c) && news == NewLists(setup, c)
    ensures FoldedBoth(c.ends, olds, news, |olds|) == Folded(c.ends, olds, |olds|)
            <==> forall j :: 0 <= j < |c.children| ==> KnownByTurn(setup, c, j)
  {
    NewListsUnseen(setup, c, olds, news);
    FoldedSameExactly(c.ends, olds, news);
    forall j | 0 <= j < |c.children| ensures KnownByTurn(setup, c, j) <==> KnownAt(c.ends, olds, news, j) {
      ListKnown(setup, c, j);
    }
  }

  /** A batched pass passes on the very list the unbatched one does exactly when every state a child
      newly writes has a key that is there by the child's turn. */
  lemma SameEndsExactly(setup: Setup, c: Container)
    requires Fits(setup, c) && NewObjects(setup, c)
    ensures Batched(setup, c).ends == Sequential(setup, c, |c.children|).ends
            <==> forall j :: 0 <= j < |c.children| ==> KnownByTurn(setup, c, j)
  {
    PassesWrite(setup, c);
    ListsKnown(setup, c, OldLists(c), NewLists(setup, c));
  }
}
