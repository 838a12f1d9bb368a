/** Online composition: each arrival hands the chains it completes to the container, which
    keeps the first chain of every endpoint key pair. */
module Composition {
  import opened Interfaces
  import opened Chains
  import opened ChainLemmas
  import opened Firsts

  /** The key pair a lifted chain is deduplicated by. The container never lifts an empty one. */
  function ChainKey(c: Path): (Key, Key) {
    if c == [] then (0, 0) else (c[0].start.key, c[|c| - 1].end.key)
  }

  function Row(inc: Path, sol: Solution, outs: seq<Path>): (r: seq<Path>)
    ensures |r| == |outs|
    ensures forall j :: 0 <= j < |r| ==> r[j] == inc + [sol] + outs[j]
  {
    seq(|outs|, j requires 0 <= j < |outs| => inc + [sol] + outs[j])
  }

  /** Every incoming path with every outgoing path, in the order of the two nested loops. */
  function Combos(incs: seq<Path>, sol: Solution, outs: seq<Path>): seq<Path> {
    if incs == [] then []
    else Combos(incs[..|incs| - 1], sol, outs) + Row(incs[|incs| - 1], sol, outs)
  }

  /** The chains handed over when `sol`, the last of `idx`, arrives. */
  function Arrivals(n: nat, idx: seq<Solution>): seq<Path>
    requires idx != []
  {
    var sol := idx[|idx| - 1];
    Combos(Traces(idx, sol.start, Backward, 0, sol.stage - 1), sol,
           Traces(idx, sol.end, Forward, sol.stage + 1, n - 1))
  }

  /** Every chain handed over during a run, in order. */
  function Offered(n: nat, idx: seq<Solution>): seq<Path> {
    if idx == [] then [] else Offered(n, idx[..|idx| - 1]) + Arrivals(n, idx)
  }

  predicate KeyTaken(kept: seq<Path>, c: Path) {
    exists k :: k in kept && ChainKey(k) == ChainKey(c)
  }

  /** Keyed deduplication: the first chain of each key pair stays. */
  function Keep(offers: seq<Path>): seq<Path> {
    if offers == [] then []
    else
      var kept, c := Keep(offers[..|offers| - 1]), offers[|offers| - 1];
      if KeyTaken(kept, c) then kept else kept + [c]
  }

  // --- what is offered -------------------------------------------------------------------

  lemma {:induction false} CombosIntro(incs: seq<Path>, sol: Solution, outs: seq<Path>, i: Path, o: Path)
    requires i in incs && o in outs
    ensures i + [sol] + o in Combos(incs, sol, outs)
  {
    var init, inc := incs[..|incs| - 1], incs[|incs| - 1];
    assert incs == init + [inc];
    if i in init {
      CombosIntro(init, sol, outs, i, o);
    } else {
      var j :| 0 <= j < |outs| && outs[j] == o;
      assert Row(inc, sol, outs)[j] == i + [sol] + o;
    }
  }

  lemma {:induction false} CombosElim(incs: seq<Path>, sol: Solution, outs: seq<Path>, c: Path)
    returns (i: Path, o: Path)
    requires c in Combos(incs, sol, outs)
    ensures i in incs && o in outs && c == i + [sol] + o
  {
    var init, inc := incs[..|incs| - 1], incs[|incs| - 1];
    assert incs == init + [inc];
    if c in Combos(init, sol, outs) {
      i, o := CombosElim(init, sol, outs, c);
    } else {
      var row := Row(inc, sol, outs);
      var j :| 0 <= j < |row| && row[j] == c;
      i, o := inc, outs[j];
    }
  }

  /** Around a member of known stage a chain splits in one way only. */
  lemma SplitUnique(i: Path, o: Path, i': Path, o': Path, sol: Solution)
    requires i + [sol] + o == i' + [sol] + o'
    requires forall k :: 0 <= k < |i| ==> i[k].stage < sol.stage
    requires forall k :: 0 <= k < |i'| ==> i'[k].stage < sol.stage
    ensures i == i' && o == o'
  {
    var c := i + [sol] + o;
    assert c[|i|] == sol && c[|i'|] == sol;
    assert forall k :: 0 <= k < |i| ==> c[k] == i[k];
    assert forall k :: 0 <= k < |i'| ==> c[k] == i'[k];
    assert i == c[..|i|] && i' == c[..|i'|];
    assert o == c[|i| + 1..] && o' == c[|i'| + 1..];
  }

  ghost predicate AllBelow(incs: seq<Path>, stage: int) {
    forall i: Path, k :: i in incs && 0 <= k < |i| ==> i[k].stage < stage
  }

  lemma {:induction false} CombosNoDup(incs: seq<Path>, sol: Solution, outs: seq<Path>)
    requires NoDup(incs) && NoDup(outs) && AllBelow(incs, sol.stage)
    ensures NoDup(Combos(incs, sol, outs))
  {
    if incs != [] {
      var init, inc := incs[..|incs| - 1], incs[|incs| - 1];
      assert forall j :: 0 <= j < |init| ==> init[j] == incs[j] != inc;
      CombosNoDup(init, sol, outs);
      var row := Row(inc, sol, outs);
      forall a, b | 0 <= a < b < |row| ensures row[a] != row[b] {
        if row[a] == row[b] {
          SplitUnique(inc, outs[a], inc, outs[b], sol);
        }
      }
      forall c | c in Combos(init, sol, outs) ensures c !in row {
        var i, o := CombosElim(init, sol, outs, c);
        if c in row {
          var j :| 0 <= j < |row| && row[j] == c;
          SplitUnique(i, o, inc, outs[j], sol);
        }
      }
      NoDupConcat(Combos(init, sol, outs), row);
    }
  }

  lemma CutAt(n: nat, idx: seq<Solution>, c: Path, k: nat)
    requires FullChain(n, idx, c) && k < |c|
    ensures Covers(c[..k], 0, k - 1) && Linked(c[..k]) && Drawn(c[..k], idx)
    ensures k > 0 ==> c[..k][k - 1].end == c[k].start
    ensures Covers(c[k + 1..], k + 1, n - 1) && Linked(c[k + 1..]) && Drawn(c[k + 1..], idx)
    ensures k + 1 < n ==> c[k + 1..][0].start == c[k].end
    ensures c == c[..k] + [c[k]] + c[k + 1..] && c[k].stage == k && n == |c|
  {
  }

  /** The parts of a full chain before and behind one of its members are what the two searches find. */
  lemma PartsFound(n: nat, idx: seq<Solution>, c: Path, k: nat)
    requires FullChain(n, idx, c) && k < |c|
    ensures c[k].stage == k && c == c[..k] + [c[k]] + c[k + 1..]
    ensures c[..k] in Traces(idx, c[k].start, Backward, 0, k - 1)
    ensures c[k + 1..] in Traces(idx, c[k].end, Forward, k + 1, n - 1)
  {
    CutAt(n, idx, c, k);
    TracesComplete(idx, c[k].start, Backward, 0, k - 1, c[..k]);
    TracesComplete(idx, c[k].end, Forward, k + 1, n - 1, c[k + 1..]);
  }

  /** What is found before and behind the arriving solution is joined and handed over. */
  lemma PartsArrive(n: nat, idx: seq<Solution>, before: Path, sol: Solution, behind: Path)
    requires idx != [] && idx[|idx| - 1] == sol
    requires before in Traces(idx, sol.start, Backward, 0, sol.stage - 1)
    requires behind in Traces(idx, sol.end, Forward, sol.stage + 1, n - 1)
    ensures before + [sol] + behind in Arrivals(n, idx)
  {
    CombosIntro(Traces(idx, sol.start, Backward, 0, sol.stage - 1), sol,
                Traces(idx, sol.end, Forward, sol.stage + 1, n - 1), before, behind);
  }

  /** The member that arrived last splits a full chain into what the two searches find. */
  lemma FullSplit(n: nat, idx: seq<Solution>, c: Path)
    requires idx != [] && FullChain(n, idx, c) && idx[|idx| - 1] in c
    ensures c in Arrivals(n, idx)
  {
    var k :| 0 <= k < |c| && c[k] == idx[|idx| - 1];
    PartsFound(n, idx, c, k);
    PartsArrive(n, idx, c[..k], c[k], c[k + 1..]);
  }

  /** What an offered chain is, full or not. */
  ghost predicate Offerable(n: nat, idx: seq<Solution>, c: Path) {
    && c != [] && Linked(c) && Drawn(c, idx)
    && c[0].stage == 0 && c[|c| - 1].stage == n - 1
  }

  lemma JoinSound(n: nat, idx: seq<Solution>, i: Path, sol: Solution, o: Path)
    requires sol in idx && 0 <= sol.stage < n
    requires Sound(i, idx, sol.start, Backward, 0, sol.stage - 1)
    requires Sound(o, idx, sol.end, Forward, sol.stage + 1, n - 1)
    ensures Offerable(n, idx, i + [sol] + o)
  {
    var c := i + [sol] + o;
    assert forall j :: 0 <= j < |i| ==> c[j] == i[j];
    assert c[|i|] == sol;
    assert forall j :: |i| < j < |c| ==> c[j] == o[j - |i| - 1];
  }

  lemma ArrivalsSound(n: nat, idx: seq<Solution>, c: Path)
    requires idx != [] && 0 <= idx[|idx| - 1].stage < n && c in Arrivals(n, idx)
    ensures Offerable(n, idx, c) && idx[|idx| - 1] in c
  {
    var sol := idx[|idx| - 1];
    var incs := Traces(idx, sol.start, Backward, 0, sol.stage - 1);
    var outs := Traces(idx, sol.end, Forward, sol.stage + 1, n - 1);
    assert Arrivals(n, idx) == Combos(incs, sol, outs);
    var i, o := CombosElim(incs, sol, outs, c);
    TracesSound(idx, sol.start, Backward, 0, sol.stage - 1, i);
    TracesSound(idx, sol.end, Forward, sol.stage + 1, n - 1, o);
    JoinSound(n, idx, i, sol, o);
  }

  lemma ArrivalsNoDup(n: nat, idx: seq<Solution>)
    requires idx != [] && NoDup(idx)
    ensures NoDup(Arrivals(n, idx))
  {
    var sol := idx[|idx| - 1];
    var incs := Traces(idx, sol.start, Backward, 0, sol.stage - 1);
    TracesNoDup(idx, sol.start, Backward, 0, sol.stage - 1);
    TracesNoDup(idx, sol.end, Forward, sol.stage + 1, n - 1);
    forall i: Path, k | i in incs && 0 <= k < |i| ensures i[k].stage < sol.stage {
      TracesSound(idx, sol.start, Backward, 0, sol.stage - 1, i);
    }
    CombosNoDup(incs, sol, Traces(idx, sol.end, Forward, sol.stage + 1, n - 1));
  }

  /** Every arrival is from a child of the container. */
  ghost predicate Staged(n: nat, idx: seq<Solution>) {
    forall s :: s in idx ==> 0 <= s.stage < n
  }

  lemma RunStages(kinds: seq<InterfaceType>, idx: seq<Solution>)
    requires Run(kinds, idx)
    ensures Staged(|kinds|, idx)
  {
    forall s | s in idx ensures 0 <= s.stage < |kinds| {
      var q := RunAt(kinds, idx, s);
    }
  }

  lemma DrawnFromSome(c: Path, idx: seq<Solution>)
    ensures Drawn(c, idx) && c != [] ==> idx != []
  {
    if Drawn(c, idx) && c != [] {
      assert c[0] in idx;
    }
  }

  /** What any distinct arrivals have offered: no chain twice, and only linked chains that span the container. */
  lemma {:induction false} OfferedOnce(n: nat, idx: seq<Solution>)
    requires NoDup(idx) && Staged(n, idx)
    ensures NoDup(Offered(n, idx))
    ensures forall c :: c in Offered(n, idx) ==> Offerable(n, idx, c)
  {
    if idx != [] {
      var init, sol := idx[..|idx| - 1], idx[|idx| - 1];
      OfferedOnce(n, init);
      ArrivalsNoDup(n, idx);
      assert forall j :: 0 <= j < |init| ==> init[j] == idx[j] != sol;
      forall o | o in Offered(n, init) ensures Offerable(n, idx, o) && sol !in o {
        assert Offerable(n, init, o);
      }
      forall c | c in Arrivals(n, idx) ensures Offerable(n, idx, c) && sol in c {
        ArrivalsSound(n, idx, c);
      }
      NoDupConcat(Offered(n, init), Arrivals(n, idx));
    }
  }

  /** Every full chain of the arrivals so far has been offered. */
  lemma {:induction false} FullChainsOffered(n: nat, idx: seq<Solution>, c: Path)
    requires n > 0 && FullChain(n, idx, c)
    ensures c in Offered(n, idx)
  {
    DrawnFromSome(c, idx);
    var init, sol := idx[..|idx| - 1], idx[|idx| - 1];
    assert idx == init + [sol];
    if sol in c {
      FullSplit(n, idx, c);
    } else {
      FullChainsOffered(n, init, c);
    }
  }

  /** A full chain is offered at the arrival of its last member, and at no other. */
  lemma {:induction false} OfferedWhenComplete(n: nat, idx: seq<Solution>, c: Path, m: nat)
    requires Staged(n, idx) && FullChain(n, idx, c) && 0 < m <= |idx|
    ensures c in Arrivals(n, idx[..m]) <==> Drawn(c, idx[..m]) && idx[m - 1] in c
  {
    var now := idx[..m];
    assert now[|now| - 1] == idx[m - 1];
    if c in Arrivals(n, now) {
      ArrivalsSound(n, now, c);
    } else if Drawn(c, now) && idx[m - 1] in c {
      FullSplit(n, now, c);
    }
  }

  // --- what is kept ------------------------------------------------------------------------

  /** Offer `j` is, or is preceded by, a full chain with the same key pair. */
  ghost predicate FullFirst(n: nat, offers: seq<Path>, j: nat)
    requires j < |offers|
  {
    exists i :: 0 <= i <= j && Covers(offers[i], 0, n - 1)
      && ChainKey(offers[i]) == ChainKey(offers[j])
  }

  ghost predicate AllFullFirst(n: nat, offers: seq<Path>) {
    forall j :: 0 <= j < |offers| ==> FullFirst(n, offers, j)
  }

  lemma FullFirstConcat(n: nat, a: seq<Path>, b: seq<Path>)
    requires AllFullFirst(n, a)
    requires forall j :: |a| <= j < |a + b| ==> FullFirst(n, a + b, j)
    ensures AllFullFirst(n, a + b)
  {
    forall j | 0 <= j < |a + b| ensures FullFirst(n, a + b, j) {
      if j < |a| {
        assert FullFirst(n, a, j);
        var i :| 0 <= i <= j && Covers(a[i], 0, n - 1)
          && ChainKey(a[i]) == ChainKey(a[j]);
        assert (a + b)[i] == a[i];
      }
    }
  }

  /** Incoming and outgoing paths of an arrival are each led by full paths. */
  ghost predicate Led2(n: nat, incs: seq<Path>, sol: Solution, outs: seq<Path>) {
    && Dominated(incs, Backward, sol.start, 0, sol.stage - 1)
    && Dominated(outs, Forward, sol.end, sol.stage + 1, n - 1)
  }

  lemma JoinFull(n: nat, inc: Path, sol: Solution, out: Path, inc': Path, out': Path)
    requires 0 <= sol.stage < n
    requires ReachesFully(Backward, inc', sol.start, FarState(Backward, inc, sol.start), 0, sol.stage - 1)
    requires ReachesFully(Forward, out', sol.end, FarState(Forward, out, sol.end), sol.stage + 1, n - 1)
    ensures Covers(inc' + [sol] + out', 0, n - 1)
    ensures ChainKey(inc' + [sol] + out') == ChainKey(inc + [sol] + out)
  {
    var c, c' := inc + [sol] + out, inc' + [sol] + out';
    assert c[0].start == FarState(Backward, inc, sol.start);
    assert c'[0].start == FarState(Backward, inc', sol.start);
    assert c[|c| - 1].end == FarState(Forward, out, sol.end);
    assert c'[|c'| - 1].end == FarState(Forward, out', sol.end);
  }

  lemma {:induction false} CombosFullFirst(n: nat, incs: seq<Path>, sol: Solution, outs: seq<Path>, m: nat)
    requires 0 <= sol.stage < n && Led2(n, incs, sol, outs) && m <= |incs|
    ensures AllFullFirst(n, Combos(incs[..m], sol, outs))
  {
    if m > 0 {
      CombosFullFirst(n, incs, sol, outs, m - 1);
      var init, inc := incs[..m - 1], incs[m - 1];
      assert incs[..m][..m - 1] == init;
      var before, row := Combos(init, sol, outs), Row(inc, sol, outs);
      forall j | |before| <= j < |before + row| ensures FullFirst(n, before + row, j) {
        RowFullFirst(n, incs, sol, outs, m - 1, j - |before|);
      }
      FullFirstConcat(n, before, row);
    }
  }

  /** Combinations of earlier paths stand before those of later ones. */
  lemma EarlierCombo(incs: seq<Path>, m: nat, sol: Solution, outs: seq<Path>, j: nat, i: nat, o: nat) returns (k: nat)
    requires i <= m < |incs| && o <= j < |outs|
    ensures var before := Combos(incs[..m], sol, outs);
      k <= |before| + j && (before + Row(incs[m], sol, outs))[k] == incs[i] + [sol] + outs[o]
  {
    var before := Combos(incs[..m], sol, outs);
    if i < m {
      assert incs[..m][i] in incs[..m];
      CombosIntro(incs[..m], sol, outs, incs[i], outs[o]);
      k :| 0 <= k < |before| && before[k] == incs[i] + [sol] + outs[o];
    } else {
      k := |before| + o;
    }
  }

  lemma RowFullFirst(n: nat, incs: seq<Path>, sol: Solution, outs: seq<Path>, m: nat, j: nat)
    requires 0 <= sol.stage < n && Led2(n, incs, sol, outs) && m < |incs| && j < |outs|
    ensures var before := Combos(incs[..m], sol, outs);
      FullFirst(n, before + Row(incs[m], sol, outs), |before| + j)
  {
    var before := Combos(incs[..m], sol, outs);
    var all := before + Row(incs[m], sol, outs);
    assert PrecededByFull(incs, m, Backward, sol.start, 0, sol.stage - 1);
    assert PrecededByFull(outs, j, Forward, sol.end, sol.stage + 1, n - 1);
    var i :| 0 <= i <= m && ReachesFully(Backward, incs[i], sol.start,
                              FarState(Backward, incs[m], sol.start), 0, sol.stage - 1);
    var o :| 0 <= o <= j && ReachesFully(Forward, outs[o], sol.end,
                              FarState(Forward, outs[j], sol.end), sol.stage + 1, n - 1);
    JoinFull(n, incs[m], sol, outs[j], incs[i], outs[o]);
    var k := EarlierCombo(incs, m, sol, outs, j, i, o);
    assert all[|before| + j] == incs[m] + [sol] + outs[j];
    assert Covers(all[k], 0, n - 1) && ChainKey(all[k]) == ChainKey(all[|before| + j]);
  }

  lemma ArrivalsFullFirst(kinds: seq<InterfaceType>, idx: seq<Solution>)
    requires Wired(kinds) && Run(kinds, idx) && idx != []
    ensures AllFullFirst(|kinds|, Arrivals(|kinds|, idx))
  {
    var n, sol := |kinds|, idx[|idx| - 1];
    RunStages(kinds, idx);
    var incs := Traces(idx, sol.start, Backward, 0, sol.stage - 1);
    var outs := Traces(idx, sol.end, Forward, sol.stage + 1, n - 1);
    TracesDominated(kinds, idx, sol.start, Backward, 0, sol.stage - 1, sol);
    TracesDominated(kinds, idx, sol.end, Forward, sol.stage + 1, n - 1, sol);
    CombosFullFirst(n, incs, sol, outs, |incs|);
    assert incs[..|incs|] == incs;
  }

  lemma {:induction false} OfferedFullFirst(kinds: seq<InterfaceType>, idx: seq<Solution>)
    requires Wired(kinds) && Run(kinds, idx)
    ensures AllFullFirst(|kinds|, Offered(|kinds|, idx))
  {
    if idx != [] {
      var n, init := |kinds|, idx[..|idx| - 1];
      RunPrefix(kinds, idx, |idx| - 1);
      OfferedFullFirst(kinds, init);
      ArrivalsFullFirst(kinds, idx);
      var a, b := Offered(n, init), Arrivals(n, idx);
      forall j | |a| <= j < |a + b| ensures FullFirst(n, a + b, j) {
        assert FullFirst(n, b, j - |a|);
        var i :| 0 <= i <= j - |a| && Covers(b[i], 0, n - 1) && ChainKey(b[i]) == ChainKey(b[j - |a|]);
        assert (a + b)[|a| + i] == b[i];
      }
      FullFirstConcat(n, a, b);
    }
  }

  lemma {:induction false} KeepOffered(offers: seq<Path>, c: Path)
    requires c in Keep(offers)
    ensures c in offers
  {
    var init, last := offers[..|offers| - 1], offers[|offers| - 1];
    assert offers == init + [last];
    if c in Keep(init) {
      KeepOffered(init, c);
    }
  }

  lemma {:induction false} KeepTakes(offers: seq<Path>, c: Path)
    requires c in offers
    ensures KeyTaken(Keep(offers), c)
  {
    var init, last := offers[..|offers| - 1], offers[|offers| - 1];
    assert offers == init + [last];
    if c in init {
      KeepTakes(init, c);
      var k :| k in Keep(init) && ChainKey(k) == ChainKey(c);
      assert k in Keep(offers);
    } else if !KeyTaken(Keep(init), c) {
      assert c in Keep(offers);
    }
  }

  function ChainKeys(offers: seq<Path>): (keys: seq<(Key, Key)>)
    ensures |keys| == |offers| && forall k :: 0 <= k < |keys| ==> keys[k] == ChainKey(offers[k])
  {
    seq(|offers|, k requires 0 <= k < |offers| => ChainKey(offers[k]))
  }

  lemma TakenKeys(offers: seq<Path>, c: Path)
    ensures KeyTaken(Keep(offers), c) <==> ChainKey(c) in ChainKeys(offers)
  {
    if k :| k in Keep(offers) && ChainKey(k) == ChainKey(c) {
      KeepOffered(offers, k);
      var j :| 0 <= j < |offers| && offers[j] == k;
      assert ChainKeys(offers)[j] == ChainKey(c);
    }
    if ChainKey(c) in ChainKeys(offers) {
      var j :| 0 <= j < |offers| && ChainKeys(offers)[j] == ChainKey(c);
      KeepTakes(offers, offers[j]);
    }
  }

  /** Of all the chains handed over the container keeps the first of each pair of end keys, in order. */
  lemma {:induction false} KeptFirsts(offers: seq<Path>)
    ensures Keep(offers) == FirstOfEach(offers, ChainKeys(offers))
  {
    if offers != [] {
      var init, last := offers[..|offers| - 1], offers[|offers| - 1];
      KeptFirsts(init);
      FirstsNext(init, ChainKeys(init), last, ChainKey(last));
      TakenKeys(init, last);
      assert init + [last] == offers && ChainKeys(init) + [ChainKey(last)] == ChainKeys(offers);
    }
  }

  lemma {:induction false} KeepDistinct(offers: seq<Path>)
    ensures forall i, j :: 0 <= i < j < |Keep(offers)| ==> ChainKey(Keep(offers)[i]) != ChainKey(Keep(offers)[j])
  {
    if offers != [] {
      var init, last := offers[..|offers| - 1], offers[|offers| - 1];
      KeepDistinct(init);
      var kept := Keep(init);
      if !KeyTaken(kept, last) {
        assert forall i :: 0 <= i < |kept| ==> kept[i] in kept;
      }
    }
  }

  lemma {:induction false} KeepFull(n: nat, offers: seq<Path>, m: nat)
    requires AllFullFirst(n, offers) && m <= |offers|
    ensures forall c :: c in Keep(offers[..m]) ==> Covers(c, 0, n - 1)
  {
    if m > 0 {
      KeepFull(n, offers, m - 1);
      var init, c := offers[..m - 1], offers[m - 1];
      assert offers[..m][..m - 1] == init;
      assert FullFirst(n, offers, m - 1);
      var i :| 0 <= i <= m - 1 && Covers(offers[i], 0, n - 1) && ChainKey(offers[i]) == ChainKey(c);
      if i < m - 1 {
        assert init[i] in init;
        KeepTakes(init, init[i]);
        assert KeyTaken(Keep(init), offers[i]);
      }
    }
  }

  lemma KeptCovers(kinds: seq<InterfaceType>, idx: seq<Solution>, c: Path)
    requires kinds != [] && Wired(kinds) && Run(kinds, idx)
    requires c in Keep(Offered(|kinds|, idx))
    ensures Covers(c, 0, |kinds| - 1)
  {
    var offers := Offered(|kinds|, idx);
    OfferedFullFirst(kinds, idx);
    KeepFull(|kinds|, offers, |offers|);
    assert offers[..|offers|] == offers;
  }

  /** Kept chains are full: whatever the order of arrivals, every chain the container keeps
      has exactly one solution per child, in index order and linked by state identity, although
      the search itself also finds paths that skip a child. */
  lemma KeptChainsAreFull(kinds: seq<InterfaceType>, idx: seq<Solution>, c: Path)
    requires kinds != [] && Wired(kinds) && Run(kinds, idx)
    requires c in Keep(Offered(|kinds|, idx))
    ensures FullChain(|kinds|, idx, c)
  {
    KeptCovers(kinds, idx, c);
    KeepOffered(Offered(|kinds|, idx), c);
    RunStages(kinds, idx);
    RunNoDup(kinds, idx);
    OfferedOnce(|kinds|, idx);
  }

  /** Every full chain of the run is represented: the container keeps exactly one chain with
      its endpoint keys. */
  lemma FullChainsAreRepresented(n: nat, idx: seq<Solution>, c: Path)
    requires n > 0 && FullChain(n, idx, c)
    ensures KeyTaken(Keep(Offered(n, idx)), c)
    ensures var kept := Keep(Offered(n, idx));
      forall i, j :: 0 <= i < j < |kept| ==> ChainKey(kept[i]) != ChainKey(kept[j])
  {
    FullChainsOffered(n, idx, c);
    KeepTakes(Offered(n, idx), c);
    KeepDistinct(Offered(n, idx));
  }
}
