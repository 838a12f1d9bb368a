/** Facts about keyed lists and stage outputs that the planner's correctness rests on. */
module SearchLemmas {
  import opened Interfaces
  import opened Search
  import opened Firsts

  lemma {:induction false} PushAllMember(ys: seq<InterfaceState>, x: InterfaceState)
    requires x in PushAll([], ys)
    ensures x in ys
  {
    var init, last := ys[..|ys| - 1], ys[|ys| - 1];
    assert ys == init + [last];
    if x in PushAll([], init) {
      PushAllMember(init, x);
    }
  }

  lemma PushOne(xs: seq<InterfaceState>, x: InterfaceState)
    ensures PushAll([], xs + [x]) == Push(PushAll([], xs), x)
  {
    assert (xs + [x])[..|xs|] == xs;
  }

  lemma HasSnoc(xs: seq<InterfaceState>, y: InterfaceState, k: Key)
    ensures HasKey(xs + [y], k) <==> HasKey(xs, k) || y.key == k
  {
    if HasKey(xs, k) {
      var x :| x in xs && x.key == k;
      assert x in xs + [y];
    }
    assert y in xs + [y];
  }

  /** Pushing adds the keys pushed and loses none. */
  lemma {:induction false} PushAllHas(xs: seq<InterfaceState>, ys: seq<InterfaceState>, k: Key)
    ensures HasKey(PushAll(xs, ys), k) <==> HasKey(xs, k) || HasKey(ys, k)
  {
    if ys != [] {
      var init, y := ys[..|ys| - 1], ys[|ys| - 1];
      PushAllHas(xs, init, k);
      HasSnoc(init, y, k);
      HasSnoc(PushAll(xs, init), y, k);
      assert ys == init + [y];
    }
  }

  /** Deduplication keeps every key. */
  lemma PushAllKeys(ys: seq<InterfaceState>, y: InterfaceState)
    requires y in ys
    ensures HasKey(PushAll([], ys), y.key)
  {
    PushAllHas([], ys, y.key);
  }

  function KeysIn(xs: seq<InterfaceState>): (keys: seq<Key>)
    ensures |keys| == |xs| && forall k :: 0 <= k < |keys| ==> keys[k] == xs[k].key
  {
    seq(|xs|, k requires 0 <= k < |xs| => xs[k].key)
  }

  lemma KeysInHas(xs: seq<InterfaceState>, k: Key)
    ensures HasKey(xs, k) <==> k in KeysIn(xs)
  {
    if x :| x in xs && x.key == k {
      var j :| 0 <= j < |xs| && xs[j] == x;
      assert KeysIn(xs)[j] == k;
    }
    if k in KeysIn(xs) {
      var j :| 0 <= j < |xs| && KeysIn(xs)[j] == k;
      assert xs[j] in xs;
    }
  }

  /** A pull holds, of everything pushed, the first state of each key, in order. */
  lemma {:induction false} PushedFirsts(ys: seq<InterfaceState>)
    ensures PushAll([], ys) == FirstOfEach(ys, KeysIn(ys))
  {
    if ys != [] {
      var init, last := ys[..|ys| - 1], ys[|ys| - 1];
      PushedFirsts(init);
      FirstsNext(init, KeysIn(init), last, last.key);
      PushAllHas([], init, last.key);
      KeysInHas(init, last.key);
      assert init + [last] == ys && KeysIn(init) + [last.key] == KeysIn(ys);
    }
  }

  lemma PushAllKeepsDistinct(ys: seq<InterfaceState>, y: InterfaceState)
    requires KeysIdentify(ys) && y in ys
    ensures y in PushAll([], ys)
  {
    PushAllKeys(ys, y);
    var x :| x in PushAll([], ys) && x.key == y.key;
    PushAllMember(ys, x);
  }

  lemma {:induction false} EmitMember(work: seq<Solution>, s: Solution)
    requires s in EmitOnto([], work)
    ensures s in work
  {
    var init, last := work[..|work| - 1], work[|work| - 1];
    assert work == init + [last];
    if s in EmitOnto([], init) {
      EmitMember(init, s);
    }
  }

  /** Keyed emission keeps every key pair. */
  lemma {:induction false} EmitKeys(work: seq<Solution>, s: Solution)
    requires s in work
    ensures HasKeyPair(EmitOnto([], work), s.KeyPair())
  {
    var init, last := work[..|work| - 1], work[|work| - 1];
    assert work == init + [last];
    if s in init {
      EmitKeys(init, s);
      var t :| t in EmitOnto([], init) && t.KeyPair() == s.KeyPair();
      assert t in EmitOnto([], work);
    } else if !HasKeyPair(EmitOnto([], init), s.KeyPair()) {
      assert s in EmitOnto([], work);
    }
  }

  function PairsIn(work: seq<Solution>): (pairs: seq<(Key, Key)>)
    ensures |pairs| == |work| && forall k :: 0 <= k < |pairs| ==> pairs[k] == work[k].KeyPair()
  {
    seq(|work|, k requires 0 <= k < |work| => work[k].KeyPair())
  }

  lemma EmittedPairs(work: seq<Solution>, pair: (Key, Key))
    ensures HasKeyPair(EmitOnto([], work), pair) <==> pair in PairsIn(work)
  {
    if s :| s in EmitOnto([], work) && s.KeyPair() == pair {
      EmitMember(work, s);
      var j :| 0 <= j < |work| && work[j] == s;
      assert PairsIn(work)[j] == pair;
    }
    if pair in PairsIn(work) {
      var j :| 0 <= j < |work| && PairsIn(work)[j] == pair;
      EmitKeys(work, work[j]);
    }
  }

  /** A stage keeps, of everything it makes, the first solution of each key pair, in order. */
  lemma {:induction false} EmittedFirsts(work: seq<Solution>)
    ensures EmitOnto([], work) == FirstOfEach(work, PairsIn(work))
  {
    if work != [] {
      var init, last := work[..|work| - 1], work[|work| - 1];
      EmittedFirsts(init);
      FirstsNext(init, PairsIn(init), last, last.KeyPair());
      EmittedPairs(init, last.KeyPair());
      assert init + [last] == work && PairsIn(init) + [last.KeyPair()] == PairsIn(work);
    }
  }

  /** A state that survives the keyed push at the end of a stage was emitted by it. */
  lemma {:induction false} PushedEndsEmitted(work: seq<Solution>, x: InterfaceState)
    requires x in PushAll([], EndsIn(work))
    ensures exists s :: s in EmitOnto([], work) && s.end == x
  {
    var init, last := work[..|work| - 1], work[|work| - 1];
    assert EndsIn(work)[..|work| - 1] == EndsIn(init);
    if x in PushAll([], EndsIn(init)) {
      PushedEndsEmitted(init, x);
      var s :| s in EmitOnto([], init) && s.end == x;
      assert s in EmitOnto([], work);
    } else {
      assert x == last.end && !HasKey(PushAll([], EndsIn(init)), x.key);
      forall t | t in EmitOnto([], init) ensures t.KeyPair() != last.KeyPair() {
        EmitMember(init, t);
        var j :| 0 <= j < |init| && init[j] == t;
        PushAllKeys(EndsIn(init), EndsIn(init)[j]);
      }
      assert last in EmitOnto([], work);
    }
  }

  lemma {:induction false} PushedStartsEmitted(work: seq<Solution>, x: InterfaceState)
    requires x in PushAll([], StartsIn(work))
    ensures exists s :: s in EmitOnto([], work) && s.start == x
  {
    var init, last := work[..|work| - 1], work[|work| - 1];
    assert StartsIn(work)[..|work| - 1] == StartsIn(init);
    if x in PushAll([], StartsIn(init)) {
      PushedStartsEmitted(init, x);
      var s :| s in EmitOnto([], init) && s.start == x;
      assert s in EmitOnto([], work);
    } else {
      assert x == last.start && !HasKey(PushAll([], StartsIn(init)), x.key);
      forall t | t in EmitOnto([], init) ensures t.KeyPair() != last.KeyPair() {
        EmitMember(init, t);
        var j :| 0 <= j < |init| && init[j] == t;
        PushAllKeys(StartsIn(init), StartsIn(init)[j]);
      }
      assert last in EmitOnto([], work);
    }
  }

  // --- stage outputs, member by member ------------------------------------------------------------

  lemma {:induction false} SpawnMember(i: nat, ds: seq<Draft>, s: Solution)
    ensures s in SpawnAll(i, ds) <==> exists d :: d in ds && s == Spawned(i, d)
  {
    if ds != [] {
      assert ds == ds[..|ds| - 1] + [ds[|ds| - 1]];
      SpawnMember(i, ds[..|ds| - 1], s);
    }
  }

  lemma {:induction false} ForwardEachMember(i: nat, x: InterfaceState, ds: seq<Draft>, s: Solution)
    ensures s in ForwardEach(i, x, ds) <==> exists d :: d in ds && s == SentForward(i, x, d)
  {
    if ds != [] {
      assert ds == ds[..|ds| - 1] + [ds[|ds| - 1]];
      ForwardEachMember(i, x, ds[..|ds| - 1], s);
    }
  }

  lemma {:induction false} ForwardMember(p: Problem, i: nat, xs: seq<InterfaceState>, s: Solution)
    ensures s in ForwardWork(p, i, xs) <==>
            s.start in xs && exists d :: d in p.forward(i, s.start) && s == SentForward(i, s.start, d)
  {
    if xs != [] {
      var init, last := xs[..|xs| - 1], xs[|xs| - 1];
      assert xs == init + [last];
      ForwardMember(p, i, init, s);
      ForwardEachMember(i, last, p.forward(i, last), s);
    }
  }

  lemma {:induction false} BackwardEachMember(i: nat, x: InterfaceState, ds: seq<Draft>, s: Solution)
    ensures s in BackwardEach(i, x, ds) <==> exists d :: d in ds && s == SentBackward(i, x, d)
  {
    if ds != [] {
      assert ds == ds[..|ds| - 1] + [ds[|ds| - 1]];
      BackwardEachMember(i, x, ds[..|ds| - 1], s);
    }
  }

  lemma {:induction false} BackwardMember(p: Problem, i: nat, xs: seq<InterfaceState>, s: Solution)
    ensures s in BackwardWork(p, i, xs) <==>
            s.end in xs && exists d :: d in p.backward(i, s.end) && s == SentBackward(i, s.end, d)
  {
    if xs != [] {
      var init, last := xs[..|xs| - 1], xs[|xs| - 1];
      assert xs == init + [last];
      BackwardMember(p, i, init, s);
      BackwardEachMember(i, last, p.backward(i, last), s);
    }
  }

  lemma {:induction false} ConnectEachMember(p: Problem, i: nat, x: InterfaceState, es: seq<InterfaceState>,
                                             s: Solution)
    ensures s in ConnectEach(p, i, x, es) <==>
            s.start == x && s.end in es && p.connect(i, x, s.end).Some?
            && s == Connected(i, x, s.end, p.connect(i, x, s.end).value)
  {
    if es != [] {
      var init, last := es[..|es| - 1], es[|es| - 1];
      assert es == init + [last];
      ConnectEachMember(p, i, x, init, s);
    }
  }

  lemma {:induction false} ConnectMember(p: Problem, i: nat, ss: seq<InterfaceState>, es: seq<InterfaceState>,
                                         s: Solution)
    ensures s in ConnectWork(p, i, ss, es) <==>
            s.start in ss && s.end in es && p.connect(i, s.start, s.end).Some?
            && s == Connected(i, s.start, s.end, p.connect(i, s.start, s.end).value)
  {
    if ss != [] {
      var init, last := ss[..|ss| - 1], ss[|ss| - 1];
      assert ss == init + [last];
      ConnectMember(p, i, init, es, s);
      ConnectEachMember(p, i, last, es, s);
    }
  }

  /** Every emission is a step of its stage between delivered states. */
  lemma WorkSteps(p: Problem, i: nat, ss: seq<InterfaceState>, es: seq<InterfaceState>, s: Solution)
    requires i < |p.kinds| && s in Work(p, i, ss, es)
    ensures s.stage == i && s.children == [] && Step(p, i, s.start, s.end)
    ensures p.kinds[i].WritesStart() || s.start in ss
    ensures p.kinds[i].WritesEnd() || s.end in es
    ensures p.kinds[i].WritesStart() ==> s.start.writer == i && s.start.sides != AtEnd
    ensures p.kinds[i].WritesEnd() ==> s.end.writer == i && s.end.sides != AtStart
    ensures p.kinds[i].Generator? ==> s.start == s.end
  {
    match p.kinds[i]
    case Generator => SpawnMember(i, p.generate(i), s);
    case PropagatorForward => ForwardMember(p, i, ss, s);
    case PropagatorBackward => BackwardMember(p, i, es, s);
    case Connecting => ConnectMember(p, i, ss, es, s);
  }

  /** The solution is priced, moves and is requested as the solver said. */
  ghost predicate Follows(s: Solution, m: Motion) {
    s.cost == m.cost && s.trajectory == m.trajectory && s.request == m.request
  }

  /** What the solver of stage `i` said is what the solution says: between which states, at what cost,
      along which waypoints, with which request and, going forward, with which scene operations. */
  ghost predicate Carries(p: Problem, i: nat, s: Solution)
    requires i < |p.kinds|
  {
    s.stage == i && s.children == [] &&
    match p.kinds[i]
    case Generator =>
      exists d :: d in p.generate(i) && s.start == s.end == InterfaceState(i, d.serial, d.key, OnBoth)
                  && s.cost == d.motion.cost && s.trajectory == [] && s.ops == [] && s.request == NoRequest
    case PropagatorForward =>
      exists d :: d in p.forward(i, s.start) && s.end == InterfaceState(i, d.serial, d.key, AtEnd)
                  && Follows(s, d.motion) && s.ops == d.motion.ops
    case PropagatorBackward =>
      exists d :: d in p.backward(i, s.end) && s.start == InterfaceState(i, d.serial, d.key, AtStart)
                  && Follows(s, d.motion) && s.ops == []
    case Connecting =>
      var m := p.connect(i, s.start, s.end);
      m.Some? && Follows(s, m.value) && s.ops == []
  }

  /** Whatever a stage makes carries what its solver said. */
  lemma WorkCarries(p: Problem, i: nat, ss: seq<InterfaceState>, es: seq<InterfaceState>, s: Solution)
    requires i < |p.kinds| && s in Work(p, i, ss, es)
    ensures Carries(p, i, s)
  {
    match p.kinds[i]
    case Generator => SpawnMember(i, p.generate(i), s);
    case PropagatorForward => ForwardMember(p, i, ss, s);
    case PropagatorBackward => BackwardMember(p, i, es, s);
    case Connecting => ConnectMember(p, i, ss, es, s);
  }

  // --- the order in which stages work -------------------------------------------------------------

  lemma {:induction false} SpawnInOrder(i: nat, ds: seq<Draft>)
    ensures |SpawnAll(i, ds)| == |ds|
    ensures forall k :: 0 <= k < |ds| ==>
              SpawnAll(i, ds)[k].start == SpawnAll(i, ds)[k].end == InterfaceState(i, ds[k].serial, ds[k].key, OnBoth)
  {
    if ds != [] {
      SpawnInOrder(i, ds[..|ds| - 1]);
    }
  }

  lemma {:induction false} ForwardEachInOrder(i: nat, x: InterfaceState, ds: seq<Draft>)
    ensures |ForwardEach(i, x, ds)| == |ds|
    ensures forall k :: 0 <= k < |ds| ==>
              ForwardEach(i, x, ds)[k].end == InterfaceState(i, ds[k].serial, ds[k].key, AtEnd)
  {
    if ds != [] {
      ForwardEachInOrder(i, x, ds[..|ds| - 1]);
    }
  }

  lemma {:induction false} BackwardEachInOrder(i: nat, x: InterfaceState, ds: seq<Draft>)
    ensures |BackwardEach(i, x, ds)| == |ds|
    ensures forall k :: 0 <= k < |ds| ==>
              BackwardEach(i, x, ds)[k].start == InterfaceState(i, ds[k].serial, ds[k].key, AtStart)
  {
    if ds != [] {
      BackwardEachInOrder(i, x, ds[..|ds| - 1]);
    }
  }

  /** A forward stage takes the states as delivered and, for each, the drafts in the solver's order. */
  lemma ForwardInOrder(p: Problem, i: nat, xs: seq<InterfaceState>, j: nat) returns (next: seq<Solution>)
    requires j < |xs|
    ensures ForwardWork(p, i, xs[..j + 1]) == ForwardWork(p, i, xs[..j]) + next
    ensures var ds := p.forward(i, xs[j]);
            |next| == |ds| && forall k :: 0 <= k < |ds| ==>
              next[k].start == xs[j] && next[k].end == InterfaceState(i, ds[k].serial, ds[k].key, AtEnd)
  {
    assert xs[..j + 1][..j] == xs[..j];
    next := ForwardEach(i, xs[j], p.forward(i, xs[j]));
    ForwardEachInOrder(i, xs[j], p.forward(i, xs[j]));
    forall s | s in next ensures s.start == xs[j] {
      ForwardEachMember(i, xs[j], p.forward(i, xs[j]), s);
    }
  }

  lemma BackwardInOrder(p: Problem, i: nat, xs: seq<InterfaceState>, j: nat) returns (next: seq<Solution>)
    requires j < |xs|
    ensures BackwardWork(p, i, xs[..j + 1]) == BackwardWork(p, i, xs[..j]) + next
    ensures var ds := p.backward(i, xs[j]);
            |next| == |ds| && forall k :: 0 <= k < |ds| ==>
              next[k].end == xs[j] && next[k].start == InterfaceState(i, ds[k].serial, ds[k].key, AtStart)
  {
    assert xs[..j + 1][..j] == xs[..j];
    next := BackwardEach(i, xs[j], p.backward(i, xs[j]));
    BackwardEachInOrder(i, xs[j], p.backward(i, xs[j]));
    forall s | s in next ensures s.end == xs[j] {
      BackwardEachMember(i, xs[j], p.backward(i, xs[j]), s);
    }
  }

  /** The pairs, one start after the other, that can be connected. */
  function Links(p: Problem, i: nat, s: InterfaceState, es: seq<InterfaceState>): seq<InterfaceState> {
    if es == [] then [] else
    Links(p, i, s, es[..|es| - 1]) + if p.connect(i, s, es[|es| - 1]).Some? then [es[|es| - 1]] else []
  }

  lemma {:induction false} LinksInOrder(p: Problem, i: nat, s: InterfaceState, es: seq<InterfaceState>)
    ensures StartsIn(ConnectEach(p, i, s, es)) == seq(|Links(p, i, s, es)|, _ => s)
    ensures EndsIn(ConnectEach(p, i, s, es)) == Links(p, i, s, es)
  {
    if es != [] {
      LinksInOrder(p, i, s, es[..|es| - 1]);
    }
  }

  /** A connector takes one start after the other and, for each, the ends as delivered. */
  lemma ConnectInOrder(p: Problem, i: nat, ss: seq<InterfaceState>, es: seq<InterfaceState>, j: nat)
    returns (next: seq<Solution>)
    requires j < |ss|
    ensures ConnectWork(p, i, ss[..j + 1], es) == ConnectWork(p, i, ss[..j], es) + next
    ensures EndsIn(next) == Links(p, i, ss[j], es) && forall k :: 0 <= k < |next| ==> next[k].start == ss[j]
  {
    assert ss[..j + 1][..j] == ss[..j];
    next := ConnectEach(p, i, ss[j], es);
    LinksInOrder(p, i, ss[j], es);
    forall k | 0 <= k < |next| ensures next[k].start == ss[j] {
      assert StartsIn(next)[k] == ss[j];
    }
  }

  /** Every step between delivered states is attempted with success. */
  lemma StepsWork(p: Problem, i: nat, ss: seq<InterfaceState>, es: seq<InterfaceState>, x: InterfaceState,
                  y: InterfaceState)
    requires i < |p.kinds| && Step(p, i, x, y)
    requires p.kinds[i].WritesStart() || x in ss
    requires p.kinds[i].WritesEnd() || y in es
    ensures exists s :: s in Work(p, i, ss, es) && s.start == x && s.end == y
  {
    match p.kinds[i]
    case Generator =>
      var d :| d in p.generate(i) && x == Made(i, OnBoth, d);
      SpawnMember(i, p.generate(i), Spawned(i, d));
    case PropagatorForward =>
      var d :| d in p.forward(i, x) && y == Made(i, AtEnd, d);
      ForwardMember(p, i, ss, SentForward(i, x, d));
    case PropagatorBackward =>
      var d :| d in p.backward(i, y) && x == Made(i, AtStart, d);
      BackwardMember(p, i, es, SentBackward(i, y, d));
    case Connecting =>
      ConnectMember(p, i, ss, es, Connected(i, x, y, p.connect(i, x, y).value));
  }
}
