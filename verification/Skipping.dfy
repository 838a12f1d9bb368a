/** Exactly when skipping repeated scene operations goes unnoticed. */
module Skipping {
  import opened Interfaces
  import opened Replay
  import opened Executor

  function KindOf(op: SceneOp): Kind {
    KeyOf(op).0
  }

  predicate Concerns(op: SceneOp, name: string, a: Kind, b: Kind) {
    KeyOf(op) == (a, name) || KeyOf(op) == (b, name)
  }

  /** The operations of two kinds on one object. */
  function About(ops: seq<SceneOp>, name: string, a: Kind, b: Kind): (r: seq<SceneOp>)
    ensures forall op :: op in r <==> op in ops && Concerns(op, name, a, b)
  {
    if ops == [] then [] else
    var init, last := ops[..|ops| - 1], ops[|ops| - 1];
    assert ops == init + [last];
    About(init, name, a, b) + if Concerns(last, name, a, b) then [last] else []
  }

  /** The first operation of a kind, if any. */
  function First(h: seq<SceneOp>, kind: Kind): (r: seq<SceneOp>)
    ensures |r| <= 1
  {
    if h == [] then [] else
    var init, last := h[..|h| - 1], h[|h| - 1];
    if First(init, kind) != [] then First(init, kind) else if KindOf(last) == kind then [last] else []
  }

  /** The operation that decides what the operations on an object leave of it: the last one, or where
      adding is refused for a present object the first of the additions at the end. */
  function Decisive(backend: Backend, h: seq<SceneOp>): SceneOp
    requires h != []
  {
    var n := |h| - 1;
    if backend.Refusing? && n > 0 && h[n].AddOp? && h[n - 1].AddOp? then Decisive(backend, h[..n]) else h[n]
  }

  /** With operations of both kinds, the last is of the kind that came up second. */
  predicate EndsOnSecond(h: seq<SceneOp>, a: Kind, b: Kind) {
    h != [] && First(h, a) != [] && First(h, b) != [] ==> KindOf(h[|h| - 1]) != KindOf(h[0])
  }

  function Placements(ops: seq<SceneOp>, name: string): seq<SceneOp> {
    About(ops, name, AddKind, RemoveKind)
  }

  function Holds(ops: seq<SceneOp>, name: string): seq<SceneOp> {
    About(ops, name, AttachKind, DetachKind)
  }

  /** What decides is the first operation of its kind. */
  predicate PlacementStays(backend: Backend, h: seq<SceneOp>) {
    h != [] ==> EndsOnSecond(h, AddKind, RemoveKind) && First(h, KindOf(h[|h| - 1])) == [Decisive(backend, h)]
  }

  // ---- skipping, one object at a time ----

  lemma {:induction false} SeenAbout(before: seq<SceneOp>, op: SceneOp, name: string, a: Kind, b: Kind)
    requires Concerns(op, name, a, b)
    ensures Seen(before, op) <==> Seen(About(before, name, a, b), op)
  {
    var r := About(before, name, a, b);
    if Seen(before, op) {
      var k :| 0 <= k < |before| && KeyOf(before[k]) == KeyOf(op);
      assert before[k] in r;
    }
    if Seen(r, op) {
      var k :| 0 <= k < |r| && KeyOf(r[k]) == KeyOf(op);
      assert r[k] in before;
    }
  }

  lemma AboutSnoc(init: seq<SceneOp>, last: SceneOp, name: string, a: Kind, b: Kind)
    ensures About(init + [last], name, a, b)
            == About(init, name, a, b) + if Concerns(last, name, a, b) then [last] else []
  {
    assert (init + [last])[..|init|] == init;
  }

  lemma DedupedAboutStep(init: seq<SceneOp>, last: SceneOp, name: string, a: Kind, b: Kind)
    requires About(Deduped(init), name, a, b) == Deduped(About(init, name, a, b))
    ensures About(Deduped(init + [last]), name, a, b) == Deduped(About(init + [last], name, a, b))
  {
    var d, h := Deduped(init), About(init, name, a, b);
    DedupedSnoc(init, last);
    AboutSnoc(init, last, name, a, b);
    assert d + [] == d && h + [] == h && Deduped(h) + [] == Deduped(h);
    if Concerns(last, name, a, b) {
      SeenAbout(init, last, name, a, b);
      DedupedSnoc(h, last);
    }
    AboutSnoc(d, last, name, a, b);
  }

  lemma {:induction false} DedupedAbout(ops: seq<SceneOp>, name: string, a: Kind, b: Kind)
    ensures About(Deduped(ops), name, a, b) == Deduped(About(ops, name, a, b))
  {
    if ops != [] {
      var init, last := ops[..|ops| - 1], ops[|ops| - 1];
      DedupedAbout(init, name, a, b);
      DedupedAboutStep(init, last, name, a, b);
      assert ops == init + [last];
    }
  }

  ghost predicate AllConcern(h: seq<SceneOp>, name: string, a: Kind, b: Kind) {
    forall op :: op in h ==> Concerns(op, name, a, b)
  }

  function Other(kind: Kind, a: Kind, b: Kind): Kind {
    if kind == a then b else a
  }

  lemma FirstSnoc(init: seq<SceneOp>, last: SceneOp, kind: Kind)
    ensures First(init + [last], kind)
            == if First(init, kind) != [] then First(init, kind) else if KindOf(last) == kind then [last] else []
  {
    assert (init + [last])[..|init|] == init;
  }

  lemma {:induction false} FirstSeen(h: seq<SceneOp>, name: string, a: Kind, b: Kind, op: SceneOp)
    requires AllConcern(h, name, a, b) && Concerns(op, name, a, b)
    ensures Seen(h, op) <==> First(h, KindOf(op)) != []
  {
    if h != [] {
      var init, last := h[..|h| - 1], h[|h| - 1];
      assert h == init + [last];
      FirstSeen(init, name, a, b, op);
      FirstSnoc(init, last, KindOf(op));
      assert last in h;
      SeenSnoc(init, last, op);
    }
  }

  lemma SeenSnoc(init: seq<SceneOp>, last: SceneOp, op: SceneOp)
    ensures Seen(init + [last], op) <==> Seen(init, op) || KeyOf(last) == KeyOf(op)
  {
    var h := init + [last];
    if Seen(init, op) {
      var k :| 0 <= k < |init| && KeyOf(init[k]) == KeyOf(op);
      assert h[k] == init[k];
    }
    assert h[|init|] == last;
  }

  lemma DedupedTwoStep(init: seq<SceneOp>, last: SceneOp, name: string, a: Kind, b: Kind)
    requires a != b && AllConcern(init, name, a, b) && Concerns(last, name, a, b) && init != []
    requires Concerns(init[0], name, a, b)
    requires Deduped(init) == [init[0]] + First(init, Other(KindOf(init[0]), a, b))
    requires First(init, KindOf(init[0])) == [init[0]]
    ensures Deduped(init + [last]) == [init[0]] + First(init + [last], Other(KindOf(init[0]), a, b))
    ensures First(init + [last], KindOf(init[0])) == [init[0]]
  {
    var k := KindOf(init[0]);
    var second := First(init, Other(k, a, b));
    DedupedSnoc(init, last);
    FirstSnoc(init, last, k);
    FirstSnoc(init, last, Other(k, a, b));
    FirstSeen(init, name, a, b, last);
    assert [init[0]] + second + [] == [init[0]] + second;
    assert second == [] ==> [init[0]] + second + [last] == [init[0]] + [last];
  }

  lemma DedupedOne(op: SceneOp, kind: Kind)
    ensures Deduped([op]) == [op] && First([op], kind) == if KindOf(op) == kind then [op] else []
  {
    DedupedSnoc([], op);
    FirstSnoc([], op, kind);
    assert [] + [op] == [op];
  }

  /** Of the operations of two kinds on one object at most two are carried out: the first of each. */
  lemma {:induction false} DedupedTwo(h: seq<SceneOp>, name: string, a: Kind, b: Kind)
    requires a != b && AllConcern(h, name, a, b) && h != []
    ensures Deduped(h) == [h[0]] + First(h, Other(KindOf(h[0]), a, b))
    ensures First(h, KindOf(h[0])) == [h[0]]
  {
    var init, last := h[..|h| - 1], h[|h| - 1];
    assert h[0] in h && last in h;
    if init == [] {
      assert h == [last];
      DedupedOne(last, KindOf(last));
      DedupedOne(last, Other(KindOf(last), a, b));
    } else {
      assert AllConcern(init, name, a, b) && init[0] == h[0];
      DedupedTwo(init, name, a, b);
      DedupedTwoStep(init, last, name, a, b);
      assert h == init + [last];
    }
  }

  // ---- what the operations on one object leave of it ----

  lemma {:induction false} EffectAbout(backend: Backend, ops: seq<SceneOp>, name: string)
    ensures EffectOf(backend, ops, name) == EffectOf(backend, Placements(ops, name), name)
  {
    if ops != [] {
      var init, last := ops[..|ops| - 1], ops[|ops| - 1];
      assert ops == init + [last];
      EffectAbout(backend, init, name);
      AboutSnoc(init, last, name, AddKind, RemoveKind);
      EffectConcat(backend, init, last, name);
      EffectConcat(backend, Placements(init, name), last, name);
      assert Placements(init, name) + [] == Placements(init, name);
    }
  }

  lemma {:induction false} HoldAbout(ops: seq<SceneOp>, name: string)
    ensures HoldOf(ops, name) == HoldOf(Holds(ops, name), name)
  {
    if ops != [] {
      var init, last := ops[..|ops| - 1], ops[|ops| - 1];
      assert ops == init + [last];
      HoldAbout(init, name);
      AboutSnoc(init, last, name, AttachKind, DetachKind);
      assert (Holds(init, name) + [last])[..|Holds(init, name)|] == Holds(init, name);
      assert Holds(init, name) + [] == Holds(init, name);
    }
  }

  /** The effect of deciding with `op`: an addition is unconditional where adding replaces or the
      object has been removed before. */
  function Decided(backend: Backend, last: SceneOp, op: SceneOp, cleared: bool): Effect {
    if last.RemoveOp? then Gone
    else if !op.AddOp? then Keep
    else if backend.Overwriting? || cleared then Set(op.spec)
    else Default(op.spec)
  }

  lemma {:induction false} FirstIs(h: seq<SceneOp>, kind: Kind)
    ensures First(h, kind) != [] ==> First(h, kind)[0] in h && KindOf(First(h, kind)[0]) == kind
    ensures First(h, kind) == [] ==> forall op :: op in h ==> KindOf(op) != kind
  {
    if h != [] {
      FirstIs(h[..|h| - 1], kind);
      assert h == h[..|h| - 1] + [h[|h| - 1]];
    }
  }

  lemma DecisiveSnoc(backend: Backend, init: seq<SceneOp>, last: SceneOp)
    ensures Decisive(backend, init + [last])
            == if backend.Refusing? && init != [] && last.AddOp? && init[|init| - 1].AddOp? then Decisive(backend, init)
               else last
  {
    assert (init + [last])[..|init|] == init;
  }

  /** `decisive` decides the operations `h`, which end with `last`. */
  ghost predicate Decides(backend: Backend, h: seq<SceneOp>, last: SceneOp, decisive: SceneOp, name: string) {
    && (last.AddOp? ==> decisive.AddOp?)
    && EffectOf(backend, h, name) == Decided(backend, last, decisive, First(h, RemoveKind) != [])
    && (backend.Refusing? && First(h, RemoveKind) == [] ==> First(h, AddKind) == [decisive])
  }

  lemma DecidesStep(backend: Backend, init: seq<SceneOp>, before: SceneOp, decisive: SceneOp, last: SceneOp,
                    name: string)
    requires Decides(backend, init, before, decisive, name)
    requires Concerns(before, name, AddKind, RemoveKind) && Concerns(last, name, AddKind, RemoveKind)
    requires before.RemoveOp? ==> First(init, RemoveKind) != []
    ensures Decides(backend, init + [last], last,
                    if backend.Refusing? && last.AddOp? && before.AddOp? then decisive else last, name)
  {
    FirstSnoc(init, last, AddKind);
    FirstSnoc(init, last, RemoveKind);
    EffectConcat(backend, init, last, name);
  }

  lemma {:induction false} EffectDecided(backend: Backend, h: seq<SceneOp>, name: string)
    requires AllConcern(h, name, AddKind, RemoveKind) && h != []
    ensures Decides(backend, h, h[|h| - 1], Decisive(backend, h), name)
  {
    var init, last := h[..|h| - 1], h[|h| - 1];
    assert last in h;
    DecisiveSnoc(backend, init, last);
    assert h == init + [last];
    if init == [] {
      FirstSnoc(init, last, AddKind);
      FirstSnoc(init, last, RemoveKind);
      EffectConcat(backend, init, last, name);
    } else {
      var before := init[|init| - 1];
      assert before in init && before in h;
      EffectDecided(backend, init, name);
      FirstIs(init, RemoveKind);
      DecidesStep(backend, init, before, Decisive(backend, init), last, name);
    }
  }

  lemma {:induction false} DecisiveIn(backend: Backend, h: seq<SceneOp>)
    requires h != []
    ensures Decisive(backend, h) in h && (h[|h| - 1].AddOp? <==> Decisive(backend, h).AddOp?)
    ensures !h[|h| - 1].AddOp? ==> Decisive(backend, h) == h[|h| - 1]
  {
    if |h| > 1 {
      DecisiveIn(backend, h[..|h| - 1]);
    }
  }

  lemma PairEffect(backend: Backend, x: SceneOp, y: SceneOp, name: string)
    requires Concerns(x, name, AddKind, RemoveKind) && Concerns(y, name, AddKind, RemoveKind)
    ensures EffectOf(backend, [x], name) == Decided(backend, x, x, false)
    ensures KindOf(x) != KindOf(y) ==> EffectOf(backend, [x] + [y], name) == Decided(backend, y, y, true)
  {
    EffectConcat(backend, [], x, name);
    assert [] + [x] == [x];
    EffectConcat(backend, [x], y, name);
  }

  /** Operations of one kind: the first decides as all of them do. */
  lemma OneKindStays(backend: Backend, h: seq<SceneOp>, name: string)
    requires AllConcern(h, name, AddKind, RemoveKind) && h != []
    requires First(h, Other(KindOf(h[0]), AddKind, RemoveKind)) == []
    ensures EffectOf(backend, Deduped(h), name) == EffectOf(backend, h, name) <==> PlacementStays(backend, h)
  {
    var x, last := h[0], h[|h| - 1];
    assert x in h && last in h;
    DedupedTwo(h, name, AddKind, RemoveKind);
    assert Deduped(h) == [x];
    PairEffect(backend, x, x, name);
    FirstIs(h, Other(KindOf(x), AddKind, RemoveKind));
    EffectDecided(backend, h, name);
    DecisiveIn(backend, h);
  }

  /** Operations of both kinds: the one that came up second decides the playback. */
  lemma TwoKindsStay(backend: Backend, h: seq<SceneOp>, name: string)
    requires AllConcern(h, name, AddKind, RemoveKind) && h != []
    requires First(h, Other(KindOf(h[0]), AddKind, RemoveKind)) != []
    ensures EffectOf(backend, Deduped(h), name) == EffectOf(backend, h, name) <==> PlacementStays(backend, h)
  {
    var x, last := h[0], h[|h| - 1];
    var second := First(h, Other(KindOf(x), AddKind, RemoveKind));
    assert x in h && last in h;
    DedupedTwo(h, name, AddKind, RemoveKind);
    FirstIs(h, Other(KindOf(x), AddKind, RemoveKind));
    assert second == [second[0]];
    PairEffect(backend, x, second[0], name);
    EffectDecided(backend, h, name);
    DecisiveIn(backend, h);
  }

  lemma PlacementStaysExactly(backend: Backend, h: seq<SceneOp>, name: string)
    requires AllConcern(h, name, AddKind, RemoveKind)
    ensures EffectOf(backend, Deduped(h), name) == EffectOf(backend, h, name) <==> PlacementStays(backend, h)
  {
    if h == [] {
    } else if First(h, Other(KindOf(h[0]), AddKind, RemoveKind)) == [] {
      OneKindStays(backend, h, name);
    } else {
      TwoKindsStay(backend, h, name);
    }
  }

  lemma {:induction false} HoldLast(h: seq<SceneOp>, name: string)
    requires AllConcern(h, name, AttachKind, DetachKind)
    ensures HoldOf(h, name) == if h == [] then None else Some(h[|h| - 1].AttachOp?)
  {
    if h != [] {
      assert h[|h| - 1] in h;
    }
  }

  lemma HoldStaysExactly(h: seq<SceneOp>, name: string)
    requires AllConcern(h, name, AttachKind, DetachKind)
    ensures HoldOf(Deduped(h), name) == HoldOf(h, name) <==> EndsOnSecond(h, AttachKind, DetachKind)
  {
    HoldLast(h, name);
    if h != [] {
      var x, last := h[0], h[|h| - 1];
      var second := First(h, Other(KindOf(x), AttachKind, DetachKind));
      assert x in h && last in h;
      DedupedTwo(h, name, AttachKind, DetachKind);
      FirstIs(h, Other(KindOf(x), AttachKind, DetachKind));
      HoldLast(Deduped(h), name);
    }
  }

  // ---- exactly when skipping goes unnoticed ----

  /** For every object: with operations of both kinds the last is of the kind that came up second, and
      the placement that decides is the first of its kind. */
  ghost predicate Undisturbed(backend: Backend, ops: seq<SceneOp>) {
    forall name ::
      PlacementStays(backend, Placements(ops, name)) && EndsOnSecond(Holds(ops, name), AttachKind, DetachKind)
  }

  lemma UndisturbedObject(backend: Backend, ops: seq<SceneOp>, name: string)
    ensures EffectOf(backend, Deduped(ops), name) == EffectOf(backend, ops, name)
            <==> PlacementStays(backend, Placements(ops, name))
    ensures HoldOf(Deduped(ops), name) == HoldOf(ops, name)
            <==> EndsOnSecond(Holds(ops, name), AttachKind, DetachKind)
  {
    EffectAbout(backend, ops, name);
    EffectAbout(backend, Deduped(ops), name);
    DedupedAbout(ops, name, AddKind, RemoveKind);
    PlacementStaysExactly(backend, Placements(ops, name), name);
    HoldAbout(ops, name);
    HoldAbout(Deduped(ops), name);
    DedupedAbout(ops, name, AttachKind, DetachKind);
    HoldStaysExactly(Holds(ops, name), name);
  }

  /** The playback ends in the world the full replay ends in, from every world, exactly when the
      operations are undisturbed; on the overwriting and on the refusing backend. */
  lemma SkippingHarmlessExactly(backend: Backend, ops: seq<SceneOp>)
    ensures SameWorlds(backend, Deduped(ops), ops) <==> Undisturbed(backend, ops)
  {
    SameWorldsExactly(backend, Deduped(ops), ops);
    forall name
      ensures EffectOf(backend, Deduped(ops), name) == EffectOf(backend, ops, name)
              <==> PlacementStays(backend, Placements(ops, name))
      ensures HoldOf(Deduped(ops), name) == HoldOf(ops, name)
              <==> EndsOnSecond(Holds(ops, name), AttachKind, DetachKind)
    {
      UndisturbedObject(backend, ops, name);
    }
  }
}
