/** What scene operations do to a world, when two sequences of them do the same, and exactly when a
    cumulative diff does what its steps did. */
module Replay {
  import opened Interfaces
  import opened SceneDiffs

  /** What adding an existing name does: replace the object, or be refused as the planning server
      does. */
  datatype Backend = Overwriting | Refusing

  datatype World = World(objects: map<string, nat>, held: set<string>)

  function Step(backend: Backend, w: World, op: SceneOp): World {
    match op
    case AddOp(name, spec) =>
      if backend.Refusing? && name in w.objects then w else w.(objects := w.objects[name := spec])
    case RemoveOp(name) => w.(objects := w.objects - {name})
    case AttachOp(name) => w.(held := w.held + {name})
    case DetachOp(name) => w.(held := w.held - {name})
  }

  function RunOps(backend: Backend, w: World, ops: seq<SceneOp>): World {
    if ops == [] then w else Step(backend, RunOps(backend, w, ops[..|ops| - 1]), ops[|ops| - 1])
  }

  // ---- the effect of a sequence on one name, whatever the world ----

  /** Leave alone, remove, set, or set unless present. */
  datatype Effect = Keep | Gone | Set(spec: nat) | Default(spec: nat)

  function Then(backend: Backend, e: Effect, op: SceneOp, name: string): Effect {
    if op.RemoveOp? && op.name == name then Gone
    else if !(op.AddOp? && op.name == name) then e
    else if backend.Overwriting? || e.Gone? then Set(op.spec)
    else if e.Keep? then Default(op.spec)
    else e
  }

  function EffectOf(backend: Backend, ops: seq<SceneOp>, name: string): Effect {
    if ops == [] then Keep
    else Then(backend, EffectOf(backend, ops[..|ops| - 1], name), ops[|ops| - 1], name)
  }

  function Get(objects: map<string, nat>, name: string): Option<nat> {
    if name in objects then Some(objects[name]) else None
  }

  function Outcome(e: Effect, was: Option<nat>): Option<nat> {
    match e
    case Keep => was
    case Gone => None
    case Set(spec) => Some(spec)
    case Default(spec) => if was.Some? then was else Some(spec)
  }

  lemma {:induction false} EffectDecides(backend: Backend, w: World, ops: seq<SceneOp>, name: string)
    ensures Get(RunOps(backend, w, ops).objects, name) == Outcome(EffectOf(backend, ops, name), Get(w.objects, name))
  {
    if ops != [] {
      EffectDecides(backend, w, ops[..|ops| - 1], name);
    }
  }

  /** A world with just one object, or none. */
  function Only(name: string, was: Option<nat>): World {
    World(if was.Some? then map[name := was.value] else map[], {})
  }

  function SpecOf(e: Effect): nat {
    if e.Set? || e.Default? then e.spec else 0
  }

  lemma EffectsDiffer(e: Effect, f: Effect) returns (was: Option<nat>)
    requires e != f
    ensures Outcome(e, was) != Outcome(f, was)
  {
    was := None;
    if Outcome(e, None) == Outcome(f, None) {
      was := Some(SpecOf(e) + SpecOf(f) + 1);
    }
  }

  ghost predicate SameEffects(backend: Backend, p: seq<SceneOp>, q: seq<SceneOp>) {
    forall name :: EffectOf(backend, p, name) == EffectOf(backend, q, name)
  }

  ghost predicate SameObjects(backend: Backend, p: seq<SceneOp>, q: seq<SceneOp>) {
    forall w :: RunOps(backend, w, p).objects == RunOps(backend, w, q).objects
  }

  /** Two sequences leave the same objects in every world exactly when they have the same effect
      on every name. */
  lemma SameObjectsExactly(backend: Backend, p: seq<SceneOp>, q: seq<SceneOp>)
    ensures SameObjects(backend, p, q) <==> SameEffects(backend, p, q)
  {
    if SameEffects(backend, p, q) {
      forall w ensures RunOps(backend, w, p).objects == RunOps(backend, w, q).objects {
        forall name ensures Get(RunOps(backend, w, p).objects, name) == Get(RunOps(backend, w, q).objects, name) {
          EffectDecides(backend, w, p, name);
          EffectDecides(backend, w, q, name);
        }
        SameGets(RunOps(backend, w, p).objects, RunOps(backend, w, q).objects);
      }
    } else {
      var name :| EffectOf(backend, p, name) != EffectOf(backend, q, name);
      var was := EffectsDiffer(EffectOf(backend, p, name), EffectOf(backend, q, name));
      var w := Only(name, was);
      EffectDecides(backend, w, p, name);
      EffectDecides(backend, w, q, name);
    }
  }

  lemma SameGets(a: map<string, nat>, b: map<string, nat>)
    requires forall name :: Get(a, name) == Get(b, name)
    ensures a == b
  {
    forall name ensures name in a <==> name in b {
      assert Get(a, name) == Get(b, name);
    }
    forall name | name in a ensures a[name] == b[name] {
      assert Get(a, name) == Get(b, name);
    }
  }

  lemma {:induction false} EffectConcat(backend: Backend, p: seq<SceneOp>, op: SceneOp, name: string)
    ensures EffectOf(backend, p + [op], name) == Then(backend, EffectOf(backend, p, name), op, name)
  {
    assert (p + [op])[..|p|] == p;
  }

  // ---- what is held ----

  function HoldOf(ops: seq<SceneOp>, name: string): Option<bool> {
    if ops == [] then None else
    var op := ops[|ops| - 1];
    if op.name == name && op.AttachOp? then Some(true)
    else if op.name == name && op.DetachOp? then Some(false)
    else HoldOf(ops[..|ops| - 1], name)
  }

  lemma {:induction false} HoldDecides(backend: Backend, w: World, ops: seq<SceneOp>, name: string)
    ensures name in RunOps(backend, w, ops).held
            <==> if HoldOf(ops, name).Some? then HoldOf(ops, name).value else name in w.held
  {
    if ops != [] {
      HoldDecides(backend, w, ops[..|ops| - 1], name);
    }
  }

  ghost predicate SameHolds(p: seq<SceneOp>, q: seq<SceneOp>) {
    forall name :: HoldOf(p, name) == HoldOf(q, name)
  }

  lemma SameHeld(backend: Backend, w: World, p: seq<SceneOp>, q: seq<SceneOp>)
    requires SameHolds(p, q)
    ensures RunOps(backend, w, p).held == RunOps(backend, w, q).held
  {
    forall name ensures name in RunOps(backend, w, p).held <==> name in RunOps(backend, w, q).held {
      HoldDecides(backend, w, p, name);
      HoldDecides(backend, w, q, name);
    }
  }

  lemma HoldsDiffer(backend: Backend, p: seq<SceneOp>, q: seq<SceneOp>, name: string) returns (w: World)
    requires HoldOf(p, name) != HoldOf(q, name)
    ensures RunOps(backend, w, p).held != RunOps(backend, w, q).held
  {
    w := World(map[], if HoldOf(p, name) == Some(true) || HoldOf(q, name) == Some(true) then {} else {name});
    HoldDecides(backend, w, p, name);
    HoldDecides(backend, w, q, name);
  }

  ghost predicate SameWorlds(backend: Backend, p: seq<SceneOp>, q: seq<SceneOp>) {
    forall w :: RunOps(backend, w, p) == RunOps(backend, w, q)
  }

  /** The same worlds in every detail: the same effect on every object, and the same holds. */
  lemma SameWorldsExactly(backend: Backend, p: seq<SceneOp>, q: seq<SceneOp>)
    ensures SameWorlds(backend, p, q) <==> SameEffects(backend, p, q) && SameHolds(p, q)
  {
    SameObjectsExactly(backend, p, q);
    if SameEffects(backend, p, q) && SameHolds(p, q) {
      forall w ensures RunOps(backend, w, p) == RunOps(backend, w, q) {
        SameHeld(backend, w, p, q);
      }
    } else if !SameHolds(p, q) {
      var name :| HoldOf(p, name) != HoldOf(q, name);
      var w := HoldsDiffer(backend, p, q, name);
    } else {
      assert !SameObjects(backend, p, q);
    }
  }

  // ---- what the edits of a diff did to one name ----

  /** `first` and `last` are the specs it was added with since it was last removed (`cleared`);
      `lost` says that it was attached after the last addition. */
  datatype History =
    | Untouched
    | Removed
    | Placed(first: nat, last: nat, cleared: bool, lost: bool)

  function Grown(h: History, e: Edit, name: string): History {
    match e
    case AddObject(o) =>
      if o.name != name then h
      else if h.Placed? then Placed(h.first, o.spec, h.cleared, false)
      else Placed(o.spec, o.spec, h.Removed?, false)
    case RemoveObject(n) => if n == name then Removed else h
    case Attach(n) => if n == name && h.Placed? then h.(lost := true) else h
    case Detach(_) => h
    case Collisions(_, _, _) => h
  }

  function HistoryOf(edits: seq<Edit>, name: string): History {
    if edits == [] then Untouched
    else Grown(HistoryOf(edits[..|edits| - 1], name), edits[|edits| - 1], name)
  }

  ghost predicate Shows(d: SceneDiff, h: History, name: string) {
    && (name in d.removed <==> h.Removed?)
    && Spec(d.added, name) == if h.Placed? && !h.lost then Some(h.last) else None
  }

  lemma GrowthShows(d: SceneDiff, h: History, e: Edit, name: string)
    requires NormalForm(d) && Shows(d, h, name)
    ensures Shows(Edited(d, e), Grown(h, e, name), name)
  {
    match e
    case AddObject(o) =>
      PutLooksUp(d.added, o, name);
      WithoutKeeps(d.removed, o.name, name);
    case RemoveObject(n) => PopLooksUp(d.added, n, name);
    case Attach(n) => PopLooksUp(d.added, n, name);
    case Detach(_) =>
    case Collisions(_, _, _) =>
  }

  lemma {:induction false} DiffShows(edits: seq<Edit>, name: string)
    ensures Shows(EditedAll(edits), HistoryOf(edits, name), name)
  {
    if edits != [] {
      var before := edits[..|edits| - 1];
      DiffShows(before, name);
      AlwaysNormal(before);
      GrowthShows(EditedAll(before), HistoryOf(before, name), edits[|edits| - 1], name);
    }
  }

  function StepEffect(backend: Backend, h: History): Effect {
    match h
    case Untouched => Keep
    case Removed => Gone
    case Placed(first, last, cleared, _) =>
      if backend.Overwriting? then Set(last) else if cleared then Set(first) else Default(first)
  }

  lemma ThenShows(backend: Backend, before: Effect, h: History, e: Edit, name: string)
    requires !e.Collisions? && before == StepEffect(backend, h)
    ensures Then(backend, before, OpsOf(e)[0], name) == StepEffect(backend, Grown(h, e, name))
  {
  }

  lemma StepShows(backend: Backend, p: seq<SceneOp>, h: History, e: Edit, name: string)
    requires EffectOf(backend, p, name) == StepEffect(backend, h)
    ensures EffectOf(backend, p + OpsOf(e), name) == StepEffect(backend, Grown(h, e, name))
  {
    if e.Collisions? {
      assert p + [] == p;
    } else {
      EffectConcat(backend, p, OpsOf(e)[0], name);
      ThenShows(backend, EffectOf(backend, p, name), h, e, name);
    }
  }

  /** The steps one by one. */
  lemma {:induction false} StepsShow(backend: Backend, edits: seq<Edit>, name: string)
    ensures EffectOf(backend, EditOps(edits), name) == StepEffect(backend, HistoryOf(edits, name))
  {
    if edits != [] {
      var before := edits[..|edits| - 1];
      var e := edits[|edits| - 1];
      StepsShow(backend, before, name);
      StepShows(backend, EditOps(before), HistoryOf(before, name), e, name);
    }
  }

  // ---- the materialized diff ----

  lemma {:induction false} SpecSnoc(added: seq<ObjectSpec>, o: ObjectSpec, name: string)
    ensures Spec(added + [o], name) ==
            if Spec(added, name).Some? then Spec(added, name) else if o.name == name then Some(o.spec) else None
  {
    if added == [] {
      assert [] + [o] == [o];
    } else {
      assert (added + [o])[1..] == added[1..] + [o];
      SpecSnoc(added[1..], o, name);
    }
  }

  lemma {:induction false} DistinctInit(added: seq<ObjectSpec>, o: ObjectSpec)
    requires DistinctNames(added + [o])
    ensures DistinctNames(added) && Spec(added, o.name) == None
  {
    if added != [] {
      assert (added + [o])[1..] == added[1..] + [o];
      DistinctInit(added[1..], o);
      SpecSnoc(added[1..], o, added[0].name);
    }
  }

  function AddEffect(backend: Backend, spec: Option<nat>): Effect {
    if spec == None then Keep else if backend.Overwriting? then Set(spec.value) else Default(spec.value)
  }

  lemma {:induction false} AddsShow(backend: Backend, added: seq<ObjectSpec>, name: string)
    requires DistinctNames(added)
    ensures EffectOf(backend, AddOps(added), name) == AddEffect(backend, Spec(added, name))
  {
    if added != [] {
      var init, o := added[..|added| - 1], added[|added| - 1];
      assert init + [o] == added;
      DistinctInit(init, o);
      AddsShow(backend, init, name);
      SpecSnoc(init, o, name);
      EffectConcat(backend, AddOps(init), AddOp(o.name, o.spec), name);
    }
  }

  lemma {:induction false} RemovesShow(backend: Backend, p: seq<SceneOp>, names: seq<string>, name: string)
    ensures EffectOf(backend, p + RemoveOps(names), name)
            == if name in names then Gone else EffectOf(backend, p, name)
  {
    if names == [] {
      assert p + [] == p;
    } else {
      var init, last := names[..|names| - 1], names[|names| - 1];
      RemovesShow(backend, p, init, name);
      assert p + RemoveOps(names) == (p + RemoveOps(init)) + [RemoveOp(last)];
      EffectConcat(backend, p + RemoveOps(init), RemoveOp(last), name);
      assert names == init + [last];
    }
  }

  lemma Ignored(backend: Backend, p: seq<SceneOp>, tail: seq<SceneOp>, name: string)
    requires tail == [] || (|tail| == 1 && (tail[0].AttachOp? || tail[0].DetachOp?))
    ensures EffectOf(backend, p + tail, name) == EffectOf(backend, p, name)
  {
    if tail == [] {
      assert p + tail == p;
    } else {
      assert tail == [tail[0]];
      EffectConcat(backend, p, tail[0], name);
    }
  }

  lemma MaterializedShows(backend: Backend, d: SceneDiff, name: string)
    requires NormalForm(d)
    ensures EffectOf(backend, Materialized(d), name)
            == if name in d.removed then Gone else AddEffect(backend, Spec(d.added, name))
  {
    AddsShow(backend, d.added, name);
    var p := AddOps(d.added) + RemoveOps(d.removed);
    RemovesShow(backend, AddOps(d.added), d.removed, name);
    var detach := if Named(d.detached) == [] then [] else [DetachOp(d.detached.value)];
    Ignored(backend, p, detach, name);
    Ignored(backend, p + detach, if Named(d.attached) == [] then [] else [AttachOp(d.attached.value)], name);
  }

  /** What a diff can express of a history: an object added and not attached since; on a server
      that refuses duplicates also never removed before and first added with its last spec. */
  predicate Expressed(backend: Backend, h: History) {
    h.Placed? ==> !h.lost && (backend.Refusing? ==> !h.cleared && h.first == h.last)
  }

  lemma ExpressedExactly(backend: Backend, edits: seq<Edit>, name: string)
    ensures EffectOf(backend, Materialized(EditedAll(edits)), name) == EffectOf(backend, EditOps(edits), name)
            <==> Expressed(backend, HistoryOf(edits, name))
  {
    AlwaysNormal(edits);
    DiffShows(edits, name);
    StepsShow(backend, edits, name);
    MaterializedShows(backend, EditedAll(edits), name);
  }

  ghost predicate AllExpressed(backend: Backend, edits: seq<Edit>) {
    forall name :: Expressed(backend, HistoryOf(edits, name))
  }

  lemma SameWhenExpressed(backend: Backend, edits: seq<Edit>)
    requires AllExpressed(backend, edits)
    ensures SameEffects(backend, Materialized(EditedAll(edits)), EditOps(edits))
  {
    forall name
      ensures EffectOf(backend, Materialized(EditedAll(edits)), name) == EffectOf(backend, EditOps(edits), name)
    {
      ExpressedExactly(backend, edits, name);
    }
  }

  lemma ExpressedWhenSame(backend: Backend, edits: seq<Edit>)
    requires SameEffects(backend, Materialized(EditedAll(edits)), EditOps(edits))
    ensures AllExpressed(backend, edits)
  {
    forall name ensures Expressed(backend, HistoryOf(edits, name)) {
      ExpressedExactly(backend, edits, name);
    }
  }

  /** Applying the materialized diff gives the objects the steps gave, from every world, exactly
      when the diff can express what happened to each name. */
  lemma MaterializesExactly(backend: Backend, edits: seq<Edit>)
    ensures SameObjects(backend, Materialized(EditedAll(edits)), EditOps(edits)) <==> AllExpressed(backend, edits)
  {
    SameObjectsExactly(backend, Materialized(EditedAll(edits)), EditOps(edits));
    if AllExpressed(backend, edits) {
      SameWhenExpressed(backend, edits);
    } else if SameEffects(backend, Materialized(EditedAll(edits)), EditOps(edits)) {
      ExpressedWhenSame(backend, edits);
    }
  }

  // ---- what the materialized diff leaves held ----

  /** The last hold of an object: picked up or put down, and whether the diff still shows it. A diff
      shows the last object picked up, and the last one put down since. */
  datatype Grip = NoHold | Taken(shown: bool) | Released(shown: bool)

  function Gripped(g: Grip, e: Edit, name: string): Grip {
    match e
    case Attach(n) => if n == name then Taken(true) else if g.NoHold? then g else g.(shown := false)
    case Detach(n) => if n == name then Released(true) else if g.Released? then Released(false) else g
    case AddObject(_) => g
    case RemoveObject(_) => g
    case Collisions(_, _, _) => g
  }

  function GripOf(edits: seq<Edit>, name: string): Grip {
    if edits == [] then NoHold else Gripped(GripOf(edits[..|edits| - 1], name), edits[|edits| - 1], name)
  }

  lemma {:induction false} DiffGrips(edits: seq<Edit>, name: string)
    ensures EditedAll(edits).attached == Some(name) <==> GripOf(edits, name) == Taken(true)
    ensures EditedAll(edits).detached == Some(name) <==> GripOf(edits, name) == Released(true)
  {
    if edits != [] {
      DiffGrips(edits[..|edits| - 1], name);
    }
  }

  lemma {:induction false} HoldConcat(p: seq<SceneOp>, q: seq<SceneOp>, name: string)
    ensures HoldOf(p + q, name) == if HoldOf(q, name).Some? then HoldOf(q, name) else HoldOf(p, name)
  {
    if q == [] {
      assert p + q == p;
    } else {
      assert (p + q)[..|p + q| - 1] == p + q[..|q| - 1];
      HoldConcat(p, q[..|q| - 1], name);
    }
  }

  lemma HoldOne(op: SceneOp, name: string)
    ensures HoldOf([op], name) == if op.name != name then None else if op.AttachOp? then Some(true)
                                  else if op.DetachOp? then Some(false) else None
  {
    assert [op][..0] == [];
  }

  lemma {:induction false} StepsHold(edits: seq<Edit>, name: string)
    ensures HoldOf(EditOps(edits), name)
            == match GripOf(edits, name) case NoHold => None case Taken(_) => Some(true) case Released(_) => Some(false)
  {
    if edits != [] {
      var before, e := edits[..|edits| - 1], edits[|edits| - 1];
      StepsHold(before, name);
      HoldConcat(EditOps(before), OpsOf(e), name);
      if !e.Collisions? {
        HoldOne(OpsOf(e)[0], name);
      }
    }
  }

  lemma {:induction false} AddsHoldNothing(added: seq<ObjectSpec>, name: string)
    ensures HoldOf(AddOps(added), name) == None
  {
    if added != [] {
      var init, o := added[..|added| - 1], added[|added| - 1];
      AddsHoldNothing(init, name);
      HoldConcat(AddOps(init), [AddOp(o.name, o.spec)], name);
      HoldOne(AddOp(o.name, o.spec), name);
    }
  }

  lemma {:induction false} RemovesHoldNothing(names: seq<string>, name: string)
    ensures HoldOf(RemoveOps(names), name) == None
  {
    if names != [] {
      RemovesHoldNothing(names[..|names| - 1], name);
      HoldConcat(RemoveOps(names[..|names| - 1]), [RemoveOp(names[|names| - 1])], name);
      HoldOne(RemoveOp(names[|names| - 1]), name);
    }
  }

  lemma MaterializedHolds(d: SceneDiff, name: string)
    ensures HoldOf(Materialized(d), name)
            == if d.attached == Some(name) && name != "" then Some(true)
               else if d.detached == Some(name) && name != "" then Some(false)
               else None
  {
    var p := AddOps(d.added) + RemoveOps(d.removed);
    var detach := if Named(d.detached) == [] then [] else [DetachOp(d.detached.value)];
    var attach := if Named(d.attached) == [] then [] else [AttachOp(d.attached.value)];
    AddsHoldNothing(d.added, name);
    RemovesHoldNothing(d.removed, name);
    HoldConcat(AddOps(d.added), RemoveOps(d.removed), name);
    HoldConcat(p, detach, name);
    HoldConcat(p + detach, attach, name);
    if detach != [] {
      HoldOne(detach[0], name);
    }
    if attach != [] {
      HoldOne(attach[0], name);
    }
  }

  /** The object was never held, or its last hold is the one shown and it has a name. */
  predicate HoldExpressed(g: Grip, name: string) {
    g.NoHold? || (g.shown && name != "")
  }

  ghost predicate AllHoldsExpressed(edits: seq<Edit>) {
    forall name :: HoldExpressed(GripOf(edits, name), name)
  }

  lemma HoldExpressedExactly(edits: seq<Edit>, name: string)
    ensures HoldOf(Materialized(EditedAll(edits)), name) == HoldOf(EditOps(edits), name)
            <==> HoldExpressed(GripOf(edits, name), name)
  {
    DiffGrips(edits, name);
    StepsHold(edits, name);
    MaterializedHolds(EditedAll(edits), name);
  }

  /** Applying the materialized diff gives the world the steps gave, objects and holds, from every
      world, exactly when the diff can express what happened to each object and still shows the last
      hold of each. */
  lemma MaterializesWorldsExactly(backend: Backend, edits: seq<Edit>)
    ensures SameWorlds(backend, Materialized(EditedAll(edits)), EditOps(edits))
            <==> AllExpressed(backend, edits) && AllHoldsExpressed(edits)
  {
    var p, q := Materialized(EditedAll(edits)), EditOps(edits);
    SameWorldsExactly(backend, p, q);
    SameObjectsExactly(backend, p, q);
    MaterializesExactly(backend, edits);
    forall name ensures HoldOf(p, name) == HoldOf(q, name) <==> HoldExpressed(GripOf(edits, name), name) {
      HoldExpressedExactly(edits, name);
    }
  }

  ghost predicate AddsAndRemoves(edits: seq<Edit>) {
    forall k :: 0 <= k < |edits| ==> edits[k].AddObject? || edits[k].RemoveObject?
  }

  lemma {:induction false} NeverLost(edits: seq<Edit>, name: string)
    requires AddsAndRemoves(edits)
    ensures Expressed(Overwriting, HistoryOf(edits, name))
  {
    if edits != [] {
      NeverLost(edits[..|edits| - 1], name);
    }
  }

  /** Where adding replaces, every sequence of additions and removals is materialized exactly. */
  lemma {:induction false} AddsAndRemovesMaterialize(edits: seq<Edit>, w: World)
    requires AddsAndRemoves(edits)
    ensures RunOps(Overwriting, w, Materialized(EditedAll(edits))).objects
            == RunOps(Overwriting, w, EditOps(edits)).objects
  {
    forall name ensures Expressed(Overwriting, HistoryOf(edits, name)) {
      NeverLost(edits, name);
    }
    MaterializesExactly(Overwriting, edits);
  }

  lemma RunOne(backend: Backend, w: World, op: SceneOp)
    ensures RunOps(backend, w, [op]) == Step(backend, w, op)
  {
    assert [op][..0] == [];
  }

  lemma RunTwo(backend: Backend, w: World, p: SceneOp, q: SceneOp)
    ensures RunOps(backend, w, [p, q]) == Step(backend, Step(backend, w, p), q)
  {
    assert [p, q][..1] == [p];
    RunOne(backend, w, p);
  }

  /** The replacement of an object, as edits. */
  function Replacing(name: string, spec: nat): seq<Edit> {
    [RemoveObject(name), AddObject(ObjectSpec(name, spec))]
  }

  lemma ReplacingOps(name: string, spec: nat)
    ensures EditOps(Replacing(name, spec)) == [RemoveOp(name), AddOp(name, spec)]
    ensures EditedAll(Replacing(name, spec)) == SceneDiff([ObjectSpec(name, spec)], [], None, None, {})
  {
    var edits := Replacing(name, spec);
    var first := edits[..1];
    assert first == [RemoveObject(name)] && first[..0] == [];
    assert EditOps(first) == [] + [RemoveOp(name)] == [RemoveOp(name)];
    assert EditedAll(first) == WithObjectRemoved(NO_CHANGE, name);
    assert EditedAll(first).removed == [name];
  }

  lemma MaterializedAddition(o: ObjectSpec)
    ensures Materialized(SceneDiff([o], [], None, None, {})) == [AddOp(o.name, o.spec)]
  {
    assert [o][..0] == [];
    assert AddOps([o]) == [] + [AddOp(o.name, o.spec)] == [AddOp(o.name, o.spec)];
  }

  /** On a refusing server, replacing an object of the base world is lost in the diff. */
  lemma ReplacementNotMaterialized(name: string, was: nat, now: nat)
    requires was != now
    ensures var edits := Replacing(name, now);
            var w := World(map[name := was], {});
            && RunOps(Refusing, w, EditOps(edits)).objects == map[name := now]
            && RunOps(Refusing, w, Materialized(EditedAll(edits))).objects == map[name := was]
  {
    var w := World(map[name := was], {});
    ReplacingOps(name, now);
    MaterializedAddition(ObjectSpec(name, now));
    RunTwo(Refusing, w, RemoveOp(name), AddOp(name, now));
    RunOne(Refusing, w, AddOp(name, now));
    assert w.objects - {name} == map[];
  }
}
