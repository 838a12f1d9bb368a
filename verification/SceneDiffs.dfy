/** The cumulative scene diff a state carries, and the operations that bring it about. */
module SceneDiffs {
  import opened Interfaces
  import opened Chains

  /** What is known of an object besides its name stays abstract. */
  datatype ObjectSpec = ObjectSpec(name: string, spec: nat)

  /** The added objects are an insertion-ordered dictionary, the removed names a list. */
  datatype SceneDiff = SceneDiff(
    added: seq<ObjectSpec>,
    removed: seq<string>,
    attached: Option<string>,
    detached: Option<string>,
    disabled: set<(string, string)>)

  const NO_CHANGE := SceneDiff([], [], None, None, {})

  /** Assigning to a dictionary key replaces the value where it stands or appends it. */
  function Put(added: seq<ObjectSpec>, o: ObjectSpec): seq<ObjectSpec> {
    if added == [] then [o]
    else if added[0].name == o.name then [o] + added[1..]
    else [added[0]] + Put(added[1..], o)
  }

  function Pop(added: seq<ObjectSpec>, name: string): seq<ObjectSpec> {
    if added == [] then []
    else if added[0].name == name then added[1..]
    else [added[0]] + Pop(added[1..], name)
  }

  /** Removes the first occurrence only. */
  function Without(names: seq<string>, name: string): seq<string> {
    if names == [] then []
    else if names[0] == name then names[1..]
    else [names[0]] + Without(names[1..], name)
  }

  function WithObjectAdded(d: SceneDiff, o: ObjectSpec): SceneDiff {
    d.(added := Put(d.added, o), removed := if o.name in d.removed then Without(d.removed, o.name) else d.removed)
  }

  function WithObjectRemoved(d: SceneDiff, name: string): SceneDiff {
    d.(removed := if name in d.removed then d.removed else d.removed + [name], added := Pop(d.added, name))
  }

  /** A picked object leaves the added ones. */
  function WithAttached(d: SceneDiff, name: string): SceneDiff {
    d.(attached := Some(name), detached := None, added := Pop(d.added, name))
  }

  function WithDetached(d: SceneDiff, name: string): SceneDiff {
    d.(detached := Some(name), attached := if d.attached == Some(name) then None else d.attached)
  }

  function WithCollisions(d: SceneDiff, name: string, links: seq<string>, enabled: bool): SceneDiff {
    var pairs := set l | l in links :: (name, l);
    d.(disabled := if enabled then d.disabled + pairs else d.disabled - pairs)
  }

  /** One use of a mutator. */
  datatype Edit =
    | AddObject(o: ObjectSpec)
    | RemoveObject(name: string)
    | Attach(name: string)
    | Detach(name: string)
    | Collisions(name: string, links: seq<string>, enabled: bool)

  function Edited(d: SceneDiff, e: Edit): SceneDiff {
    match e
    case AddObject(o) => WithObjectAdded(d, o)
    case RemoveObject(name) => WithObjectRemoved(d, name)
    case Attach(name) => WithAttached(d, name)
    case Detach(name) => WithDetached(d, name)
    case Collisions(name, links, enabled) => WithCollisions(d, name, links, enabled)
  }

  function EditedAll(edits: seq<Edit>): SceneDiff {
    if edits == [] then NO_CHANGE
    else Edited(EditedAll(edits[..|edits| - 1]), edits[|edits| - 1])
  }

  // ---- the normal form ----

  ghost predicate DistinctNames(added: seq<ObjectSpec>) {
    added == [] || (Spec(added[1..], added[0].name) == None && DistinctNames(added[1..]))
  }

  /** The dictionary lookup. */
  function Spec(added: seq<ObjectSpec>, name: string): Option<nat> {
    if added == [] then None
    else if added[0].name == name then Some(added[0].spec)
    else Spec(added[1..], name)
  }

  ghost predicate NormalForm(d: SceneDiff) {
    && DistinctNames(d.added) && NoDup(d.removed)
    && (forall name :: name in d.removed ==> Spec(d.added, name) == None)
    && (d.attached.Some? ==> d.attached != d.detached)
  }

  lemma {:induction false} PutLooksUp(added: seq<ObjectSpec>, o: ObjectSpec, name: string)
    ensures Spec(Put(added, o), name) == if name == o.name then Some(o.spec) else Spec(added, name)
  {
    if added != [] && added[0].name == o.name {
      assert ([o] + added[1..])[1..] == added[1..];
    } else if added != [] {
      PutLooksUp(added[1..], o, name);
      assert ([added[0]] + Put(added[1..], o))[1..] == Put(added[1..], o);
    }
  }

  lemma {:induction false} PutDistinct(added: seq<ObjectSpec>, o: ObjectSpec)
    requires DistinctNames(added)
    ensures DistinctNames(Put(added, o))
  {
    if added != [] && added[0].name == o.name {
      assert ([o] + added[1..])[1..] == added[1..];
    } else if added != [] {
      PutDistinct(added[1..], o);
      PutLooksUp(added[1..], o, added[0].name);
      assert ([added[0]] + Put(added[1..], o))[1..] == Put(added[1..], o);
    }
  }

  lemma {:induction false} PopLooksUp(added: seq<ObjectSpec>, out: string, name: string)
    requires DistinctNames(added)
    ensures Spec(Pop(added, out), name) == if name == out then None else Spec(added, name)
  {
    if added != [] && added[0].name != out {
      PopLooksUp(added[1..], out, name);
      assert ([added[0]] + Pop(added[1..], out))[1..] == Pop(added[1..], out);
    }
  }

  lemma {:induction false} PopDistinct(added: seq<ObjectSpec>, out: string)
    requires DistinctNames(added)
    ensures DistinctNames(Pop(added, out))
  {
    if added != [] && added[0].name != out {
      PopDistinct(added[1..], out);
      PopLooksUp(added[1..], out, added[0].name);
      assert ([added[0]] + Pop(added[1..], out))[1..] == Pop(added[1..], out);
    }
  }

  lemma {:induction false} WithoutKeeps(names: seq<string>, out: string, name: string)
    requires NoDup(names)
    ensures name in Without(names, out) <==> name in names && name != out
  {
    if names != [] {
      assert names == [names[0]] + names[1..];
      if names[0] != out {
        WithoutKeeps(names[1..], out, name);
      }
    }
  }

  lemma {:induction false} WithoutNoDup(names: seq<string>, out: string)
    requires NoDup(names)
    ensures NoDup(Without(names, out))
  {
    if names != [] && names[0] != out {
      WithoutNoDup(names[1..], out);
      WithoutKeeps(names[1..], out, names[0]);
      assert ([names[0]] + Without(names[1..], out))[1..] == Without(names[1..], out);
    }
  }

  lemma {:induction false} SnocNoDup(names: seq<string>, name: string)
    requires NoDup(names) && name !in names
    ensures NoDup(names + [name])
  {
    if names == [] {
      assert [] + [name] == [name];
    } else {
      assert (names + [name])[1..] == names[1..] + [name];
      SnocNoDup(names[1..], name);
    }
  }

  lemma EditKeepsForm(d: SceneDiff, e: Edit)
    requires NormalForm(d)
    ensures NormalForm(Edited(d, e))
  {
    match e
    case AddObject(o) =>
      PutDistinct(d.added, o);
      WithoutNoDup(d.removed, o.name);
      forall name | name in Edited(d, e).removed ensures Spec(Put(d.added, o), name) == None {
        WithoutKeeps(d.removed, o.name, name);
        PutLooksUp(d.added, o, name);
      }
    case RemoveObject(name) =>
      PopDistinct(d.added, name);
      if name !in d.removed {
        SnocNoDup(d.removed, name);
      }
      forall m | m in Edited(d, e).removed ensures Spec(Pop(d.added, name), m) == None {
        PopLooksUp(d.added, name, m);
      }
    case Attach(name) =>
      PopDistinct(d.added, name);
      forall m | m in d.removed ensures Spec(Pop(d.added, name), m) == None {
        PopLooksUp(d.added, name, m);
      }
    case Detach(name) =>
    case Collisions(name, links, enabled) =>
  }

  /** After any sequence of mutators: added and removed names are disjoint, neither repeats, and
      the attached object is not the detached one. */
  lemma {:induction false} AlwaysNormal(edits: seq<Edit>)
    ensures NormalForm(EditedAll(edits))
  {
    if edits != [] {
      AlwaysNormal(edits[..|edits| - 1]);
      EditKeepsForm(EditedAll(edits[..|edits| - 1]), edits[|edits| - 1]);
    }
  }

  // ---- operations ----

  // ---- the order in which objects are listed ----

  /** A new object is listed last, a changed one where it was, and a dropped one leaves the others as they were. */
  lemma {:induction false} PutAtPlace(a: seq<ObjectSpec>, o: ObjectSpec, b: seq<ObjectSpec>, p: ObjectSpec)
    requires Spec(a, p.name) == None
    ensures Put(a, p) == a + [p] && Pop(a, p.name) == a
    ensures o.name == p.name ==> Put(a + [o] + b, p) == a + [p] + b && Pop(a + [o] + b, p.name) == a + b
  {
    if a != [] {
      PutAtPlace(a[1..], o, b, p);
      assert (a + [o] + b)[1..] == a[1..] + [o] + b;
      assert a == [a[0]] + a[1..];
    } else {
      assert ([] + [o] + b)[1..] == b;
    }
  }

  lemma {:induction false} WithoutAtPlace(a: seq<string>, name: string, b: seq<string>)
    requires name !in a
    ensures Without(a + [name] + b, name) == a + b
  {
    if a == [] {
      assert (a + [name] + b)[1..] == b;
    } else {
      assert (a + [name] + b)[1..] == a[1..] + [name] + b;
      assert a == [a[0]] + a[1..];
      WithoutAtPlace(a[1..], name, b);
    }
  }

  // ---- collisions ----

  predicate Mentions(e: Edit, name: string, link: string) {
    e.Collisions? && e.name == name && link in e.links
  }

  /** The last edit that mentions the pair disables it. */
  ghost predicate LastDisables(edits: seq<Edit>, name: string, link: string) {
    exists i :: 0 <= i < |edits| && Mentions(edits[i], name, link) && edits[i].enabled
                && forall j :: i < j < |edits| ==> !Mentions(edits[j], name, link)
  }

  lemma LastDisablesNext(init: seq<Edit>, last: Edit, name: string, link: string)
    ensures LastDisables(init + [last], name, link)
            <==> if Mentions(last, name, link) then last.enabled else LastDisables(init, name, link)
  {
    var all := init + [last];
    if Mentions(last, name, link) {
      assert all[|init|] == last;
    } else {
      if i :| 0 <= i < |init| && Mentions(init[i], name, link) && init[i].enabled
              && forall j :: i < j < |init| ==> !Mentions(init[j], name, link) {
        assert all[i] == init[i];
      }
      if i :| 0 <= i < |all| && Mentions(all[i], name, link) && all[i].enabled
              && forall j :: i < j < |all| ==> !Mentions(all[j], name, link) {
        assert all[i] == init[i] && forall j :: i < j < |init| ==> all[j] == init[j];
      }
    }
  }

  /** After any edits a pair is disabled exactly when the last edit that mentions it disables it. */
  lemma {:induction false} DisabledExactly(edits: seq<Edit>, name: string, link: string)
    ensures (name, link) in EditedAll(edits).disabled <==> LastDisables(edits, name, link)
  {
    if edits != [] {
      var init, last := edits[..|edits| - 1], edits[|edits| - 1];
      DisabledExactly(init, name, link);
      LastDisablesNext(init, last, name, link);
      assert init + [last] == edits;
    }
  }

  function AddOps(added: seq<ObjectSpec>): seq<SceneOp> {
    if added == [] then [] else AddOps(added[..|added| - 1]) + [AddOp(added[|added| - 1].name, added[|added| - 1].spec)]
  }

  function RemoveOps(names: seq<string>): seq<SceneOp> {
    if names == [] then [] else RemoveOps(names[..|names| - 1]) + [RemoveOp(names[|names| - 1])]
  }

  /** An object reference is passed on when it is set and not the empty string. */
  function Named(o: Option<string>): seq<string> {
    if o.Some? && o.value != "" then [o.value] else []
  }

  /** Additions, removals, then the detached and the attached object. */
  function Materialized(d: SceneDiff): seq<SceneOp> {
    AddOps(d.added) + RemoveOps(d.removed)
    + (if Named(d.detached) == [] then [] else [DetachOp(d.detached.value)])
    + (if Named(d.attached) == [] then [] else [AttachOp(d.attached.value)])
  }

  method OpsToMaterialize(d: SceneDiff) returns (ops: seq<SceneOp>)
    ensures ops == Materialized(d)
  {
    ops := [];
    for i := 0 to |d.added|
      invariant ops == AddOps(d.added[..i])
    {
      assert d.added[..i + 1][..i] == d.added[..i];
      ops := ops + [AddOp(d.added[i].name, d.added[i].spec)];
    }
    assert d.added[..|d.added|] == d.added;
    for i := 0 to |d.removed|
      invariant ops == AddOps(d.added) + RemoveOps(d.removed[..i])
    {
      assert d.removed[..i + 1][..i] == d.removed[..i];
      ops := ops + [RemoveOp(d.removed[i])];
    }
    assert d.removed[..|d.removed|] == d.removed;
    if d.detached.Some? && d.detached.value != "" {
      ops := ops + [DetachOp(d.detached.value)];
    }
    if d.attached.Some? && d.attached.value != "" {
      ops := ops + [AttachOp(d.attached.value)];
    }
  }

  lemma {:induction false} AddOpsAt(added: seq<ObjectSpec>)
    ensures |AddOps(added)| == |added|
    ensures forall k :: 0 <= k < |added| ==> AddOps(added)[k] == AddOp(added[k].name, added[k].spec)
  {
    if added != [] {
      AddOpsAt(added[..|added| - 1]);
    }
  }

  lemma {:induction false} RemoveOpsAt(names: seq<string>)
    ensures |RemoveOps(names)| == |names|
    ensures forall k :: 0 <= k < |names| ==> RemoveOps(names)[k] == RemoveOp(names[k])
  {
    if names != [] {
      RemoveOpsAt(names[..|names| - 1]);
    }
  }

  /** The additions come first, as listed, then the removals, as listed, then the detachment and last the
      attachment, each where there is one. */
  lemma MaterializedAt(d: SceneDiff)
    ensures var ops, a, b := Materialized(d), |d.added|, |d.added| + |d.removed|;
            var det, att := d.detached.Some? && d.detached.value != "", d.attached.Some? && d.attached.value != "";
            && |ops| == b + (if det then 1 else 0) + (if att then 1 else 0)
            && (forall k :: 0 <= k < a ==> ops[k] == AddOp(d.added[k].name, d.added[k].spec))
            && (forall k :: a <= k < b ==> ops[k] == RemoveOp(d.removed[k - a]))
            && (det ==> ops[b] == DetachOp(d.detached.value))
            && (att ==> ops[|ops| - 1] == AttachOp(d.attached.value))
  {
    AddOpsAt(d.added);
    RemoveOpsAt(d.removed);
  }

  /** The delta a scene-modifying stage records for one edit. */
  function OpsOf(e: Edit): seq<SceneOp> {
    match e
    case AddObject(o) => [AddOp(o.name, o.spec)]
    case RemoveObject(name) => [RemoveOp(name)]
    case Attach(name) => [AttachOp(name)]
    case Detach(name) => [DetachOp(name)]
    case Collisions(_, _, _) => []
  }

  function EditOps(edits: seq<Edit>): seq<SceneOp> {
    if edits == [] then [] else EditOps(edits[..|edits| - 1]) + OpsOf(edits[|edits| - 1])
  }
}
