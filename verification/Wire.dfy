/** The flat wire format of a task graph, and the tree it is re-linked into. */
module Wire {

  /** What a graph node says about itself. */
  datatype Fields = Fields(stageType: string, name: string, containerType: string, params: string)

  datatype Spec = Spec(fields: Fields, children: seq<Spec>)

  /** One wire message; `parent == id` marks a root. */
  datatype Msg = Msg(id: nat, parent: nat, fields: Fields)

  datatype Error =
    | DuplicateId(id: nat)
    | UnknownParent(id: nat)
    | RootCount(count: nat)
    | NoIdZero
    | RootNotFirst

  datatype Result<+T> = Ok(value: T) | Err(error: Error)

  // --- flattening ----------------------------------------------------------------------------------

  /** The messages of `t` when its own message gets id `base`. */
  function FlattenAt(t: Spec, parent: nat, base: nat): (r: seq<Msg>)
    ensures |r| > 0 && r[0] == Msg(base, parent, t.fields)
    decreases t, 0
  {
    [Msg(base, parent, t.fields)] + FlattenForest(t.children, base, base + 1)
  }

  function FlattenForest(ts: seq<Spec>, parent: nat, base: nat): seq<Msg>
    decreases ts
  {
    if ts == [] then []
    else
      var before := FlattenForest(ts[..|ts| - 1], parent, base);
      before + FlattenAt(ts[|ts| - 1], parent, base + |before|)
  }

  function ToMsgs(t: Spec): seq<Msg> { FlattenAt(t, 0, 0) }

  /** The recursive visit that appends to one output list. */
  method Visit(t: Spec, parent: nat, out: seq<Msg>) returns (r: seq<Msg>)
    ensures r == out + FlattenAt(t, parent, |out|)
    decreases t
  {
    var id := |out|;
    r := out + [Msg(id, parent, t.fields)];
    for i := 0 to |t.children|
      invariant r == out + [Msg(id, parent, t.fields)] + FlattenForest(t.children[..i], id, id + 1)
    {
      assert t.children[..i + 1][..i] == t.children[..i];
      r := Visit(t.children[i], id, r);
    }
    assert t.children[..|t.children|] == t.children;
  }

  method ToMsgList(t: Spec) returns (out: seq<Msg>)
    ensures out == ToMsgs(t)
  {
    out := Visit(t, 0, []);
  }

  // --- what a list means -----------------------------------------------------------------------------

  ghost predicate UniqueIds(msgs: seq<Msg>) {
    forall i, j :: 0 <= i < j < |msgs| ==> msgs[i].id != msgs[j].id
  }

  ghost predicate HasParentBefore(msgs: seq<Msg>, j: nat)
    requires j < |msgs|
  {
    exists i :: 0 <= i < j && msgs[i].id == msgs[j].parent
  }

  predicate IsRoot(m: Msg) { m.parent == m.id }

  /** Ids are unique, the first message is the only root and has id 0, and every parent
      precedes its children. */
  ghost predicate Acceptable(msgs: seq<Msg>) {
    && msgs != [] && UniqueIds(msgs) && msgs[0].id == 0 && IsRoot(msgs[0])
    && forall j :: 0 < j < |msgs| ==> !IsRoot(msgs[j]) && HasParentBefore(msgs, j)
  }

  /** The positions among the first `m` messages that name message `i` as their parent, in
      wire order. */
  function Kids(msgs: seq<Msg>, i: nat, m: nat): (r: seq<nat>)
    requires i < |msgs| && m <= |msgs|
    ensures forall k :: 0 <= k < |r| ==> i < r[k] < m
  {
    if m == 0 then []
    else
      var before := Kids(msgs, i, m - 1);
      if i < m - 1 && msgs[m - 1].parent == msgs[i].id && !IsRoot(msgs[m - 1]) then before + [m - 1] else before
  }

  lemma {:induction false} KidsMember(msgs: seq<Msg>, i: nat, m: nat, j: nat)
    requires i < |msgs| && m <= |msgs|
    ensures j in Kids(msgs, i, m) <==> i < j < m && msgs[j].parent == msgs[i].id && !IsRoot(msgs[j])
  {
    if m > 0 {
      KidsMember(msgs, i, m - 1, j);
    }
  }

  ghost predicate Increasing(r: seq<nat>) {
    forall k, l :: 0 <= k < l < |r| ==> r[k] < r[l]
  }

  lemma {:induction false} KidsIncrease(msgs: seq<Msg>, i: nat, m: nat)
    requires i < |msgs| && m <= |msgs|
    ensures Increasing(Kids(msgs, i, m))
  {
    if m > 0 {
      KidsIncrease(msgs, i, m - 1);
      IncreasingSnoc(Kids(msgs, i, m - 1), m - 1);
    }
  }

  lemma IncreasingSnoc(r: seq<nat>, x: nat)
    requires Increasing(r) && forall k :: 0 <= k < |r| ==> r[k] < x
    ensures Increasing(r + [x])
  {
  }

  /** The tree of message `i`: its fields over the trees of its children in wire order. */
  function Assemble(msgs: seq<Msg>, i: nat): Spec
    requires i < |msgs|
    decreases |msgs| - i, 0, 0
  {
    var kids := Kids(msgs, i, |msgs|);
    Spec(msgs[i].fields, AssembleAll(msgs, i, kids))
  }

  function AssembleAll(msgs: seq<Msg>, i: nat, kids: seq<nat>): (r: seq<Spec>)
    requires i < |msgs| && forall k :: 0 <= k < |kids| ==> i < kids[k] < |msgs|
    ensures |r| == |kids|
    decreases |msgs| - i - 1, 1, |kids|
  {
    if kids == [] then []
    else AssembleAll(msgs, i, kids[..|kids| - 1]) + [Assemble(msgs, kids[|kids| - 1])]
  }

  // --- re-linking ----------------------------------------------------------------------------------------

  /** A node object under construction; children refer to later objects. */
  datatype Linked = Linked(fields: Fields, children: seq<nat>)

  function Read(objs: seq<Linked>, i: nat): Spec
    requires i < |objs|
    decreases |objs| - i, 0, 0
  {
    Spec(objs[i].fields, ReadAll(objs, i, objs[i].children))
  }

  /** The referenced objects; a reference that does not point to a later object is cut. */
  function ReadAll(objs: seq<Linked>, i: nat, refs: seq<nat>): seq<Spec>
    requires i < |objs|
    decreases |objs| - i - 1, 1, |refs|
  {
    if refs == [] then []
    else
      var last := refs[|refs| - 1];
      ReadAll(objs, i, refs[..|refs| - 1]) + if i < last < |objs| then [Read(objs, last)] else []
  }

  /** After `m` messages object `k` holds message `k` and its children so far. */
  ghost predicate LinkedUp(msgs: seq<Msg>, objs: seq<Linked>, m: nat)
    requires m <= |msgs|
  {
    |objs| == m && forall k :: 0 <= k < m ==> objs[k] == Linked(msgs[k].fields, Kids(msgs, k, m))
  }

  lemma {:induction false} ReadIsAssemble(msgs: seq<Msg>, objs: seq<Linked>, i: nat)
    requires LinkedUp(msgs, objs, |msgs|) && i < |msgs|
    ensures Read(objs, i) == Assemble(msgs, i)
    decreases |msgs| - i, 0, 0
  {
    ReadAllIsAssemble(msgs, objs, i, Kids(msgs, i, |msgs|));
  }

  lemma {:induction false} ReadAllIsAssemble(msgs: seq<Msg>, objs: seq<Linked>, i: nat, kids: seq<nat>)
    requires LinkedUp(msgs, objs, |msgs|) && i < |msgs|
    requires forall k :: 0 <= k < |kids| ==> i < kids[k] < |msgs|
    ensures ReadAll(objs, i, kids) == AssembleAll(msgs, i, kids)
    decreases |msgs| - i - 1, 1, |kids|
  {
    if kids != [] {
      ReadAllIsAssemble(msgs, objs, i, kids[..|kids| - 1]);
      ReadIsAssemble(msgs, objs, kids[|kids| - 1]);
    }
  }

  /** The dictionary from ids to objects after `m` messages. */
  ghost predicate Registered(msgs: seq<Msg>, nodes: map<nat, nat>, m: nat)
    requires m <= |msgs|
  {
    && (forall j :: 0 <= j < m ==> msgs[j].id in nodes && nodes[msgs[j].id] == j)
    && forall id :: id in nodes ==> nodes[id] < m && msgs[nodes[id]].id == id
  }

  lemma KidsStep(msgs: seq<Msg>, i: nat, m: nat)
    requires i < m < |msgs|
    ensures Kids(msgs, i, m + 1) ==
              if msgs[m].parent == msgs[i].id && !IsRoot(msgs[m]) then Kids(msgs, i, m) + [m] else Kids(msgs, i, m)
  {
  }

  lemma {:induction false} KidsNone(msgs: seq<Msg>, i: nat, m: nat)
    requires i < |msgs| && m <= |msgs| && m <= i + 1
    ensures Kids(msgs, i, m) == []
  {
    if m > 0 {
      KidsNone(msgs, i, m - 1);
    }
  }

  /** A message with a registered parent is linked under it. */
  lemma LinkChild(msgs: seq<Msg>, objs: seq<Linked>, m: nat, p: nat)
    requires m < |msgs| && LinkedUp(msgs, objs, m) && UniqueIds(msgs[..m])
    requires p < m && msgs[p].id == msgs[m].parent && !IsRoot(msgs[m])
    ensures LinkedUp(msgs, objs[p := objs[p].(children := objs[p].children + [m])] + [Linked(msgs[m].fields, [])],
                     m + 1)
  {
    var objs' := objs[p := objs[p].(children := objs[p].children + [m])] + [Linked(msgs[m].fields, [])];
    forall k | 0 <= k < m + 1 ensures objs'[k] == Linked(msgs[k].fields, Kids(msgs, k, m + 1)) {
      if k == m {
        KidsNone(msgs, m, m + 1);
      } else {
        KidsStep(msgs, k, m);
        assert msgs[..m][k] == msgs[k] && msgs[..m][p] == msgs[p];
      }
    }
  }

  lemma LinkRoot(msgs: seq<Msg>, objs: seq<Linked>, m: nat)
    requires m < |msgs| && LinkedUp(msgs, objs, m) && IsRoot(msgs[m])
    ensures LinkedUp(msgs, objs + [Linked(msgs[m].fields, [])], m + 1)
  {
    var objs' := objs + [Linked(msgs[m].fields, [])];
    forall k | 0 <= k < m + 1 ensures objs'[k] == Linked(msgs[k].fields, Kids(msgs, k, m + 1)) {
      if k == m {
        KidsNone(msgs, m, m + 1);
      } else {
        KidsStep(msgs, k, m);
      }
    }
  }

  ghost function RootsTo(msgs: seq<Msg>, m: nat): (r: seq<nat>)
    requires m <= |msgs|
    ensures forall j :: j in r <==> 0 <= j < m && IsRoot(msgs[j])
    ensures forall k, l :: 0 <= k < l < |r| ==> r[k] < r[l]
    ensures forall k :: 0 <= k < |r| ==> r[k] < m
  {
    if m == 0 then []
    else if IsRoot(msgs[m - 1]) then RootsTo(msgs, m - 1) + [m - 1] else RootsTo(msgs, m - 1)
  }

  /** The first `m` messages have been re-linked without an error. */
  ghost predicate Relinked(msgs: seq<Msg>, m: nat, nodes: map<nat, nat>, objs: seq<Linked>, roots: seq<nat>)
    requires m <= |msgs|
  {
    && LinkedUp(msgs, objs, m) && Registered(msgs, nodes, m) && UniqueIds(msgs[..m]) && roots == RootsTo(msgs, m)
    && forall j :: 0 <= j < m && !IsRoot(msgs[j]) ==> HasParentBefore(msgs, j)
  }

  // ---- what a refusal says ----

  /** Message `m` has the id of an earlier one. */
  ghost predicate Repeats(msgs: seq<Msg>, m: nat)
    requires m < |msgs|
  {
    exists i :: 0 <= i < m && msgs[i].id == msgs[m].id
  }

  /** Message `m` names a parent that has not appeared. */
  ghost predicate Orphan(msgs: seq<Msg>, m: nat)
    requires m < |msgs|
  {
    msgs[m].parent != msgs[m].id && !HasParentBefore(msgs, m)
  }

  ghost predicate CleanTo(msgs: seq<Msg>, m: nat)
    requires m <= |msgs|
  {
    forall j :: 0 <= j < m ==> !Repeats(msgs, j) && !Orphan(msgs, j)
  }

  /** Message `m` is the first at fault. */
  ghost predicate FirstFault(msgs: seq<Msg>, m: nat) {
    m < |msgs| && CleanTo(msgs, m) && (Repeats(msgs, m) || Orphan(msgs, m))
  }

  /** The error names the first message at fault and its fault; where there is none, what is wrong with the root. */
  ghost predicate Explains(msgs: seq<Msg>, e: Error) {
    match e
    case DuplicateId(id) => exists m: nat :: FirstFault(msgs, m) && Repeats(msgs, m) && id == msgs[m].id
    case UnknownParent(id) => exists m: nat :: FirstFault(msgs, m) && !Repeats(msgs, m) && id == msgs[m].id
    case RootCount(k) => CleanTo(msgs, |msgs|) && k == |RootsTo(msgs, |msgs|)| != 1
    case NoIdZero =>
      CleanTo(msgs, |msgs|) && |RootsTo(msgs, |msgs|)| == 1 && forall j :: 0 <= j < |msgs| ==> msgs[j].id != 0
    case RootNotFirst =>
      && CleanTo(msgs, |msgs|) && |RootsTo(msgs, |msgs|)| == 1
      && exists j :: 0 <= j < |msgs| && msgs[j].id == 0 && msgs[j].parent != 0
  }

  lemma RelinkedClean(msgs: seq<Msg>, m: nat, nodes: map<nat, nat>, objs: seq<Linked>, roots: seq<nat>)
    requires m <= |msgs| && Relinked(msgs, m, nodes, objs, roots)
    ensures CleanTo(msgs, m)
    ensures m < |msgs| ==> (msgs[m].id in nodes <==> Repeats(msgs, m))
    ensures m < |msgs| && msgs[m].parent !in nodes && msgs[m].parent != msgs[m].id ==> Orphan(msgs, m)
  {
    forall j | 0 <= j < m ensures !Repeats(msgs, j) && !Orphan(msgs, j) {
      forall i | 0 <= i < j ensures msgs[i].id != msgs[j].id {
        assert msgs[..m][i] == msgs[i] && msgs[..m][j] == msgs[j];
      }
    }
    if m < |msgs| {
      NotRegistered(msgs, m, nodes);
      if msgs[m].id in nodes {
        assert msgs[nodes[msgs[m].id]].id == msgs[m].id;
      }
    }
  }

  lemma Register(msgs: seq<Msg>, m: nat, nodes: map<nat, nat>)
    requires m < |msgs| && Registered(msgs, nodes, m) && UniqueIds(msgs[..m]) && msgs[m].id !in nodes
    ensures Registered(msgs, nodes[msgs[m].id := m], m + 1) && UniqueIds(msgs[..m + 1])
  {
    var a := msgs[..m];
    var b := msgs[..m + 1];
    forall i, j | 0 <= i < j < |b| ensures b[i].id != b[j].id {
      assert b[i] == a[i];
      assert j < m ==> a[j] == b[j];
    }
  }

  lemma NotRegistered(msgs: seq<Msg>, m: nat, nodes: map<nat, nat>)
    requires m < |msgs| && Registered(msgs, nodes, m)
    ensures msgs[m].id in nodes ==> !UniqueIds(msgs)
    ensures msgs[m].parent !in nodes ==> !HasParentBefore(msgs, m)
  {
    if msgs[m].id in nodes {
      assert msgs[nodes[msgs[m].id]].id == msgs[m].id;
    }
  }

  /** One message: its node is created, registered and attached to its parent. */
  method RelinkOne(msgs: seq<Msg>, m: nat, nodes: map<nat, nat>, objs: seq<Linked>, roots: seq<nat>)
    returns (error: Result<()>, nodes': map<nat, nat>, objs': seq<Linked>, roots': seq<nat>)
    requires m < |msgs| && Relinked(msgs, m, nodes, objs, roots)
    ensures error.Ok? ==> Relinked(msgs, m + 1, nodes', objs', roots')
    ensures error.Err? ==> !Acceptable(msgs) && Explains(msgs, error.error)
  {
    var s := msgs[m];
    error, nodes', objs', roots' := Ok(()), nodes, objs, roots;
    RelinkedClean(msgs, m, nodes, objs, roots);
    NotRegistered(msgs, m, nodes);
    if s.id in nodes {
      assert FirstFault(msgs, m);
      error := Err(DuplicateId(s.id));
      return;
    }
    if s.parent == s.id {
      LinkRoot(msgs, objs, m);
      objs' := objs + [Linked(s.fields, [])];
      roots' := roots + [m];
    } else if s.parent !in nodes {
      assert FirstFault(msgs, m);
      error := Err(UnknownParent(s.id));
      return;
    } else {
      var p := nodes[s.parent];
      LinkChild(msgs, objs, m, p);
      objs' := objs[p := objs[p].(children := objs[p].children + [m])] + [Linked(s.fields, [])];
      assert HasParentBefore(msgs, m);
    }
    Register(msgs, m, nodes);
    nodes' := nodes[s.id := m];
  }

  /** Re-links a flat list in one pass. Accepted are exactly the lists that describe a tree; the
      result is then the tree in which every message hangs under its stated parent, siblings in
      wire order. */
  method FromMsgList(msgs: seq<Msg>) returns (r: Result<Spec>)
    ensures r.Ok? <==> Acceptable(msgs)
    ensures r.Ok? ==> r.value == Assemble(msgs, 0)
    ensures r.Err? ==> Explains(msgs, r.error)
  {
    var nodes: map<nat, nat> := map[];
    var objs: seq<Linked> := [];
    var roots: seq<nat> := [];
    for m := 0 to |msgs|
      invariant Relinked(msgs, m, nodes, objs, roots)
    {
      var error;
      error, nodes, objs, roots := RelinkOne(msgs, m, nodes, objs, roots);
      if error.Err? {
        return Err(error.error);
      }
    }
    Verdict(msgs, nodes, roots);
    RelinkedClean(msgs, |msgs|, nodes, objs, roots);
    if |roots| != 1 {
      return Err(RootCount(|roots|));
    }
    if 0 !in nodes {
      return Err(NoIdZero);
    }
    if roots[0] != nodes[0] {
      return Err(RootNotFirst);
    }
    ReadIsAssemble(msgs, objs, 0);
    r := Ok(Read(objs, roots[0]));
  }

  /** What the final checks decide. */
  lemma Verdict(msgs: seq<Msg>, nodes: map<nat, nat>, roots: seq<nat>)
    requires Registered(msgs, nodes, |msgs|) && UniqueIds(msgs[..|msgs|]) && roots == RootsTo(msgs, |msgs|)
    requires forall j :: 0 <= j < |msgs| && !IsRoot(msgs[j]) ==> HasParentBefore(msgs, j)
    ensures Acceptable(msgs) <==> |roots| == 1 && 0 in nodes && roots[0] == nodes[0]
    ensures Acceptable(msgs) ==> roots == [0]
  {
    assert msgs[..|msgs|] == msgs;
    if Acceptable(msgs) {
      OneRoot(msgs);
    }
    if |roots| == 1 {
      RootIsFirst(msgs);
    }
  }

  lemma {:induction false} IncreasingSpread(r: seq<nat>, m: nat)
    requires 0 < m <= |r| && forall k, l :: 0 <= k < l < |r| ==> r[k] < r[l]
    ensures r[m - 1] >= r[0] + m - 1
  {
    if m > 1 {
      IncreasingSpread(r, m - 1);
    }
  }

  lemma OneRoot(msgs: seq<Msg>)
    requires Acceptable(msgs)
    ensures RootsTo(msgs, |msgs|) == [0]
  {
    var r := RootsTo(msgs, |msgs|);
    assert 0 in r;
    assert forall k :: 0 <= k < |r| ==> r[k] in r;
    IncreasingSpread(r, |r|);
  }

  lemma RootListed(msgs: seq<Msg>, j: nat)
    requires j < |msgs| && |RootsTo(msgs, |msgs|)| == 1 && IsRoot(msgs[j])
    ensures RootsTo(msgs, |msgs|) == [j]
  {
    assert j in RootsTo(msgs, |msgs|);
  }

  /** When all other messages have a parent before them, the only root is the first one. */
  lemma RootIsFirst(msgs: seq<Msg>)
    requires |RootsTo(msgs, |msgs|)| == 1
    requires forall j :: 0 <= j < |msgs| && !IsRoot(msgs[j]) ==> HasParentBefore(msgs, j)
    ensures RootsTo(msgs, |msgs|) == [0] && msgs != []
    ensures forall j :: 0 < j < |msgs| ==> !IsRoot(msgs[j])
  {
    var r := RootsTo(msgs, |msgs|);
    assert r[0] in r;
    assert !HasParentBefore(msgs, 0);
    RootListed(msgs, 0);
    forall j | 0 < j < |msgs| ensures !IsRoot(msgs[j]) {
      if IsRoot(msgs[j]) {
        RootListed(msgs, j);
      }
    }
  }

  // --- each message once -------------------------------------------------------------------------------

  /** The positions of the messages in the tree of message `i`, in pre-order. */
  function Positions(msgs: seq<Msg>, i: nat): seq<nat>
    requires i < |msgs|
    decreases |msgs| - i, 0, 0
  {
    [i] + PositionsAll(msgs, i, Kids(msgs, i, |msgs|))
  }

  function PositionsAll(msgs: seq<Msg>, i: nat, kids: seq<nat>): seq<nat>
    requires i < |msgs| && forall k :: 0 <= k < |kids| ==> i < kids[k] < |msgs|
    decreases |msgs| - i - 1, 1, |kids|
  {
    if kids == [] then []
    else PositionsAll(msgs, i, kids[..|kids| - 1]) + Positions(msgs, kids[|kids| - 1])
  }

  /** The nodes of a tree in pre-order. */
  function Preorder(t: Spec): seq<Fields>
    decreases t, 0
  {
    [t.fields] + PreorderAll(t.children)
  }

  function PreorderAll(ts: seq<Spec>): seq<Fields>
    decreases ts
  {
    if ts == [] then [] else PreorderAll(ts[..|ts| - 1]) + Preorder(ts[|ts| - 1])
  }

  function FieldsAt(msgs: seq<Msg>, ps: seq<nat>): (r: seq<Fields>)
    requires forall k :: 0 <= k < |ps| ==> ps[k] < |msgs|
    ensures |r| == |ps| && forall k :: 0 <= k < |r| ==> r[k] == msgs[ps[k]].fields
  {
    seq(|ps|, k requires 0 <= k < |ps| => msgs[ps[k]].fields)
  }

  lemma {:induction false} PositionsBound(msgs: seq<Msg>, i: nat)
    requires i < |msgs|
    ensures forall k :: 0 <= k < |Positions(msgs, i)| ==> i <= Positions(msgs, i)[k] < |msgs|
    decreases |msgs| - i, 0, 0
  {
    PositionsAllBound(msgs, i, Kids(msgs, i, |msgs|));
  }

  lemma {:induction false} PositionsAllBound(msgs: seq<Msg>, i: nat, kids: seq<nat>)
    requires i < |msgs| && forall k :: 0 <= k < |kids| ==> i < kids[k] < |msgs|
    ensures forall k :: 0 <= k < |PositionsAll(msgs, i, kids)| ==> i < PositionsAll(msgs, i, kids)[k] < |msgs|
    decreases |msgs| - i - 1, 1, |kids|
  {
    if kids != [] {
      PositionsAllBound(msgs, i, kids[..|kids| - 1]);
      PositionsBound(msgs, kids[|kids| - 1]);
    }
  }

  /** The tree of message `i` lists the messages at its positions. */
  lemma {:induction false} PreorderOfTree(msgs: seq<Msg>, i: nat)
    requires i < |msgs| && forall k :: 0 <= k < |Positions(msgs, i)| ==> Positions(msgs, i)[k] < |msgs|
    ensures Preorder(Assemble(msgs, i)) == FieldsAt(msgs, Positions(msgs, i))
    decreases |msgs| - i, 0, 0
  {
    var kids := Kids(msgs, i, |msgs|);
    PositionsAllBound(msgs, i, kids);
    PreorderOfTrees(msgs, i, kids);
    FieldsConcat(msgs, [i], PositionsAll(msgs, i, kids));
  }

  lemma FieldsConcat(msgs: seq<Msg>, a: seq<nat>, b: seq<nat>)
    requires forall k :: 0 <= k < |a| ==> a[k] < |msgs|
    requires forall k :: 0 <= k < |b| ==> b[k] < |msgs|
    ensures FieldsAt(msgs, a + b) == FieldsAt(msgs, a) + FieldsAt(msgs, b)
  {
  }

  lemma {:induction false} PreorderOfTrees(msgs: seq<Msg>, i: nat, kids: seq<nat>)
    requires i < |msgs| && forall k :: 0 <= k < |kids| ==> i < kids[k] < |msgs|
    requires forall k :: 0 <= k < |PositionsAll(msgs, i, kids)| ==> PositionsAll(msgs, i, kids)[k] < |msgs|
    ensures PreorderAll(AssembleAll(msgs, i, kids)) == FieldsAt(msgs, PositionsAll(msgs, i, kids))
    decreases |msgs| - i - 1, 1, |kids|
  {
    if kids != [] {
      var init, last := kids[..|kids| - 1], kids[|kids| - 1];
      PositionsAllBound(msgs, i, init);
      PositionsBound(msgs, last);
      PreorderOfTrees(msgs, i, init);
      PreorderOfTree(msgs, last);
      FieldsConcat(msgs, PositionsAll(msgs, i, init), Positions(msgs, last));
      assert AssembleAll(msgs, i, kids)[..|kids| - 1] == AssembleAll(msgs, i, init);
    }
  }

  function Occurrences(msgs: seq<Msg>, i: nat, j: nat): nat
    requires i < |msgs|
  {
    multiset(Positions(msgs, i))[j]
  }

  function OccurrencesAll(msgs: seq<Msg>, i: nat, kids: seq<nat>, j: nat): nat
    requires i < |msgs| && forall k :: 0 <= k < |kids| ==> i < kids[k] < |msgs|
  {
    multiset(PositionsAll(msgs, i, kids))[j]
  }

  lemma OccurrencesUnfold(msgs: seq<Msg>, i: nat, j: nat)
    requires i < |msgs|
    ensures Occurrences(msgs, i, j) == (if i == j then 1 else 0) + OccurrencesAll(msgs, i, Kids(msgs, i, |msgs|), j)
  {
  }

  lemma OccurrencesSnoc(msgs: seq<Msg>, i: nat, kids: seq<nat>, j: nat)
    requires i < |msgs| && kids != [] && forall k :: 0 <= k < |kids| ==> i < kids[k] < |msgs|
    ensures OccurrencesAll(msgs, i, kids, j) ==
              OccurrencesAll(msgs, i, kids[..|kids| - 1], j) + Occurrences(msgs, kids[|kids| - 1], j)
  {
  }

  lemma NoEarlierBelow(msgs: seq<Msg>, i: nat, j: nat)
    requires j <= i < |msgs|
    ensures OccurrencesAll(msgs, i, Kids(msgs, i, |msgs|), j) == 0
  {
    PositionsAllBound(msgs, i, Kids(msgs, i, |msgs|));
  }

  /** A message occurs in a tree as often as its parent does, unless the tree is its own. */
  lemma {:induction false} LastStep(msgs: seq<Msg>, i: nat, j: nat, q: nat)
    requires UniqueIds(msgs) && i < |msgs| && q < j < |msgs| && !IsRoot(msgs[j]) && msgs[q].id == msgs[j].parent
    ensures Occurrences(msgs, i, j) == (if i == j then 1 else 0) + Occurrences(msgs, i, q)
    decreases |msgs| - i, 0, 0
  {
    var kids := Kids(msgs, i, |msgs|);
    OccurrencesUnfold(msgs, i, j);
    OccurrencesUnfold(msgs, i, q);
    if i >= j {
      NoEarlierBelow(msgs, i, j);
      NoEarlierBelow(msgs, i, q);
    } else {
      LastStepBelow(msgs, i, j, q, kids);
      KidsMember(msgs, i, |msgs|, j);
      assert j in kids <==> i == q;
      KidsIncrease(msgs, i, |msgs|);
      CountKid(kids, j);
    }
  }

  function CountOf(s: seq<nat>, j: nat): nat {
    if s == [] then 0 else CountOf(s[..|s| - 1], j) + if s[|s| - 1] == j then 1 else 0
  }

  lemma {:induction false} CountKid(s: seq<nat>, j: nat)
    requires Increasing(s)
    ensures CountOf(s, j) == if j in s then 1 else 0
  {
    if s != [] {
      assert s == s[..|s| - 1] + [s[|s| - 1]];
      CountKid(s[..|s| - 1], j);
    }
  }

  lemma {:induction false} LastStepBelow(msgs: seq<Msg>, i: nat, j: nat, q: nat, kids: seq<nat>)
    requires UniqueIds(msgs) && i < |msgs| && q < j < |msgs| && !IsRoot(msgs[j]) && msgs[q].id == msgs[j].parent
    requires forall k :: 0 <= k < |kids| ==> i < kids[k] < |msgs|
    ensures OccurrencesAll(msgs, i, kids, j) == CountOf(kids, j) + OccurrencesAll(msgs, i, kids, q)
    decreases |msgs| - i - 1, 1, |kids|
  {
    if kids != [] {
      OccurrencesSnoc(msgs, i, kids, j);
      OccurrencesSnoc(msgs, i, kids, q);
      LastStepBelow(msgs, i, j, q, kids[..|kids| - 1]);
      LastStep(msgs, kids[|kids| - 1], j, q);
    }
  }

  /** In an accepted list the tree of the root holds every message exactly once. */
  lemma {:induction false} EveryMessageOnce(msgs: seq<Msg>, j: nat)
    requires Acceptable(msgs) && j < |msgs|
    ensures multiset(Positions(msgs, 0))[j] == 1
  {
    if j == 0 {
      OccurrencesUnfold(msgs, 0, 0);
      NoEarlierBelow(msgs, 0, 0);
    } else {
      assert HasParentBefore(msgs, j);
      var q :| 0 <= q < j && msgs[q].id == msgs[j].parent;
      LastStep(msgs, 0, j, q);
      EveryMessageOnce(msgs, q);
    }
  }

  // --- round trip ----------------------------------------------------------------------------------------

  ghost predicate IdsFrom(r: seq<Msg>, base: nat) {
    forall k :: 0 <= k < |r| ==> r[k].id == base + k
  }

  /** Message `k` of a stretch that starts at `base` hangs under `parent` or under an earlier
      message of the stretch. */
  ghost predicate ParentsFrom(r: seq<Msg>, parent: nat, base: nat) {
    forall k :: 0 <= k < |r| ==> r[k].parent == parent || base <= r[k].parent < base + k
  }

  lemma ShapeConcat(a: seq<Msg>, b: seq<Msg>, parent: nat, base: nat)
    requires IdsFrom(a, base) && ParentsFrom(a, parent, base)
    requires IdsFrom(b, base + |a|) && ParentsFrom(b, parent, base + |a|)
    ensures IdsFrom(a + b, base) && ParentsFrom(a + b, parent, base)
  {
  }

  /** In the messages of a tree ids count up from its base, and every message but the first hangs
      under an earlier one. */
  lemma {:induction false} FlattenShape(t: Spec, parent: nat, base: nat)
    ensures IdsFrom(FlattenAt(t, parent, base), base)
    ensures ParentsFrom(FlattenAt(t, parent, base)[1..], base, base + 1)
    decreases t, 0
  {
    var rest := FlattenForest(t.children, base, base + 1);
    ForestShape(t.children, base, base + 1, rest);
    assert FlattenAt(t, parent, base)[1..] == rest;
    assert forall k :: 0 < k <= |rest| ==> FlattenAt(t, parent, base)[k] == rest[k - 1];
  }

  /** A tree's messages, under `parent`. */
  lemma TreeUnder(tree: seq<Msg>, parent: nat, base: nat)
    requires tree != [] && tree[0].parent == parent < base && ParentsFrom(tree[1..], base, base + 1)
    ensures ParentsFrom(tree, parent, base)
  {
    assert forall k :: 0 < k < |tree| ==> tree[k] == tree[1..][k - 1];
  }

  lemma {:induction false} ForestShape(ts: seq<Spec>, parent: nat, base: nat, r: seq<Msg>)
    requires parent < base && r == FlattenForest(ts, parent, base)
    ensures IdsFrom(r, base) && ParentsFrom(r, parent, base)
    decreases ts
  {
    if ts != [] {
      var before := FlattenForest(ts[..|ts| - 1], parent, base);
      var tree := FlattenAt(ts[|ts| - 1], parent, base + |before|);
      assert r == before + tree;
      ForestShape(ts[..|ts| - 1], parent, base, before);
      FlattenShape(ts[|ts| - 1], parent, base + |before|);
      TreeUnder(tree, parent, base + |before|);
      ShapeConcat(before, tree, parent, base);
    }
  }

  /** The wire list of any tree is in pre-order: the root first with id 0, ids are positions,
      and every other message names an earlier parent. So it is accepted. */
  lemma ToMsgsPreorder(t: Spec)
    ensures Acceptable(ToMsgs(t))
    ensures forall k :: 0 <= k < |ToMsgs(t)| ==> ToMsgs(t)[k].id == k && (k > 0 ==> ToMsgs(t)[k].parent < k)
  {
    FlattenShape(t, 0, 0);
    var r := ToMsgs(t);
    forall j | 0 < j < |r| ensures r[j].parent < j && HasParentBefore(r, j) {
      assert r[j] == r[1..][j - 1];
      assert r[r[j].parent].id == r[j].parent;
    }
  }

  /** Ids are positions and parents precede their children. */
  ghost predicate Dense(l: seq<Msg>) {
    forall k :: 0 <= k < |l| ==> l[k].id == k && (k > 0 ==> l[k].parent < k)
  }

  ghost predicate Placed(l: seq<Msg>, r: seq<Msg>, base: nat) {
    base + |r| <= |l| && forall j :: base <= j < base + |r| ==> l[j] == r[j - base]
  }

  /** From `end` on nobody names a parent in `lo..end`. */
  ghost predicate Closed(l: seq<Msg>, lo: nat, end: nat) {
    forall k :: end <= k < |l| ==> l[k].parent < lo || end <= l[k].parent
  }

  function RootPositions(ts: seq<Spec>, parent: nat, base: nat): (r: seq<nat>)
    ensures |r| == |ts|
    decreases ts
  {
    if ts == [] then []
    else RootPositions(ts[..|ts| - 1], parent, base) + [base + |FlattenForest(ts[..|ts| - 1], parent, base)|]
  }

  lemma {:induction false} KidsOfTree(l: seq<Msg>, parent: nat, mid: nat, tree: seq<Msg>, m: nat)
    requires Dense(l) && Placed(l, tree, mid) && parent < mid && 0 < m <= |tree|
    requires tree[0].parent == parent && forall k :: 0 < k < |tree| ==> mid <= tree[k].parent
    ensures Kids(l, parent, mid + m) == Kids(l, parent, mid) + [mid]
  {
    var j := mid + m - 1;
    assert l[j] == tree[m - 1];
    KidsStep(l, parent, j);
    if m > 1 {
      KidsOfTree(l, parent, mid, tree, m - 1);
    }
  }

  lemma PlacedParts(l: seq<Msg>, a: seq<Msg>, b: seq<Msg>, base: nat)
    requires Placed(l, a + b, base)
    ensures Placed(l, a, base) && Placed(l, b, base + |a|)
  {
  }

  lemma TreeParents(t: Spec, parent: nat, base: nat)
    ensures var r := FlattenAt(t, parent, base);
      r[0].parent == parent && forall k :: 0 < k < |r| ==> base <= r[k].parent < base + k
  {
    FlattenShape(t, parent, base);
    var r := FlattenAt(t, parent, base);
    assert forall k :: 0 < k < |r| ==> r[k] == r[1..][k - 1];
  }

  lemma Regroup(a: seq<nat>, b: seq<nat>, x: nat)
    ensures (a + b) + [x] == a + (b + [x])
  {
  }

  lemma ForestParts(ts: seq<Spec>, parent: nat, base: nat)
    requires ts != []
    ensures var before := FlattenForest(ts[..|ts| - 1], parent, base);
      FlattenForest(ts, parent, base) == before + FlattenAt(ts[|ts| - 1], parent, base + |before|)
  {
  }

  lemma RootParts(ts: seq<Spec>, parent: nat, base: nat, before: seq<Msg>)
    requires ts != [] && before == FlattenForest(ts[..|ts| - 1], parent, base)
    ensures RootPositions(ts, parent, base) == RootPositions(ts[..|ts| - 1], parent, base) + [base + |before|]
  {
  }

  /** The kids found among a stretch that holds a forest are the roots of its trees. */
  lemma {:induction false} KidsOfForest(l: seq<Msg>, ts: seq<Spec>, parent: nat, base: nat)
    requires Dense(l) && Placed(l, FlattenForest(ts, parent, base), base) && parent < base
    ensures Kids(l, parent, base + |FlattenForest(ts, parent, base)|) ==
              Kids(l, parent, base) + RootPositions(ts, parent, base)
    decreases ts
  {
    if ts != [] {
      var init, last := ts[..|ts| - 1], ts[|ts| - 1];
      var before := FlattenForest(init, parent, base);
      var mid := base + |before|;
      var tree := FlattenAt(last, parent, mid);
      ForestParts(ts, parent, base);
      RootParts(ts, parent, base, FlattenForest(ts[..|ts| - 1], parent, base));
      PlacedParts(l, before, tree, base);
      KidsOfForest(l, init, parent, base);
      TreeParents(last, parent, mid);
      KidsOfTree(l, parent, mid, tree, |tree|);
      Regroup(Kids(l, parent, base), RootPositions(init, parent, base), mid);
    }
  }

  lemma {:induction false} KidsAfter(l: seq<Msg>, i: nat, end: nat, m: nat)
    requires Dense(l) && i < end <= m <= |l| && Closed(l, i, end)
    ensures Kids(l, i, m) == Kids(l, i, end)
  {
    if end < m {
      KidsAfter(l, i, end, m - 1);
      KidsStep(l, i, m - 1);
    }
  }

  /** A tree laid out in a list is what the list assembles to there. */
  lemma {:induction false} AssembleFlattened(l: seq<Msg>, t: Spec, parent: nat, base: nat)
    requires Dense(l) && Placed(l, FlattenAt(t, parent, base), base)
    requires Closed(l, base, base + |FlattenAt(t, parent, base)|)
    ensures Assemble(l, base) == t
    decreases t, 0
  {
    var forest := FlattenForest(t.children, base, base + 1);
    PlacedParts(l, [Msg(base, parent, t.fields)], forest, base);
    KidsNone(l, base, base + 1);
    KidsOfForest(l, t.children, base, base + 1);
    KidsAfter(l, base, base + 1 + |forest|, |l|);
    assert l[base] == FlattenAt(t, parent, base)[0];
    AssembleForest(l, t.children, base, base + 1, base);
    assert Kids(l, base, |l|) == [] + RootPositions(t.children, base, base + 1)
                              == RootPositions(t.children, base, base + 1);
  }

  lemma AssembleSnoc(l: seq<Msg>, i: nat, kids: seq<nat>, mid: nat)
    requires i < mid < |l| && forall k :: 0 <= k < |kids| ==> i < kids[k] < |l|
    ensures forall k :: 0 <= k < |kids + [mid]| ==> i < (kids + [mid])[k] < |l|
    ensures AssembleAll(l, i, kids + [mid]) == AssembleAll(l, i, kids) + [Assemble(l, mid)]
  {
    assert (kids + [mid])[..|kids|] == kids;
  }

  lemma {:induction false} RootsInside(ts: seq<Spec>, parent: nat, base: nat)
    ensures forall k :: 0 <= k < |ts| ==>
              base <= RootPositions(ts, parent, base)[k] < base + |FlattenForest(ts, parent, base)|
    decreases ts
  {
    if ts != [] {
      ForestParts(ts, parent, base);
      RootParts(ts, parent, base, FlattenForest(ts[..|ts| - 1], parent, base));
      RootsInside(ts[..|ts| - 1], parent, base);
    }
  }

  lemma {:induction false} AssembleForest(l: seq<Msg>, ts: seq<Spec>, parent: nat, base: nat, i: nat)
    requires Dense(l) && Placed(l, FlattenForest(ts, parent, base), base) && parent < base && i < base && i < |l|
    requires Closed(l, base, base + |FlattenForest(ts, parent, base)|)
    ensures forall k :: 0 <= k < |ts| ==> i < RootPositions(ts, parent, base)[k] < |l|
    ensures AssembleAll(l, i, RootPositions(ts, parent, base)) == ts
    decreases ts
  {
    RootsInside(ts, parent, base);
    if ts != [] {
      var before := FlattenForest(ts[..|ts| - 1], parent, base);
      var mid := base + |before|;
      ForestParts(ts, parent, base);
      RootParts(ts, parent, base, FlattenForest(ts[..|ts| - 1], parent, base));
      AssembleLast(l, ts, parent, base, i, before, FlattenAt(ts[|ts| - 1], parent, mid));
      AssembleSnoc(l, i, RootPositions(ts[..|ts| - 1], parent, base), mid);
      LastSplit(ts);
    }
  }

  lemma LastSplit<T>(s: seq<T>)
    requires s != []
    ensures s == s[..|s| - 1] + [s[|s| - 1]]
  {
  }

  lemma {:induction false} AssembleLast(l: seq<Msg>, ts: seq<Spec>, parent: nat, base: nat, i: nat, before: seq<Msg>,
                                        tree: seq<Msg>)
    requires Dense(l) && ts != [] && parent < base && i < base && i < |l|
    requires before == FlattenForest(ts[..|ts| - 1], parent, base)
    requires tree == FlattenAt(ts[|ts| - 1], parent, base + |before|)
    requires Placed(l, before + tree, base) && Closed(l, base, base + |before + tree|)
    ensures var kids := RootPositions(ts[..|ts| - 1], parent, base);
      (forall k :: 0 <= k < |kids| ==> i < kids[k] < |l|) && AssembleAll(l, i, kids) == ts[..|ts| - 1]
    ensures base + |before| < |l| && Assemble(l, base + |before|) == ts[|ts| - 1]
    decreases ts, 0
  {
    PlacedParts(l, before, tree, base);
    TreeParents(ts[|ts| - 1], parent, base + |before|);
    ClosedParts(l, base, base + |before|, tree, parent);
    AssembleForest(l, ts[..|ts| - 1], parent, base, i);
    AssembleFlattened(l, ts[|ts| - 1], parent, base + |before|);
  }

  /** Closing a stretch off closes its two parts off. */
  lemma ClosedParts(l: seq<Msg>, base: nat, mid: nat, tree: seq<Msg>, parent: nat)
    requires Placed(l, tree, mid) && base <= mid && parent < base && Closed(l, base, mid + |tree|)
    requires tree != [] && tree[0].parent == parent && forall k :: 0 < k < |tree| ==> mid <= tree[k].parent
    ensures Closed(l, base, mid) && Closed(l, mid, mid + |tree|)
  {
    forall k | mid <= k < |l| ensures l[k].parent < base || mid <= l[k].parent {
      if k < mid + |tree| {
        assert l[k] == tree[k - mid];
      }
    }
  }

  /** Flattening and re-linking gives the tree back: its wire list is accepted, and it is the
      tree the list assembles to. */
  lemma RoundTrip(t: Spec)
    ensures Acceptable(ToMsgs(t)) && Assemble(ToMsgs(t), 0) == t
  {
    ToMsgsPreorder(t);
    AssembleFlattened(ToMsgs(t), t, 0, 0);
  }

  function FieldsOf(r: seq<Msg>): (fs: seq<Fields>)
    ensures |fs| == |r| && forall k :: 0 <= k < |fs| ==> fs[k] == r[k].fields
  {
    seq(|r|, k requires 0 <= k < |r| => r[k].fields)
  }

  lemma FieldsOfConcat(a: seq<Msg>, b: seq<Msg>)
    ensures FieldsOf(a + b) == FieldsOf(a) + FieldsOf(b)
  {
  }

  /** The wire list carries the nodes of the tree in pre-order. */
  lemma {:induction false} FlattenIsPreorder(t: Spec, parent: nat, base: nat)
    ensures FieldsOf(FlattenAt(t, parent, base)) == Preorder(t)
    decreases t, 0
  {
    ForestIsPreorder(t.children, base, base + 1);
    FieldsOfConcat([Msg(base, parent, t.fields)], FlattenForest(t.children, base, base + 1));
  }

  lemma {:induction false} ForestIsPreorder(ts: seq<Spec>, parent: nat, base: nat)
    ensures FieldsOf(FlattenForest(ts, parent, base)) == PreorderAll(ts)
    decreases ts
  {
    if ts != [] {
      var before := FlattenForest(ts[..|ts| - 1], parent, base);
      var tree := FlattenAt(ts[|ts| - 1], parent, base + |before|);
      ForestIsPreorder(ts[..|ts| - 1], parent, base);
      FlattenIsPreorder(ts[|ts| - 1], parent, base + |before|);
      FieldsOfConcat(before, tree);
    }
  }

  /** Re-flattening an accepted list re-orders its messages into the pre-order of its tree. */
  lemma Reflattened(msgs: seq<Msg>)
    requires Acceptable(msgs)
    ensures forall k :: 0 <= k < |Positions(msgs, 0)| ==> Positions(msgs, 0)[k] < |msgs|
    ensures FieldsOf(ToMsgs(Assemble(msgs, 0))) == FieldsAt(msgs, Positions(msgs, 0))
  {
    PositionsBound(msgs, 0);
    PreorderOfTree(msgs, 0);
    FlattenIsPreorder(Assemble(msgs, 0), 0, 0);
  }
}
