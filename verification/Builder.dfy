/** Building the stage tree of a task graph, and the ids its stages are introspected by. */
module Builder {
  import opened Interfaces
  import opened Wire

  /** What the registry knows of a stage type: whether it wraps a child. */
  datatype StageClass = PlainStage | WrapperStage

  const CONTAINERS: set<string> := {"serial", "alternatives", "fallbacks", "independent"}

  /** A built stage and the stages attached to it. */
  datatype Built = Built(fields: Fields, children: seq<Built>)

  predicate IsContainer(spec: Spec) { spec.fields.containerType != "" }

  /** The structural checks that need no registry. */
  predicate Validates(spec: Spec) {
    && (if IsContainer(spec) then spec.children != [] else spec.fields.stageType != "")
    && forall i :: 0 <= i < |spec.children| ==> Validates(spec.children[i])
  }

  predicate Known(registry: map<string, StageClass>, spec: Spec) {
    if IsContainer(spec) then spec.fields.containerType in CONTAINERS else spec.fields.stageType in registry
  }

  predicate TakesChildren(registry: map<string, StageClass>, spec: Spec)
    requires Known(registry, spec)
  {
    IsContainer(spec) || (registry[spec.fields.stageType].WrapperStage? && |spec.children| <= 1)
  }

  /** The graphs that can be built. */
  ghost predicate Buildable(registry: map<string, StageClass>, spec: Spec) {
    && Validates(spec) && Known(registry, spec)
    && (spec.children == [] || TakesChildren(registry, spec))
    && forall i :: 0 <= i < |spec.children| ==> Buildable(registry, spec.children[i])
  }

  /** The stage tree has the shape of the graph. */
  function Shape(spec: Spec): Built {
    Built(spec.fields, seq(|spec.children|, i requires 0 <= i < |spec.children| => Shape(spec.children[i])))
  }

  /** Builds one node after the other; a graph that cannot be built is refused. */
  method BuildTree(registry: map<string, StageClass>, spec: Spec) returns (r: Option<Built>)
    ensures r == if Buildable(registry, spec) then Some(Shape(spec)) else None
    decreases spec
  {
    if !Validates(spec) || !Known(registry, spec) {
      return None;
    }
    var isWrapper := !IsContainer(spec) && registry[spec.fields.stageType].WrapperStage?;
    if isWrapper && |spec.children| > 1 {
      return None;
    }
    var children: seq<Built> := [];
    for i := 0 to |spec.children|
      invariant |children| == i && forall k :: 0 <= k < i ==>
        Buildable(registry, spec.children[k]) && children[k] == Shape(spec.children[k])
      invariant i > 0 ==> TakesChildren(registry, spec)
    {
      var child := BuildTree(registry, spec.children[i]);
      if child.None? {
        return None;
      }
      if !IsContainer(spec) && !isWrapper {
        return None;
      }
      children := children + [child.value];
    }
    assert children == Shape(spec).children;
    r := Some(Built(spec.fields, children));
  }

  // ---- what can be built, stage by stage ----

  /** The way from the root: which child to take at each stage. */
  type Path = seq<nat>

  /** The fields of the stage at a place, if there is one. */
  function FieldsAtPlace(b: Built, p: Path): Option<Fields>
    decreases b, 0
  {
    if p == [] then Some(b.fields) else FieldsBelow(b.children, p)
  }

  function FieldsBelow(bs: seq<Built>, p: Path): Option<Fields>
    requires p != []
    decreases bs
  {
    if p[0] < |bs| then FieldsAtPlace(bs[p[0]], p[1..]) else None
  }

  /** The part of the graph at a place, if there is one. */
  function NodeAt(spec: Spec, p: Path): Option<Spec>
    decreases spec
  {
    if p == [] then Some(spec)
    else if p[0] < |spec.children| then NodeAt(spec.children[p[0]], p[1..]) else None
  }

  /** A container is of one of four kinds and has children; any other stage is registered and has none, or is
      a wrapper and has one. */
  predicate Proper(registry: map<string, StageClass>, spec: Spec) {
    if spec.fields.containerType != "" then
      spec.children != [] && spec.fields.containerType in {"serial", "alternatives", "fallbacks", "independent"}
    else
      && spec.fields.stageType != "" && spec.fields.stageType in registry
      && (spec.children == [] || (|spec.children| == 1 && registry[spec.fields.stageType].WrapperStage?))
  }

  ghost predicate ProperBelow(registry: map<string, StageClass>, spec: Spec) {
    forall p :: NodeAt(spec, p).Some? ==> Proper(registry, NodeAt(spec, p).value)
  }

  lemma ProperChild(registry: map<string, StageClass>, spec: Spec, i: nat)
    requires i < |spec.children| && ProperBelow(registry, spec)
    ensures ProperBelow(registry, spec.children[i])
  {
    forall p | NodeAt(spec.children[i], p).Some? ensures Proper(registry, NodeAt(spec.children[i], p).value) {
      assert ([i] + p)[1..] == p;
      assert NodeAt(spec, [i] + p) == NodeAt(spec.children[i], p);
    }
  }

  /** A graph can be built exactly when every stage in it is proper. */
  lemma {:induction false} BuildableExactly(registry: map<string, StageClass>, spec: Spec)
    ensures Buildable(registry, spec) <==> ProperBelow(registry, spec)
    decreases spec
  {
    if Buildable(registry, spec) {
      forall p | NodeAt(spec, p).Some? ensures Proper(registry, NodeAt(spec, p).value) {
        if p != [] {
          BuildableExactly(registry, spec.children[p[0]]);
        }
      }
    }
    if ProperBelow(registry, spec) {
      assert NodeAt(spec, []) == Some(spec);
      forall i | 0 <= i < |spec.children| ensures Buildable(registry, spec.children[i]) {
        ProperChild(registry, spec, i);
        BuildableExactly(registry, spec.children[i]);
      }
    }
  }

  /** The stage at each place is the one the graph has there. */
  lemma {:induction false} ShapeExactly(spec: Spec, p: Path)
    ensures FieldsAtPlace(Shape(spec), p)
            == if NodeAt(spec, p).Some? then Some(NodeAt(spec, p).value.fields) else None
    decreases spec
  {
    if p != [] && p[0] < |spec.children| {
      ShapeExactly(spec.children[p[0]], p[1..]);
    }
  }

  /** A stage and all its descendants, depth first: the order in which ids are assigned. */
  function SubtreeStages(b: Built): seq<Fields>
    decreases b, 0
  {
    [b.fields] + SubtreeAll(b.children)
  }

  function SubtreeAll(bs: seq<Built>): seq<Fields>
    decreases bs
  {
    if bs == [] then [] else SubtreeAll(bs[..|bs| - 1]) + SubtreeStages(bs[|bs| - 1])
  }

  lemma {:induction false} SubtreeIsPreorder(spec: Spec, b: Built)
    requires b == Shape(spec)
    ensures SubtreeStages(b) == Preorder(spec)
    decreases spec, 0
  {
    SubtreesArePreorder(spec.children, b.children);
  }

  lemma {:induction false} SubtreesArePreorder(specs: seq<Spec>, bs: seq<Built>)
    requires |bs| == |specs| && forall i :: 0 <= i < |specs| ==> bs[i] == Shape(specs[i])
    ensures SubtreeAll(bs) == PreorderAll(specs)
    decreases specs
  {
    if specs != [] {
      SubtreesArePreorder(specs[..|specs| - 1], bs[..|bs| - 1]);
      SubtreeIsPreorder(specs[|specs| - 1], bs[|bs| - 1]);
    }
  }

  // ---- which stage is which, by its place in the tree ----

  function Under(c: nat, paths: seq<Path>): (r: seq<Path>)
    ensures |r| == |paths| && forall k :: 0 <= k < |r| ==> r[k] == [c] + paths[k]
  {
    seq(|paths|, k requires 0 <= k < |paths| => [c] + paths[k])
  }

  /** The places of a stage and its descendants in the order in which ids are assigned. */
  function StagePaths(b: Built): seq<Path>
    decreases b, 0
  {
    [[]] + StagePathsAll(b.children)
  }

  function StagePathsAll(bs: seq<Built>): seq<Path>
    decreases bs
  {
    if bs == [] then [] else
    StagePathsAll(bs[..|bs| - 1]) + Under(|bs| - 1, StagePaths(bs[|bs| - 1]))
  }

  /** The place of message `i`, by the parents the messages name and their order. */
  function PathByLinks(l: seq<Msg>, i: nat): Path
    requires Dense(l) && i < |l|
  {
    if i == 0 then [] else PathByLinks(l, l[i].parent) + [|Kids(l, l[i].parent, i)|]
  }

  lemma {:induction false} TreeLength(t: Spec, parent: nat, base: nat)
    ensures |StagePaths(Shape(t))| == |FlattenAt(t, parent, base)|
    decreases t, 0
  {
    ForestLength(t.children, Shape(t).children, base, base + 1);
  }

  lemma {:induction false} ForestLength(ts: seq<Spec>, bs: seq<Built>, parent: nat, base: nat)
    requires |bs| == |ts| && forall i :: 0 <= i < |ts| ==> bs[i] == Shape(ts[i])
    ensures |StagePathsAll(bs)| == |FlattenForest(ts, parent, base)|
    decreases ts
  {
    if ts != [] {
      var init := ts[..|ts| - 1];
      ForestLength(init, bs[..|bs| - 1], parent, base);
      TreeLength(ts[|ts| - 1], parent, base + |FlattenForest(init, parent, base)|);
      ForestParts(ts, parent, base);
    }
  }

  /** The messages from `base` on are at the given places below `root`. */
  ghost predicate At(l: seq<Msg>, base: nat, root: Path, paths: seq<Path>)
    requires Dense(l)
  {
    base + |paths| <= |l| && forall k :: 0 <= k < |paths| ==> PathByLinks(l, base + k) == root + paths[k]
  }

  lemma AtConcat(l: seq<Msg>, base: nat, root: Path, a: seq<Path>, b: seq<Path>)
    requires Dense(l) && At(l, base, root, a) && At(l, base + |a|, root, b)
    ensures At(l, base, root, a + b)
  {
    forall k | 0 <= k < |a + b| ensures PathByLinks(l, base + k) == root + (a + b)[k] {
      if k >= |a| {
        assert PathByLinks(l, base + |a| + (k - |a|)) == root + b[k - |a|];
      }
    }
  }

  lemma AtUnder(l: seq<Msg>, base: nat, root: Path, c: nat, paths: seq<Path>)
    requires Dense(l) && At(l, base, root + [c], paths)
    ensures At(l, base, root, Under(c, paths))
  {
    forall k | 0 <= k < |paths| ensures PathByLinks(l, base + k) == root + Under(c, paths)[k] {
      assert root + [c] + paths[k] == root + ([c] + paths[k]);
    }
  }

  lemma AtRoot(l: seq<Msg>, base: nat, below: seq<Path>)
    requires Dense(l) && base < |l| && At(l, base + 1, PathByLinks(l, base), below)
    ensures At(l, base, PathByLinks(l, base), [[]] + below)
  {
    var here: seq<Path> := [[]];
    assert PathByLinks(l, base) + [] == PathByLinks(l, base);
    assert At(l, base, PathByLinks(l, base), here);
    AtConcat(l, base, PathByLinks(l, base), here, below);
  }

  lemma {:induction false} PathsPlaced(l: seq<Msg>, t: Spec, parent: nat, base: nat)
    requires Dense(l) && Placed(l, FlattenAt(t, parent, base), base)
    ensures At(l, base, PathByLinks(l, base), StagePaths(Shape(t)))
    decreases t, 0
  {
    var forest := FlattenForest(t.children, base, base + 1);
    PlacedParts(l, [Msg(base, parent, t.fields)], forest, base);
    KidsNone(l, base, base + 1);
    ForestPlaced(l, t.children, Shape(t).children, base, base + 1);
    AtRoot(l, base, StagePathsAll(Shape(t).children));
  }

  /** The messages of the tree at `mid`, the one with number `c` below `parent`. */
  lemma TreePlaced(l: seq<Msg>, t: Spec, parent: nat, mid: nat, c: nat)
    requires Dense(l) && parent < mid && Placed(l, FlattenAt(t, parent, mid), mid)
    requires |Kids(l, parent, mid)| == c
    ensures At(l, mid, PathByLinks(l, parent), Under(c, StagePaths(Shape(t))))
    decreases t, 1
  {
    assert l[mid] == FlattenAt(t, parent, mid)[0];
    PathsPlaced(l, t, parent, mid);
    AtUnder(l, mid, PathByLinks(l, parent), c, StagePaths(Shape(t)));
  }

  /** One more tree behind the trees of `init`, which are at the places `done`. */
  lemma ForestNext(l: seq<Msg>, init: seq<Spec>, last: Spec, done: seq<Path>, parent: nat, base: nat, mid: nat)
    requires Dense(l) && parent < base && Placed(l, FlattenForest(init, parent, base), base)
    requires |done| == |FlattenForest(init, parent, base)| && mid == base + |done|
    requires Placed(l, FlattenAt(last, parent, mid), mid)
    requires Kids(l, parent, base) == [] && At(l, base, PathByLinks(l, parent), done)
    ensures At(l, base, PathByLinks(l, parent), done + Under(|init|, StagePaths(Shape(last))))
    decreases last, 2
  {
    KidsOfForest(l, init, parent, base);
    assert |Kids(l, parent, mid)| == |init|;
    TreePlaced(l, last, parent, mid, |init|);
    AtConcat(l, base, PathByLinks(l, parent), done, Under(|init|, StagePaths(Shape(last))));
  }

  /** The messages of a forest are at the places below that of `parent`. */
  lemma {:induction false} ForestPlaced(l: seq<Msg>, ts: seq<Spec>, bs: seq<Built>, parent: nat, base: nat)
    requires |bs| == |ts| && forall i :: 0 <= i < |ts| ==> bs[i] == Shape(ts[i])
    requires Dense(l) && Placed(l, FlattenForest(ts, parent, base), base) && parent < base && parent < |l|
    requires Kids(l, parent, base) == []
    ensures At(l, base, PathByLinks(l, parent), StagePathsAll(bs))
    decreases ts
  {
    if ts != [] {
      var init, last, binit := ts[..|ts| - 1], ts[|ts| - 1], bs[..|bs| - 1];
      var before := FlattenForest(init, parent, base);
      ForestParts(ts, parent, base);
      ForestLength(init, binit, parent, base);
      PlacedParts(l, before, FlattenAt(last, parent, base + |before|), base);
      ForestPlaced(l, init, binit, parent, base);
      ForestNext(l, init, last, StagePathsAll(binit), parent, base, base + |before|);
    }
  }

  lemma {:induction false} PlacesHave(b: Built, k: nat)
    requires k < |StagePaths(b)|
    ensures |StagePaths(b)| == |SubtreeStages(b)|
    ensures FieldsAtPlace(b, StagePaths(b)[k]) == Some(SubtreeStages(b)[k])
    decreases b, 0
  {
    PlacesCount(b.children);
    if k > 0 {
      PlacesBelowHave(b.children, k - 1);
    }
  }

  lemma {:induction false} PlacesCount(bs: seq<Built>)
    ensures |StagePathsAll(bs)| == |SubtreeAll(bs)|
    decreases bs
  {
    if bs != [] {
      PlacesCount(bs[..|bs| - 1]);
      PlacesCount(bs[|bs| - 1].children);
    }
  }

  lemma {:induction false} PlacesBelowHave(bs: seq<Built>, k: nat)
    requires k < |StagePathsAll(bs)|
    ensures |StagePathsAll(bs)| == |SubtreeAll(bs)|
    ensures var p := StagePathsAll(bs)[k];
            p != [] && p[0] < |bs| && FieldsBelow(bs, p) == Some(SubtreeAll(bs)[k])
    decreases bs
  {
    var init, last := bs[..|bs| - 1], bs[|bs| - 1];
    PlacesCount(bs);
    PlacesCount(init);
    var n := |StagePathsAll(init)|;
    if k < n {
      PlacesBelowHave(init, k);
    } else {
      PlacesHave(last, k - n);
      var p := StagePathsAll(bs)[k];
      assert p == [|init|] + StagePaths(last)[k - n];
      assert p[1..] == StagePaths(last)[k - n];
    }
  }

  lemma {:induction false} PlacesDiffer(b: Built, j: nat, k: nat)
    requires j < k < |StagePaths(b)|
    ensures StagePaths(b)[j] != StagePaths(b)[k]
    decreases b, 0
  {
    PlacesBelowHave(b.children, k - 1);
    if j > 0 {
      PlacesBelowDiffer(b.children, j - 1, k - 1);
    }
  }

  lemma {:induction false} PlacesBelowDiffer(bs: seq<Built>, j: nat, k: nat)
    requires j < k < |StagePathsAll(bs)|
    ensures StagePathsAll(bs)[j] != StagePathsAll(bs)[k]
    decreases bs
  {
    var init, last := bs[..|bs| - 1], bs[|bs| - 1];
    var n := |StagePathsAll(init)|;
    if k < n {
      PlacesBelowDiffer(init, j, k);
    } else if j < n {
      PlacesBelowHave(init, j);
      assert StagePathsAll(bs)[k][0] == |init|;
    } else {
      PlacesDiffer(last, j - n, k - n);
      assert StagePathsAll(bs)[j][1..] == StagePaths(last)[j - n];
      assert StagePathsAll(bs)[k][1..] == StagePaths(last)[k - n];
    }
  }

  /** Message `i` has id `i`, and by the parents it and the others name it is at the place of the stage
      that initialization numbers `i`; that stage has its fields, and no two stages are at one place. */
  lemma IdsLineUp(spec: Spec)
    ensures Dense(ToMsgs(spec)) && |StagePaths(Shape(spec))| == |ToMsgs(spec)|
    ensures forall i :: 0 <= i < |ToMsgs(spec)| ==>
              && PathByLinks(ToMsgs(spec), i) == StagePaths(Shape(spec))[i]
              && FieldsAtPlace(Shape(spec), StagePaths(Shape(spec))[i]) == Some(ToMsgs(spec)[i].fields)
    ensures forall i, j :: 0 <= i < j < |ToMsgs(spec)| ==>
              StagePaths(Shape(spec))[i] != StagePaths(Shape(spec))[j]
  {
    var l, b := ToMsgs(spec), Shape(spec);
    ToMsgsPreorder(spec);
    TreeLength(spec, 0, 0);
    SubtreeIsPreorder(spec, b);
    FlattenIsPreorder(spec, 0, 0);
    assert FieldsOf(l) == SubtreeStages(b);
    PathsPlaced(l, spec, 0, 0);
    forall i | 0 <= i < |l|
      ensures PathByLinks(l, i) == StagePaths(b)[i]
      ensures FieldsAtPlace(b, StagePaths(b)[i]) == Some(l[i].fields)
    {
      PlacesHave(b, i);
      assert PathByLinks(l, 0 + i) == [] + StagePaths(b)[i] == StagePaths(b)[i];
    }
    forall i, j | 0 <= i < j < |l| ensures StagePaths(b)[i] != StagePaths(b)[j] {
      PlacesDiffer(b, i, j);
    }
  }
}
