/** States pass between the children of a flat root along the edges that resolution recorded. */
module EdgeFlow {
  import opened Interfaces
  import opened Search
  import opened Network
  import opened Resolution

  /** The children's kinds are those of their resolved interfaces. */
  ghost predicate KindsOf(kinds: seq<InterfaceType>, os: seq<Oriented>) {
    |kinds| == |os| && forall i :: 0 <= i < |os| ==> FlagsOf(os[i]) == Flags(kinds[i].Start(), kinds[i].End())
  }

  /** What child `i` wrote at its end goes to the next child exactly along a forward edge, what it wrote at
      its start to the previous one exactly along a backward edge, and nothing else changes. */
  ghost predicate PassedAlong(edges: seq<Option<Direction>>, v: seq<StageView>, w: seq<StageView>, i: nat)
    requires |v| == |w| == |edges| + 1 && i < |v|
  {
    forall j :: 0 <= j < |v| ==>
      w[j] == if j == i + 1 && edges[i] == Some(Forward) then v[j].(startPull := PushAll(v[j].startPull, v[i].ends))
              else if j + 1 == i && edges[j] == Some(Backward) then v[j].(endPull := PushAll(v[j].endPull, v[i].starts))
              else v[j]
  }

  /** The planner's propagation is along the recorded edges of a consistently resolved row. */
  lemma PropagatesAlongEdges(p: Problem, os: seq<Oriented>, edges: seq<Option<Direction>>, v: seq<StageView>, i: nat)
    requires KindsOf(p.kinds, os) && Consistent(OSerial(os)) && |v| == |os| && i < |os| == |edges| + 1
    requires forall j :: 0 <= j < |edges| ==> edges[j] == EdgeAt(os, |os|, j)
    ensures PassedAlong(edges, v, Propagate(p, v, i), i)
  {
    if i + 1 < |os| {
      EdgesFollowFlow(os, i);
    }
    if i > 0 {
      EdgesFollowFlow(os, i - 1);
    }
  }

  /** In particular for every task that resolves at a serial root. */
  lemma ResolvedPropagates(children: seq<Node>, o: Oriented, p: Problem, edges: seq<Option<Direction>>,
                           v: seq<StageView>, i: nat)
    requires Resolve(Serial(children), Some(WRITES), Some(WRITES)) == Some(o)
    requires p.kinds == seq(|o.children|, k requires 0 <= k < |o.children| => TypeOf(FlagsOf(o.children[k])))
    requires |edges| + 1 == |o.children|
    requires forall j :: 0 <= j < |edges| ==> edges[j] == EdgeAt(o.children, |o.children|, j)
    requires |v| == |o.children| && i < |v|
    ensures PassedAlong(edges, v, Propagate(p, v, i), i)
  {
    ResolvedTaskIsPlannable(children, o);
    ResolveSound(Serial(children), Some(WRITES), Some(WRITES));
    PropagatesAlongEdges(p, o.children, edges, v, i);
  }
}
