/** Composed solutions: how containers lift the solutions of their children, and what a
    composed solution says about the leaves it is made of. */
module Solutions {
  import opened Interfaces

  const JOINT_TOLERANCE := 0.000000001

  function Abs(x: Scalar): Scalar { if x < 0.0 then -x else x }

  /** Two waypoints within tolerance in every joint. */
  predicate SameJoints(a: Waypoint, b: Waypoint) {
    |a| == |b| && forall i :: 0 <= i < |a| ==> Abs(a[i] - b[i]) < JOINT_TOLERANCE
  }

  // --- trajectories ------------------------------------------------------------------------

  /** Appends a segment, dropping its first waypoint when it repeats the last one. */
  function Join(out: seq<Waypoint>, seg: seq<Waypoint>): seq<Waypoint> {
    if seg == [] then out
    else if out != [] && SameJoints(out[|out| - 1], seg[0]) then out + seg[1..]
    else out + seg
  }

  /** Two waypoints of different length, or a nanoradian or more apart in some joint. */
  ghost predicate FarApart(a: Waypoint, b: Waypoint) {
    |a| != |b| || exists i :: 0 <= i < |a| && (a[i] - b[i] >= 0.000000001 || b[i] - a[i] >= 0.000000001)
  }

  /** A junction keeps both waypoints exactly when they are apart; otherwise only the later one is dropped. */
  lemma JoinExactly(out: seq<Waypoint>, seg: seq<Waypoint>)
    requires out != [] && seg != []
    ensures Join(out, seg) == out + seg <==> FarApart(out[|out| - 1], seg[0])
    ensures Join(out, seg) == out + seg[1..] <==> !FarApart(out[|out| - 1], seg[0])
  {
    assert |out + seg| == |out + seg[1..]| + 1;
  }

  function ConcatSegments(segs: seq<seq<Waypoint>>): seq<Waypoint> {
    if segs == [] then [] else Join(ConcatSegments(segs[..|segs| - 1]), segs[|segs| - 1])
  }

  function Trajectories(chain: seq<Solution>): (r: seq<seq<Waypoint>>)
    ensures |r| == |chain|
    ensures forall i :: 0 <= i < |r| ==> r[i] == chain[i].trajectory
  {
    seq(|chain|, i requires 0 <= i < |chain| => chain[i].trajectory)
  }

  /** The loop over a chain that builds its trajectory. */
  method ConcatTrajectories(chain: seq<Solution>) returns (out: seq<Waypoint>)
    ensures out == ConcatSegments(Trajectories(chain))
  {
    out := [];
    ghost var segs := Trajectories(chain);
    for i := 0 to |chain|
      invariant out == ConcatSegments(segs[..i])
    {
      var traj := chain[i].trajectory;
      assert segs[..i + 1][..i] == segs[..i];
      if traj != [] {
        if out != [] && SameJoints(out[|out| - 1], traj[0]) {
          traj := traj[1..];
        }
        out := out + traj;
      }
    }
    assert segs[..|chain|] == segs;
  }

  predicate Meets(a: seq<Waypoint>, b: seq<Waypoint>) {
    a != [] && b != [] && SameJoints(a[|a| - 1], b[0])
  }

  /** What is left of `b` after `a`. */
  function Rest(a: seq<Waypoint>, b: seq<Waypoint>): seq<Waypoint> {
    if Meets(a, b) then b[1..] else b
  }

  lemma JoinIsRest(a: seq<Waypoint>, b: seq<Waypoint>)
    ensures Join(a, b) == a + Rest(a, b)
  {
  }

  lemma RestOfLonger(a: seq<Waypoint>, b: seq<Waypoint>, more: seq<Waypoint>)
    requires b != []
    ensures Rest(a, b + more) == Rest(a, b) + more
  {
    assert (b + more)[0] == b[0] && (b + more)[1..] == b[1..] + more;
  }

  lemma RestAfterLonger(a: seq<Waypoint>, b: seq<Waypoint>, c: seq<Waypoint>)
    requires |b| > 1
    ensures Rest(a + Rest(a, b), c) == Rest(b, c)
  {
    var ab := a + Rest(a, b);
    assert ab[|ab| - 1] == b[|b| - 1];
  }

  lemma JoinLong(a: seq<Waypoint>, b: seq<Waypoint>, c: seq<Waypoint>)
    requires |b| > 1
    ensures Join(Join(a, b), c) == Join(a, Join(b, c))
  {
    JoinIsRest(a, b);
    JoinIsRest(b, c);
    JoinIsRest(a + Rest(a, b), c);
    JoinIsRest(a, b + Rest(b, c));
    RestAfterLonger(a, b, c);
    RestOfLonger(a, b, Rest(b, c));
    assert a + Rest(a, b) + Rest(b, c) == a + (Rest(a, b) + Rest(b, c));
  }

  lemma JoinPoint(a: seq<Waypoint>, w: Waypoint, c: seq<Waypoint>)
    requires a != [] && c != []
    ensures Join(Join(a, [w]), c) == Join(a, Join([w], c)) <==>
            !(Meets(a, [w]) && Meets(a, c) != Meets([w], c))
  {
    var c' := if Meets([w], c) then c[1..] else c;
    assert Join([w], c) == [w] + c' && Join([w], c)[0] == w && ([w] + c')[1..] == c';
    if Meets(a, [w]) {
      assert Join(a, [w]) == a;
      assert Join(a, Join([w], c)) == a + c';
      assert |a + c[1..]| != |a + c|;
    } else {
      assert Join(a, [w]) == a + [w];
      assert Join(a, Join([w], c)) == a + ([w] + c') == (a + [w]) + c';
    }
  }

  lemma JoinEmpty(a: seq<Waypoint>)
    ensures Join([], a) == a && Join(a, []) == a
  {
    JoinIsRest([], a);
    JoinIsRest(a, []);
  }

  lemma JoinWithEmpty(a: seq<Waypoint>, b: seq<Waypoint>, c: seq<Waypoint>)
    requires a == [] || b == [] || c == []
    ensures Join(Join(a, b), c) == Join(a, Join(b, c))
  {
    JoinEmpty(a);
    JoinEmpty(b);
    JoinEmpty(c);
    JoinEmpty(Join(a, b));
    JoinEmpty(Join(b, c));
  }

  /** Joining is associative except across a single waypoint that blurs into the end of the
      first segment while the two disagree about the start of the third. */
  lemma JoinAssociativeExactly(a: seq<Waypoint>, b: seq<Waypoint>, c: seq<Waypoint>)
    ensures Join(Join(a, b), c) == Join(a, Join(b, c)) <==>
            !(a != [] && |b| == 1 && c != [] && Meets(a, b) && Meets(a, c) != Meets(b, c))
  {
    if a == [] || b == [] || c == [] {
      JoinWithEmpty(a, b, c);
    } else if |b| > 1 {
      JoinLong(a, b, c);
    } else {
      assert b == [b[0]];
      JoinPoint(a, b[0], c);
    }
  }

  /** On these waypoints the tolerance behaves like equality. */
  ghost predicate Crisp(points: set<Waypoint>) {
    forall a, b, c :: a in points && b in points && c in points ==>
      SameJoints(a, b) && SameJoints(b, c) ==> SameJoints(a, c)
  }

  ghost predicate Within(points: set<Waypoint>, seg: seq<Waypoint>) {
    forall w :: w in seg ==> w in points
  }

  ghost predicate AllWithin(points: set<Waypoint>, segs: seq<seq<Waypoint>>) {
    forall s :: s in segs ==> Within(points, s)
  }

  lemma SameJointsSymmetric(a: Waypoint, b: Waypoint)
    ensures SameJoints(a, b) == SameJoints(b, a)
  {
  }

  lemma JoinWithin(points: set<Waypoint>, a: seq<Waypoint>, b: seq<Waypoint>)
    requires Within(points, a) && Within(points, b)
    ensures Within(points, Join(a, b))
  {
  }

  lemma {:induction false} ConcatWithin(points: set<Waypoint>, segs: seq<seq<Waypoint>>)
    requires AllWithin(points, segs)
    ensures Within(points, ConcatSegments(segs))
  {
    if segs != [] {
      ConcatWithin(points, segs[..|segs| - 1]);
      JoinWithin(points, ConcatSegments(segs[..|segs| - 1]), segs[|segs| - 1]);
    }
  }

  lemma JoinAssociative(points: set<Waypoint>, a: seq<Waypoint>, b: seq<Waypoint>, c: seq<Waypoint>)
    requires Crisp(points) && Within(points, a) && Within(points, b) && Within(points, c)
    ensures Join(Join(a, b), c) == Join(a, Join(b, c))
  {
    JoinAssociativeExactly(a, b, c);
    if a != [] && |b| == 1 && c != [] {
      SameJointsSymmetric(a[|a| - 1], b[0]);
      SameJointsSymmetric(b[0], c[0]);
      SameJointsSymmetric(a[|a| - 1], c[0]);
      assert a[|a| - 1] in points && b[0] in points && c[0] in points;
    }
  }

  /** Concatenating a list of segments in two steps. */
  lemma {:induction false} ConcatSplit(points: set<Waypoint>, s: seq<seq<Waypoint>>, t: seq<seq<Waypoint>>)
    requires Crisp(points) && AllWithin(points, s) && AllWithin(points, t)
    ensures ConcatSegments(s + t) == Join(ConcatSegments(s), ConcatSegments(t))
  {
    if t == [] {
      assert s + t == s;
    } else {
      var init, last := t[..|t| - 1], t[|t| - 1];
      assert (s + t)[..|s + t| - 1] == s + init;
      ConcatSplit(points, s, init);
      ConcatWithin(points, s);
      ConcatWithin(points, init);
      JoinAssociative(points, ConcatSegments(s), ConcatSegments(init), last);
    }
  }

  function TotalLength(segs: seq<seq<Waypoint>>): nat {
    if segs == [] then 0 else TotalLength(segs[..|segs| - 1]) + |segs[|segs| - 1]|
  }

  /** The junctions at which a segment repeats the waypoint reached so far. */
  function Junctions(segs: seq<seq<Waypoint>>): nat {
    if segs == [] then 0
    else
      var out, seg := ConcatSegments(segs[..|segs| - 1]), segs[|segs| - 1];
      Junctions(segs[..|segs| - 1]) +
      if seg != [] && out != [] && SameJoints(out[|out| - 1], seg[0]) then 1 else 0
  }

  /** Exactly one waypoint goes missing per matching junction. */
  lemma {:induction false} OneDropPerJunction(segs: seq<seq<Waypoint>>)
    ensures |ConcatSegments(segs)| == TotalLength(segs) - Junctions(segs)
  {
    if segs != [] {
      OneDropPerJunction(segs[..|segs| - 1]);
    }
  }

  // --- lifting -------------------------------------------------------------------------------

  function SumCost(chain: seq<Solution>): Scalar {
    if chain == [] then 0.0 else SumCost(chain[..|chain| - 1]) + chain[|chain| - 1].cost
  }

  function ConcatOps(chain: seq<Solution>): seq<SceneOp> {
    if chain == [] then [] else ConcatOps(chain[..|chain| - 1]) + chain[|chain| - 1].ops
  }

  /** A serial container's solution for one chain. */
  function LiftChain(chain: seq<Solution>, stage: int): Solution
    requires chain != []
  {
    Solution(chain[0].start, chain[|chain| - 1].end, stage, SumCost(chain),
             ConcatSegments(Trajectories(chain)), ConcatOps(chain), NoRequest, chain)
  }

  /** A parallel container's solution for one child solution. */
  function LiftChild(sol: Solution, stage: int): Solution {
    sol.(stage := stage, children := [sol])
  }

  /** The container's solution `s` is the child's solution `c` under the container's own place. */
  predicate IsLift(own: int, c: Solution, s: Solution) {
    && s.start == c.start && s.end == c.end && s.stage == own && s.cost == c.cost
    && s.trajectory == c.trajectory && s.ops == c.ops && s.request == c.request && s.children == [c]
  }

  /** Lifting changes nothing but the place and the children. */
  lemma LiftChildKeeps(own: int, c: Solution)
    ensures IsLift(own, c, LiftChild(c, own))
  {
  }

  ghost predicate LinkedSolutions(chain: seq<Solution>) {
    forall i :: 0 <= i < |chain| - 1 ==> chain[i].end == chain[i + 1].start
  }

  /** Solutions built by containers from leaves, at any depth. */
  ghost predicate Composed(s: Solution) {
    s.children != [] ==>
      && LinkedSolutions(s.children)
      && (s == LiftChain(s.children, s.stage) || (|s.children| == 1 && s == LiftChild(s.children[0], s.stage)))
      && forall c :: c in s.children ==> Composed(c)
  }

  function Leaves(s: Solution): seq<Solution>
    decreases s, 0
  {
    if s.children == [] then [s] else LeavesOf(s.children)
  }

  function LeavesOf(chain: seq<Solution>): seq<Solution>
    decreases chain
  {
    if chain == [] then []
    else LeavesOf(chain[..|chain| - 1]) + Leaves(chain[|chain| - 1])
  }

  /** The executor's depth-first walk over a composed solution. */
  method FlattenLeaves(s: Solution) returns (out: seq<Solution>)
    ensures out == Leaves(s)
    decreases s
  {
    if s.children == [] {
      out := [s];
    } else {
      out := [];
      for i := 0 to |s.children|
        invariant out == LeavesOf(s.children[..i])
      {
        var below := FlattenLeaves(s.children[i]);
        assert s.children[..i + 1][..i] == s.children[..i];
        out := out + below;
      }
      assert s.children[..|s.children|] == s.children;
    }
  }

  // --- flattening is a homomorphism ------------------------------------------------------------

  lemma {:induction false} SumCostConcat(s: seq<Solution>, t: seq<Solution>)
    ensures SumCost(s + t) == SumCost(s) + SumCost(t)
  {
    if t == [] {
      assert s + t == s;
    } else {
      assert (s + t)[..|s + t| - 1] == s + t[..|t| - 1];
      SumCostConcat(s, t[..|t| - 1]);
    }
  }

  lemma {:induction false} ConcatOpsConcat(s: seq<Solution>, t: seq<Solution>)
    ensures ConcatOps(s + t) == ConcatOps(s) + ConcatOps(t)
  {
    if t == [] {
      assert s + t == s;
    } else {
      assert (s + t)[..|s + t| - 1] == s + t[..|t| - 1];
      ConcatOpsConcat(s, t[..|t| - 1]);
      assert ConcatOps(s) + ConcatOps(t) == ConcatOps(s) + ConcatOps(t[..|t| - 1]) + t[|t| - 1].ops;
    }
  }

  lemma LinkedConcat(s: seq<Solution>, t: seq<Solution>)
    requires LinkedSolutions(s) && LinkedSolutions(t)
    requires s != [] && t != [] ==> s[|s| - 1].end == t[0].start
    ensures LinkedSolutions(s + t)
  {
  }

  /** `leaves` adds up to `s` in everything but the trajectory. */
  ghost predicate AddsUpTo(leaves: seq<Solution>, start: InterfaceState, end: InterfaceState, cost: Scalar,
                           ops: seq<SceneOp>)
  {
    && leaves != [] && LinkedSolutions(leaves)
    && leaves[0].start == start && leaves[|leaves| - 1].end == end
    && SumCost(leaves) == cost && ConcatOps(leaves) == ops
  }

  /** For a container solution at any depth: its cost is the sum of the leaf costs, its scene
      operations are the leaves' in order, it starts where the first leaf starts and ends where
      the last one ends, and consecutive leaves share a state. */
  lemma {:induction false} FlattenAddsUp(s: Solution)
    requires Composed(s)
    ensures AddsUpTo(Leaves(s), s.start, s.end, s.cost, s.ops)
    decreases s, 0
  {
    if s.children == [] {
      assert [s][..0] == [];
      assert ConcatOps([s]) == ConcatOps([]) + s.ops == s.ops;
    } else {
      FlattenAllAddUp(s.children);
      var c := s.children;
      if s != LiftChain(c, s.stage) {
        assert c[..0] == [];
        assert ConcatOps(c) == ConcatOps([]) + c[0].ops == c[0].ops;
        assert SumCost(c) == SumCost([]) + c[0].cost == c[0].cost;
      }
    }
  }

  lemma OneAddsUp(s: Solution)
    ensures SumCost([s]) == s.cost && ConcatOps([s]) == s.ops && LeavesOf([s]) == Leaves(s)
  {
    assert [s][..0] == [];
    assert ConcatOps([s]) == [] + s.ops == s.ops;
    assert LeavesOf([s]) == [] + Leaves(s) == Leaves(s);
  }

  lemma {:induction false} FlattenAllAddUp(chain: seq<Solution>)
    requires chain != [] && LinkedSolutions(chain)
    requires forall c :: c in chain ==> Composed(c)
    ensures AddsUpTo(LeavesOf(chain), chain[0].start, chain[|chain| - 1].end, SumCost(chain), ConcatOps(chain))
    decreases chain
  {
    var init, last := chain[..|chain| - 1], chain[|chain| - 1];
    FlattenAddsUp(last);
    if init == [] {
      assert chain == [last];
      OneAddsUp(last);
    } else {
      FlattenAllAddUp(init);
      assert init[|init| - 1].end == last.start;
      LinkedConcat(LeavesOf(init), Leaves(last));
      SumCostConcat(LeavesOf(init), Leaves(last));
      ConcatOpsConcat(LeavesOf(init), Leaves(last));
    }
  }

  ghost predicate LeavesWithin(points: set<Waypoint>, leaves: seq<Solution>) {
    forall l :: l in leaves ==> Within(points, l.trajectory)
  }

  lemma TrajectoriesWithin(points: set<Waypoint>, leaves: seq<Solution>)
    requires LeavesWithin(points, leaves)
    ensures AllWithin(points, Trajectories(leaves))
  {
  }

  /** Concatenating level by level gives the concatenation of the leaves, wherever the joint
      tolerance is transitive on the waypoints used. */
  lemma {:induction false} FlattenTrajectory(points: set<Waypoint>, s: Solution)
    requires Composed(s) && Crisp(points) && LeavesWithin(points, Leaves(s))
    ensures s.trajectory == ConcatSegments(Trajectories(Leaves(s)))
    decreases s, 0
  {
    if s.children == [] {
      assert Trajectories([s])[..0] == [];
    } else {
      FlattenTrajectories(points, s.children);
      if s != LiftChain(s.children, s.stage) {
        assert Trajectories(s.children)[..0] == [];
      }
    }
  }

  lemma TrajectoriesConcat(a: seq<Solution>, b: seq<Solution>)
    ensures Trajectories(a + b) == Trajectories(a) + Trajectories(b)
  {
  }

  lemma ConcatSnoc(segments: seq<seq<Waypoint>>, last: seq<Waypoint>)
    ensures ConcatSegments(segments + [last]) == Join(ConcatSegments(segments), last)
  {
    assert (segments + [last])[..|segments|] == segments;
  }

  /** Joining one more solution's trajectory is joining the segments it is made of. */
  lemma FlattenSegments(points: set<Waypoint>, a: seq<seq<Waypoint>>, b: seq<seq<Waypoint>>, c: seq<seq<Waypoint>>,
                        last: seq<Waypoint>)
    requires Crisp(points) && AllWithin(points, a) && AllWithin(points, b)
    requires last == ConcatSegments(b) && ConcatSegments(c) == ConcatSegments(a)
    ensures ConcatSegments(c + [last]) == ConcatSegments(a + b)
  {
    ConcatSplit(points, a, b);
    ConcatSnoc(c, last);
  }

  lemma FlattenNext(points: set<Waypoint>, init: seq<Solution>, last: Solution)
    requires Crisp(points) && LeavesWithin(points, LeavesOf(init)) && LeavesWithin(points, Leaves(last))
    requires last.trajectory == ConcatSegments(Trajectories(Leaves(last)))
    requires ConcatSegments(Trajectories(init)) == ConcatSegments(Trajectories(LeavesOf(init)))
    ensures ConcatSegments(Trajectories(init + [last]))
            == ConcatSegments(Trajectories(LeavesOf(init) + Leaves(last)))
  {
    TrajectoriesWithin(points, LeavesOf(init));
    TrajectoriesWithin(points, Leaves(last));
    TrajectoriesConcat(LeavesOf(init), Leaves(last));
    TrajectoriesConcat(init, [last]);
    assert Trajectories([last]) == [last.trajectory];
    FlattenSegments(points, Trajectories(LeavesOf(init)), Trajectories(Leaves(last)), Trajectories(init),
                    last.trajectory);
  }

  lemma {:induction false} FlattenTrajectories(points: set<Waypoint>, chain: seq<Solution>)
    requires Crisp(points) && LeavesWithin(points, LeavesOf(chain))
    requires forall c :: c in chain ==> Composed(c)
    ensures ConcatSegments(Trajectories(chain)) == ConcatSegments(Trajectories(LeavesOf(chain)))
    decreases chain
  {
    if chain != [] {
      var init, last := chain[..|chain| - 1], chain[|chain| - 1];
      assert LeavesOf(chain) == LeavesOf(init) + Leaves(last);
      FlattenTrajectory(points, last);
      FlattenTrajectories(points, init);
      FlattenNext(points, init, last);
      assert chain == init + [last];
    }
  }

  /** Without transitivity nesting shows: three waypoints, each within tolerance of the next. */
  lemma NestingCanShow()
    ensures var a, b, c := [[0.0]], [[0.0000000006]], [[0.0000000012]];
      Join(Join(a, b), c) != Join(a, Join(b, c))
  {
    var a, b, c: seq<Waypoint> := [[0.0]], [[0.0000000006]], [[0.0000000012]];
    assert SameJoints(a[0], b[0]) && SameJoints(b[0], c[0]) && !SameJoints(a[0], c[0]) by {
      assert Abs(a[0][0] - c[0][0]) == 0.0000000012;
    }
    JoinAssociativeExactly(a, b, c);
  }
}
