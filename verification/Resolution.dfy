/** How the direction of every stage is inferred from its neighbours, and that the inference is
    sound, complete and unique. */
module Resolution {
  import opened Interfaces
  import opened Search

  /** A stage tree before resolution. `pin` restricts a propagator to one direction. */
  datatype Node =
    | Fixed(kind: InterfaceType)
    | EitherWay(pin: Option<Direction>)
    | Wrapper(child: Node)
    | Serial(children: seq<Node>)
    | Parallel(children: seq<Node>)

  /** A stage tree with a direction for each propagator that may run either way. */
  datatype Oriented =
    | OFixed(kind: InterfaceType)
    | OEitherWay(flow: Direction)
    | OWrapper(child: Oriented)
    | OSerial(children: seq<Oriented>)
    | OParallel(children: seq<Oriented>)

  datatype Flags = Flags(start: Flag, end: Flag)

  /** The interface an oriented stage presents: containers present that of their boundary. */
  function FlagsOf(o: Oriented): Flags {
    match o
    case OFixed(kind) => Flags(kind.Start(), kind.End())
    case OEitherWay(flow) => if flow.Forward? then Flags(READS, WRITES) else Flags(WRITES, READS)
    case OWrapper(child) => FlagsOf(child)
    case OSerial(children) =>
      if children == [] then Flags(WRITES, WRITES)
      else Flags(FlagsOf(children[0]).start, FlagsOf(children[|children| - 1]).end)
    case OParallel(children) =>
      if children == [] then Flags(WRITES, WRITES) else FlagsOf(children[0])
  }

  /** The start interface that answers this end interface: reads where it writes. */
  function Invert(end: Flag): Flag { Flag(end.write, end.read) }

  /** An edge is valid when one side writes what the other side reads. */
  predicate Joins(end: Flag, start: Flag) {
    (end.write && start.read) || (end.read && start.write)
  }

  /** The direction recorded for an edge. */
  function EdgeOf(end: Flag, start: Flag): Direction {
    if end.write && start.read then Forward else Backward
  }

  /** What is recorded for edge `i` once the first `m` children are known. */
  function EdgeAt(os: seq<Oriented>, m: nat, i: nat): Option<Direction>
    requires m <= |os|
  {
    if i + 1 < m then Some(EdgeOf(FlagsOf(os[i]).end, FlagsOf(os[i + 1]).start)) else None
  }

  // --- inference ---------------------------------------------------------------------------------

  function FlowFromEnd(ee: Option<Flag>): Option<Direction> {
    match ee
    case None => Some(Forward)
    case Some(f) =>
      if f.write && !f.read then Some(Forward) else if f.read && !f.write then Some(Backward) else None
  }

  function FlowFor(es: Option<Flag>, ee: Option<Flag>): Option<Direction> {
    match es
    case None => FlowFromEnd(ee)
    case Some(f) =>
      if f.read && !f.write then Some(Forward)
      else if f.write && !f.read then Some(Backward)
      else if !f.read && !f.write then FlowFromEnd(ee)
      else None
  }

  predicate Fulfils(flags: Flags, es: Option<Flag>, ee: Option<Flag>) {
    (es.Some? ==> flags.start == es.value) && (ee.Some? ==> flags.end == ee.value)
  }

  function Resolve(node: Node, es: Option<Flag>, ee: Option<Flag>): Option<Oriented>
    decreases node, 0
  {
    match node
    case Fixed(kind) => Some(OFixed(kind))
    case EitherWay(pin) =>
      var flow := FlowFor(es, ee);
      if flow.None? || (pin.Some? && pin != flow) then None else Some(OEitherWay(flow.value))
    case Wrapper(child) =>
      var r := Resolve(child, es, ee);
      if r.None? then None else Some(OWrapper(r.value))
    case Serial(children) =>
      if children == [] || (es.None? && ee.None?) then None
      else
        var r := ResolveSerial(children, es, |children|);
        if r.None? || !Fulfils(FlagsOf(OSerial(r.value)), es, ee) then None else Some(OSerial(r.value))
    case Parallel(children) =>
      if children == [] || (es.None? && ee.None?) then None
      else
        var r := ResolveParallel(children, es, ee, |children|);
        if r.None? || !Fulfils(FlagsOf(OParallel(r.value)), es, ee) then None else Some(OParallel(r.value))
  }

  /** The cascade over the first `m` children of a serial container. */
  function ResolveSerial(children: seq<Node>, es: Option<Flag>, m: nat): (r: Option<seq<Oriented>>)
    requires m <= |children|
    ensures r.Some? ==> |r.value| == m
    decreases children, m
  {
    if m == 0 then Some([])
    else
      var before := ResolveSerial(children, es, m - 1);
      if before.None? then None
      else
        var expected := if m == 1 then es else Some(Invert(FlagsOf(before.value[m - 2]).end));
        var next := Resolve(children[m - 1], expected, None);
        if next.None? then None
        else if m > 1 && !Joins(FlagsOf(before.value[m - 2]).end, FlagsOf(next.value).start) then None
        else Some(before.value + [next.value])
  }

  /** The first `m` children of a parallel container, which must all agree. */
  function ResolveParallel(children: seq<Node>, es: Option<Flag>, ee: Option<Flag>, m: nat)
    : (r: Option<seq<Oriented>>)
    requires m <= |children|
    ensures r.Some? ==> |r.value| == m
    decreases children, m
  {
    if m == 0 then Some([])
    else
      var before := ResolveParallel(children, es, ee, m - 1);
      if before.None? then None
      else
        var next := Resolve(children[m - 1], es, ee);
        if next.None? then None
        else if m > 1 && FlagsOf(next.value) != FlagsOf(before.value[0]) then None
        else Some(before.value + [next.value])
  }

  // --- the declarative meaning -----------------------------------------------------------------------

  /** `o` is `node` with a direction for every propagator, pinned ones as pinned. */
  ghost predicate Assigns(node: Node, o: Oriented)
    decreases node
  {
    match node
    case Fixed(kind) => o == OFixed(kind)
    case EitherWay(pin) => o.OEitherWay? && (pin.Some? ==> pin.value == o.flow)
    case Wrapper(child) => o.OWrapper? && Assigns(child, o.child)
    case Serial(children) =>
      o.OSerial? && |o.children| == |children|
      && forall i :: 0 <= i < |children| ==> Assigns(children[i], o.children[i])
    case Parallel(children) =>
      o.OParallel? && |o.children| == |children|
      && forall i :: 0 <= i < |children| ==> Assigns(children[i], o.children[i])
  }

  /** Every serial edge joins a writer to a reader and parallel siblings present the same
      interface. */
  ghost predicate Consistent(o: Oriented) {
    match o
    case OFixed(_) => true
    case OEitherWay(_) => true
    case OWrapper(child) => Consistent(child)
    case OSerial(children) =>
      && children != []
      && (forall i :: 0 <= i < |children| ==> Consistent(children[i]))
      && forall i :: 0 <= i < |children| - 1 ==> Joins(FlagsOf(children[i]).end, FlagsOf(children[i + 1]).start)
    case OParallel(children) =>
      && children != []
      && (forall i :: 0 <= i < |children| ==> Consistent(children[i]))
      && forall i :: 0 <= i < |children| ==> FlagsOf(children[i]) == FlagsOf(children[0])
  }

  /** Without an expected start: the first propagators follow the expected end, or run forward where
      that is not known, and a container refuses when it knows neither. */
  ghost predicate ByDefault(o: Oriented, ee: Option<Flag>) {
    match o
    case OFixed(_) => true
    case OEitherWay(flow) => if flow.Forward? then ee == None || ee == Some(WRITES) else ee == Some(READS)
    case OWrapper(child) => ByDefault(child, ee)
    case OSerial(children) => ee.Some? && children != [] && ByDefault(children[0], None)
    case OParallel(children) => ee.Some? && forall i :: 0 <= i < |children| ==> ByDefault(children[i], ee)
  }

  ghost predicate Orientation(node: Node, es: Option<Flag>, ee: Option<Flag>, o: Oriented) {
    Assigns(node, o) && Consistent(o) && Fulfils(FlagsOf(o), es, ee) && (es.None? ==> ByDefault(o, ee))
  }

  const NEITHER := Flag(false, false)

  predicate OneWay(f: Flag) { f == READS || f == WRITES }

  lemma {:induction false} FlagsOneWay(o: Oriented)
    requires Consistent(o)
    ensures OneWay(FlagsOf(o).start) && OneWay(FlagsOf(o).end)
  {
    match o
    case OFixed(_) =>
    case OEitherWay(_) =>
    case OWrapper(child) => FlagsOneWay(child);
    case OSerial(children) =>
      FlagsOneWay(children[0]);
      FlagsOneWay(children[|children| - 1]);
    case OParallel(children) => FlagsOneWay(children[0]);
  }

  /** What inference returns is an orientation; for a container it also meets the expectation. */
  lemma {:induction false} ResolveSound(node: Node, es: Option<Flag>, ee: Option<Flag>)
    requires Resolve(node, es, ee).Some?
    ensures var o := Resolve(node, es, ee).value;
      && Assigns(node, o) && Consistent(o) && (es.None? ==> ByDefault(o, ee))
      && (node.Serial? || node.Parallel? ==> Fulfils(FlagsOf(o), es, ee))
    decreases node, 0
  {
    match node
    case Fixed(_) =>
    case EitherWay(_) =>
    case Wrapper(child) => ResolveSound(child, es, ee);
    case Serial(children) => SerialSound(children, es, |children|);
    case Parallel(children) => ParallelSound(children, es, ee, |children|);
  }

  lemma {:induction false} SerialSound(children: seq<Node>, es: Option<Flag>, m: nat)
    requires m <= |children| && ResolveSerial(children, es, m).Some?
    ensures var r := ResolveSerial(children, es, m).value;
      && (forall i :: 0 <= i < m ==> Assigns(children[i], r[i]) && Consistent(r[i]))
      && (forall i :: 0 <= i < m - 1 ==> Joins(FlagsOf(r[i]).end, FlagsOf(r[i + 1]).start))
      && (es.None? && m > 0 ==> ByDefault(r[0], None))
    decreases children, m
  {
    if m > 0 {
      SerialSound(children, es, m - 1);
      var before := ResolveSerial(children, es, m - 1).value;
      var expected := if m == 1 then es else Some(Invert(FlagsOf(before[m - 2]).end));
      ResolveSound(children[m - 1], expected, None);
    }
  }

  lemma {:induction false} ParallelSound(children: seq<Node>, es: Option<Flag>, ee: Option<Flag>, m: nat)
    requires m <= |children| && ResolveParallel(children, es, ee, m).Some?
    ensures var r := ResolveParallel(children, es, ee, m).value;
      && (forall i :: 0 <= i < m ==> Assigns(children[i], r[i]) && Consistent(r[i]) && FlagsOf(r[i]) == FlagsOf(r[0]))
      && (es.None? ==> forall i :: 0 <= i < m ==> ByDefault(r[i], ee))
    decreases children, m
  {
    if m > 0 {
      ParallelSound(children, es, ee, m - 1);
      ResolveSound(children[m - 1], es, ee);
    }
  }

  /** Any orientation that meets the expectation is the one inference finds. */
  lemma {:induction false} ResolveFinds(node: Node, es: Option<Flag>, ee: Option<Flag>, o: Oriented)
    requires Orientation(node, es, ee, o)
    ensures Resolve(node, es, ee) == Some(o)
    decreases node, 0
  {
    match node
    case Fixed(_) =>
    case EitherWay(_) =>
    case Wrapper(child) => ResolveFinds(child, es, ee, o.child);
    case Serial(children) =>
      SerialFinds(children, es, o.children, |children|);
      assert o.children[..|children|] == o.children;
    case Parallel(children) =>
      ParallelFinds(children, es, ee, o.children, |children|);
      assert o.children[..|children|] == o.children;
  }

  lemma {:induction false} SerialFinds(children: seq<Node>, es: Option<Flag>, os: seq<Oriented>, m: nat)
    requires m <= |children| == |os| && Consistent(OSerial(os))
    requires forall i :: 0 <= i < |children| ==> Assigns(children[i], os[i])
    requires if es.None? then ByDefault(os[0], None) else FlagsOf(os[0]).start == es.value
    ensures ResolveSerial(children, es, m) == Some(os[..m])
    decreases children, m
  {
    if m > 0 {
      SerialFinds(children, es, os, m - 1);
      assert os[..m] == os[..m - 1] + [os[m - 1]];
      if m == 1 {
        ResolveFinds(children[0], es, None, os[0]);
      } else {
        assert Joins(FlagsOf(os[m - 2]).end, FlagsOf(os[(m - 2) + 1]).start);
        FlagsOneWay(os[m - 2]);
        FlagsOneWay(os[m - 1]);
        ResolveFinds(children[m - 1], Some(Invert(FlagsOf(os[m - 2]).end)), None, os[m - 1]);
      }
    }
  }

  lemma {:induction false} ParallelFinds(children: seq<Node>, es: Option<Flag>, ee: Option<Flag>, os: seq<Oriented>,
                                         m: nat)
    requires m <= |children| == |os| && Consistent(OParallel(os))
    requires forall i :: 0 <= i < |children| ==> Assigns(children[i], os[i]) && (es.None? ==> ByDefault(os[i], ee))
    requires Fulfils(FlagsOf(os[0]), es, ee)
    ensures ResolveParallel(children, es, ee, m) == Some(os[..m])
    decreases children, m
  {
    if m > 0 {
      ParallelFinds(children, es, ee, os, m - 1);
      assert os[..m] == os[..m - 1] + [os[m - 1]];
      ResolveFinds(children[m - 1], es, ee, os[m - 1]);
    }
  }

  /** Whatever is expected, resolution of a container succeeds exactly when its stages can be oriented so
      that every serial edge joins a writer to a reader, parallel siblings agree and the boundary is as
      expected; the orientation found is then the only one. Only where no start is expected are the first
      propagators, too, bound to their default. */
  lemma ResolutionExact(node: Node, es: Option<Flag>, ee: Option<Flag>)
    requires node.Serial? || node.Parallel?
    ensures Resolve(node, es, ee).Some? <==> exists o :: Orientation(node, es, ee, o)
    ensures forall o :: Orientation(node, es, ee, o) <==> Resolve(node, es, ee) == Some(o)
  {
    if Resolve(node, es, ee).Some? {
      ResolveSound(node, es, ee);
      assert Orientation(node, es, ee, Resolve(node, es, ee).value);
    }
    forall o | Orientation(node, es, ee, o) ensures Resolve(node, es, ee) == Some(o) {
      ResolveFinds(node, es, ee, o);
    }
  }

  /** What inference accepts of any node: a fixed stage is not checked by itself, a propagator follows
      the expectation, a wrapper leaves it to its child, and a container is oriented. */
  ghost predicate Accepted(node: Node, es: Option<Flag>, ee: Option<Flag>, o: Oriented)
    decreases node
  {
    match node
    case Fixed(kind) => o == OFixed(kind)
    case EitherWay(pin) =>
      && o.OEitherWay? && (pin.Some? ==> pin.value == o.flow)
      && if es == None || es == Some(NEITHER) then ByDefault(o, ee)
         else es == Some(if o.flow.Forward? then READS else WRITES)
    case Wrapper(child) => o.OWrapper? && Accepted(child, es, ee, o.child)
    case Serial(_) => Orientation(node, es, ee, o)
    case Parallel(_) => Orientation(node, es, ee, o)
  }

  /** For every node, containers, wrappers and leaves, and every expectation. */
  lemma {:induction false} AcceptedExactly(node: Node, es: Option<Flag>, ee: Option<Flag>)
    ensures forall o :: Accepted(node, es, ee, o) <==> Resolve(node, es, ee) == Some(o)
    decreases node
  {
    match node
    case Fixed(_) =>
    case EitherWay(_) =>
    case Wrapper(child) => AcceptedExactly(child, es, ee);
    case Serial(_) => ResolutionExact(node, es, ee);
    case Parallel(_) => ResolutionExact(node, es, ee);
  }

  /** A task whose root is to write both its interfaces. */
  ghost predicate TaskAccepted(node: Node) {
    exists o :: Accepted(node, Some(WRITES), Some(WRITES), o)
  }

  lemma TaskAcceptedExactly(node: Node)
    ensures TaskAccepted(node) <==> Resolve(node, Some(WRITES), Some(WRITES)).Some?
    ensures forall o ::
              Accepted(node, Some(WRITES), Some(WRITES), o) <==> Resolve(node, Some(WRITES), Some(WRITES)) == Some(o)
  {
    AcceptedExactly(node, Some(WRITES), Some(WRITES));
  }

  // --- the edges that are recorded -----------------------------------------------------------------------

  /** An edge is recorded forward exactly where its left child writes what its right one reads, and
      backward exactly where the right one writes what the left one reads; one of the two holds. */
  lemma EdgesFollowFlow(os: seq<Oriented>, i: nat)
    requires Consistent(OSerial(os)) && i + 1 < |os|
    ensures EdgeAt(os, |os|, i) == Some(Forward) <==> FlagsOf(os[i]).end == WRITES && FlagsOf(os[i + 1]).start == READS
    ensures EdgeAt(os, |os|, i) == Some(Backward) <==> FlagsOf(os[i]).end == READS && FlagsOf(os[i + 1]).start == WRITES
    ensures EdgeAt(os, |os|, i).Some?
  {
    FlagsOneWay(os[i]);
    FlagsOneWay(os[i + 1]);
    assert Joins(FlagsOf(os[i]).end, FlagsOf(os[i + 1]).start);
  }

  // --- flow decomposition ------------------------------------------------------------------------------

  /** How many of these are generator-like, and how many connector-like. */
  function Generators(fs: seq<Flags>): nat {
    if fs == [] then 0
    else Generators(fs[..|fs| - 1]) + if fs[|fs| - 1] == Flags(WRITES, WRITES) then 1 else 0
  }

  function Connectors(fs: seq<Flags>): nat {
    if fs == [] then 0
    else Connectors(fs[..|fs| - 1]) + if fs[|fs| - 1] == Flags(READS, READS) then 1 else 0
  }

  /** The interfaces of a serial container's children that was resolved to write both ends. */
  ghost predicate ResolvedRow(fs: seq<Flags>) {
    && fs != [] && (forall i :: 0 <= i < |fs| ==> OneWay(fs[i].start) && OneWay(fs[i].end))
    && fs[0].start == WRITES && fs[|fs| - 1].end == WRITES
    && forall i :: 0 <= i < |fs| - 1 ==> Joins(fs[i].end, fs[i + 1].start)
  }

  function RowOf(os: seq<Oriented>): (fs: seq<Flags>)
    ensures |fs| == |os| && forall i :: 0 <= i < |fs| ==> fs[i] == FlagsOf(os[i])
  {
    seq(|os|, i requires 0 <= i < |os| => FlagsOf(os[i]))
  }

  /** Before each child, the generators lead the connectors by one when the flow there runs
      forward, and are level with them when it runs backward. */
  lemma {:induction false} Balance(fs: seq<Flags>, k: nat)
    requires ResolvedRow(fs) && k <= |fs|
    ensures Generators(fs[..k]) - Connectors(fs[..k]) == if k > 0 && fs[k - 1].end == WRITES then 1 else 0
  {
    if k > 0 {
      Balance(fs, k - 1);
      assert fs[..k][..k - 1] == fs[..k - 1];
      if k > 1 {
        assert Joins(fs[k - 2].end, fs[(k - 2) + 1].start);
      }
    }
  }

  /** At child `k` the generators before it lead the connectors by none or one; it is a generator or
      runs backward when they are level, and is a connector or runs forward when they lead. */
  ghost predicate FlowsAt(fs: seq<Flags>, k: nat)
    requires k < |fs|
  {
    var lead := Generators(fs[..k]) - Connectors(fs[..k]);
    && (lead == 0 || lead == 1)
    && (fs[k] == Flags(WRITES, WRITES) || fs[k] == Flags(WRITES, READS) <==> lead == 0)
    && (fs[k] == Flags(READS, READS) || fs[k] == Flags(READS, WRITES) <==> lead == 1)
  }

  lemma FlowAt(fs: seq<Flags>, k: nat)
    requires ResolvedRow(fs) && k < |fs|
    ensures FlowsAt(fs, k)
  {
    Balance(fs, k);
    assert OneWay(fs[k].start) && OneWay(fs[k].end);
    if k > 0 {
      assert Joins(fs[k - 1].end, fs[(k - 1) + 1].start);
    }
  }

  /** In a serial container resolved against the task's interface generator-like and
      connector-like children alternate, beginning and ending with a generator; a propagator
      runs forward exactly between a generator and the next connector, and backward exactly
      between a connector (or the start) and the next generator. */
  lemma FlowDecomposition(children: seq<Node>, o: Oriented)
    requires Resolve(Serial(children), Some(WRITES), Some(WRITES)) == Some(o)
    ensures var fs := RowOf(o.children);
      && Generators(fs) == Connectors(fs) + 1
      && forall k :: 0 <= k < |fs| ==> FlowsAt(fs, k)
  {
    ResolveSound(Serial(children), Some(WRITES), Some(WRITES));
    var fs := RowOf(o.children);
    forall i | 0 <= i < |fs| ensures OneWay(fs[i].start) && OneWay(fs[i].end) {
      FlagsOneWay(o.children[i]);
    }
    Balance(fs, |fs|);
    assert fs[..|fs|] == fs;
    forall k | 0 <= k < |fs| ensures FlowsAt(fs, k) {
      FlowAt(fs, k);
    }
  }

  /** The interface type of a stage that presents these flags. */
  function TypeOf(f: Flags): InterfaceType {
    if f.start.write then (if f.end.write then Generator else PropagatorBackward)
    else if f.end.write then PropagatorForward else Connecting
  }

  /** A task that resolves at the root is one the planner's requirements hold for. */
  lemma ResolvedTaskIsPlannable(children: seq<Node>, o: Oriented)
    requires Resolve(Serial(children), Some(WRITES), Some(WRITES)) == Some(o)
    ensures var kinds := seq(|o.children|, i requires 0 <= i < |o.children| => TypeOf(FlagsOf(o.children[i])));
      Resolved(kinds) && |kinds| == |children|
      && forall i :: 0 <= i < |kinds| ==> FlagsOf(o.children[i]) == Flags(kinds[i].Start(), kinds[i].End())
  {
    ResolveSound(Serial(children), Some(WRITES), Some(WRITES));
    forall i | 0 <= i < |o.children|
      ensures OneWay(FlagsOf(o.children[i]).start) && OneWay(FlagsOf(o.children[i]).end)
    {
      FlagsOneWay(o.children[i]);
    }
  }
}
