/** The resolution cascade over a tree of stage objects that store their directions. */
module StageTree {
  import opened Interfaces
  import opened Resolution

  datatype Role =
    | FixedRole(kind: InterfaceType)
    | EitherWayRole(pin: Option<Direction>)
    | WrapperRole
    | SerialRole
    | ParallelRole

  class StageNode {
    const role: Role
    const children: seq<StageNode>
    /** This stage and all its descendants. */
    ghost const repr: set<StageNode>

    /** The direction resolved for a propagator that may run either way. */
    var flow: Option<Direction>
    /** The interface a wrapper or container took over from its boundary children. */
    var flags: Option<Flags>
    /** The direction a serial container found for each pair of neighbours. */
    var edges: seq<Option<Direction>>

    ghost predicate Valid()
      decreases repr
    {
      && this in repr
      && (forall c :: c in children ==> c.repr < repr && this !in c.repr && c.Valid())
      && (forall i, j :: 0 <= i < j < |children| ==> children[i].repr !! children[j].repr)
      && (role.FixedRole? || role.EitherWayRole? ==> children == [])
      && (role.WrapperRole? ==> |children| == 1)
    }

    constructor (role: Role, children: seq<StageNode>)
      requires forall c :: c in children ==> c.Valid()
      requires forall i, j :: 0 <= i < j < |children| ==> children[i].repr !! children[j].repr
      requires role.FixedRole? || role.EitherWayRole? ==> children == []
      requires role.WrapperRole? ==> |children| == 1
      ensures Valid() && this.role == role && this.children == children
      ensures flow == None && flags == None && edges == []
      ensures fresh(repr - (set i, o | 0 <= i < |children| && o in children[i].repr :: o))
    {
      this.role, this.children := role, children;
      flow, flags, edges := None, None, [];
      repr := {this} + set i, o | 0 <= i < |children| && o in children[i].repr :: o;
    }

    /** The tree below this stage. */
    ghost function Spec(): Node
      requires Valid()
      decreases repr, 1
    {
      match role
      case FixedRole(kind) => Fixed(kind)
      case EitherWayRole(pin) => EitherWay(pin)
      case WrapperRole => Wrapper(children[0].Spec())
      case SerialRole => Serial(Specs())
      case ParallelRole => Parallel(Specs())
    }

    ghost function Specs(): (r: seq<Node>)
      requires Valid()
      ensures |r| == |children|
      ensures forall i :: 0 <= i < |r| ==> children[i].Valid() && r[i] == children[i].Spec()
      decreases repr, 0
    {
      seq(|children|, i requires 0 <= i < |children| => children[i].Spec())
    }

    /** The edges among the first `m` children are recorded, and no others. */
    ghost predicate EdgesOf(os: seq<Oriented>, m: nat)
      requires m <= |os|
      reads `edges
    {
      |edges| == |children| - 1 && forall i :: 0 <= i < |edges| ==> edges[i] == EdgeAt(os, m, i)
    }

    /** The stages below have stored the directions and interfaces of `o`. */
    ghost predicate Settled(o: Oriented)
      requires Valid()
      reads repr
      decreases repr
    {
      match role
      case FixedRole(kind) => o == OFixed(kind)
      case EitherWayRole(pin) => o.OEitherWay? && flow == Some(o.flow)
      case WrapperRole => o.OWrapper? && flags == Some(FlagsOf(o)) && children[0].Settled(o.child)
      case SerialRole =>
        && o.OSerial? && flags == Some(FlagsOf(o)) && |o.children| == |children|
        && EdgesOf(o.children, |children|)
        && forall i :: 0 <= i < |children| ==> children[i].Settled(o.children[i])
      case ParallelRole =>
        && o.OParallel? && flags == Some(FlagsOf(o)) && |o.children| == |children|
        && forall i :: 0 <= i < |children| ==> children[i].Settled(o.children[i])
    }

    /** The interface this stage needs, once settled. */
    method RequiredFlags(ghost o: Oriented) returns (f: Flags)
      requires Valid() && Settled(o)
      ensures f == FlagsOf(o)
    {
      match role {
        case FixedRole(kind) => f := Flags(kind.Start(), kind.End());
        case EitherWayRole(_) => f := if flow == Some(Backward) then Flags(WRITES, READS) else Flags(READS, WRITES);
        case _ => f := flags.value;
      }
    }

    /** Infers and stores the directions below this stage; false when a stage refuses. */
    method ResolveNode(es: Option<Flag>, ee: Option<Flag>) returns (ok: bool, ghost o: Oriented)
      requires Valid()
      modifies repr
      ensures Resolve(Spec(), es, ee) == if ok then Some(o) else None
      ensures ok ==> Settled(o)
      decreases repr, 4
    {
      match role {
        case FixedRole(kind) =>
          ok, o := true, OFixed(kind);
        case EitherWayRole(pin) =>
          var f := FlowFor(es, ee);
          if f.None? || (pin.Some? && pin != f) {
            return false, OEitherWay(Forward);
          }
          flow := f;
          ok, o := true, OEitherWay(f.value);
        case WrapperRole =>
          ghost var below;
          ok, below := children[0].ResolveNode(es, ee);
          o := OWrapper(below);
          if ok {
            var f := children[0].RequiredFlags(below);
            flags := Some(f);
          }
        case SerialRole => ok, o := ResolveSerialNode(es, ee);
        case ParallelRole => ok, o := ResolveParallelNode(es, ee);
      }
    }

    /** Initialization of a task: its root, whatever it is, is to write both its interfaces. */
    method ResolveTask() returns (ok: bool)
      requires Valid()
      modifies repr
      ensures ok <==> TaskAccepted(Spec())
      ensures ok ==> exists o :: Accepted(Spec(), Some(WRITES), Some(WRITES), o) && Settled(o)
    {
      ghost var o;
      ok, o := ResolveNode(Some(WRITES), Some(WRITES));
      TaskAcceptedExactly(Spec());
    }

    method ResolveSerialNode(es: Option<Flag>, ee: Option<Flag>) returns (ok: bool, ghost o: Oriented)
      requires Valid() && role.SerialRole?
      modifies repr
      ensures Resolve(Spec(), es, ee) == if ok then Some(o) else None
      ensures ok ==> Settled(o)
      decreases repr, 3
    {
      if children == [] || (es.None? && ee.None?) {
        return false, OSerial([]);
      }
      ghost var os;
      ok, os := ResolveRow(es);
      o := OSerial(os);
      SerialResult(Specs(), es, ee);
      if ok {
        var f := StoreSerialFlags(os);
        ok := Fulfils(f, es, ee);
      }
    }

    ghost predicate ChildrenSettled(os: seq<Oriented>)
      requires Valid()
      reads repr - {this}
    {
      |os| == |children| && forall i :: 0 <= i < |children| ==> children[i].Settled(os[i])
    }

    method StoreSerialFlags(ghost os: seq<Oriented>) returns (f: Flags)
      requires Valid() && role.SerialRole? && children != [] && ChildrenSettled(os) && EdgesOf(os, |os|)
      modifies `flags
      ensures Settled(OSerial(os)) && f == FlagsOf(OSerial(os))
    {
      var first := children[0].RequiredFlags(os[0]);
      var last := children[|children| - 1].RequiredFlags(os[|os| - 1]);
      f := Flags(first.start, last.end);
      flags := Some(f);
    }

    method StoreParallelFlags(ghost os: seq<Oriented>) returns (f: Flags)
      requires Valid() && role.ParallelRole? && children != [] && ChildrenSettled(os)
      modifies `flags
      ensures Settled(OParallel(os)) && f == FlagsOf(OParallel(os))
    {
      f := children[0].RequiredFlags(os[0]);
      flags := Some(f);
    }

    method ResolveParallelNode(es: Option<Flag>, ee: Option<Flag>) returns (ok: bool, ghost o: Oriented)
      requires Valid() && role.ParallelRole?
      modifies repr
      ensures Resolve(Spec(), es, ee) == if ok then Some(o) else None
      ensures ok ==> Settled(o)
      decreases repr, 3
    {
      if children == [] || (es.None? && ee.None?) {
        return false, OParallel([]);
      }
      ghost var os;
      ok, os := ResolveSiblings(es, ee);
      o := OParallel(os);
      ParallelResult(Specs(), es, ee);
      if ok {
        var f := StoreParallelFlags(os);
        ok := Fulfils(f, es, ee);
      }
    }

    /** The first children have settled on `os`. */
    ghost predicate SettledTo(os: seq<Oriented>)
      requires Valid()
      reads repr - {this}
    {
      |os| <= |children| && forall j :: 0 <= j < |os| ==> children[j].Settled(os[j])
    }

    /** Child `i` resolves; those before it keep what they settled on. */
    method ResolveOne(i: nat, es: Option<Flag>, ee: Option<Flag>, ghost os: seq<Oriented>)
      returns (ok: bool, f: Flags, ghost next: Oriented)
      requires Valid() && i == |os| < |children| && SettledTo(os)
      modifies repr - {this}
      ensures Resolve(Specs()[i], es, ee) == if ok then Some(next) else None
      ensures ok ==> SettledTo(os + [next]) && f == FlagsOf(next)
      decreases repr, 0
    {
      var child := children[i];
      ok, next := child.ResolveNode(es, ee);
      f := Flags(WRITES, WRITES);
      if ok {
        f := child.RequiredFlags(next);
      }
    }

    /** The edge to the child that has just resolved, if it is not the first. */
    method RecordEdge(i: nat, previous: Flags, f: Flags, ghost os: seq<Oriented>, ghost next: Oriented)
      requires i == |os| < |children| == |edges| + 1 && EdgesOf(os, |os|) && f == FlagsOf(next)
      requires os != [] ==> previous == FlagsOf(os[|os| - 1])
      modifies `edges
      ensures EdgesOf(os + [next], i + 1)
      ensures i > 0 ==> edges[i - 1] == Some(if previous.end.write && f.start.read then Forward else Backward)
    {
      if i > 0 {
        edges := edges[i - 1 := Some(EdgeOf(previous.end, f.start))];
      }
    }

    /** Child `i` of a serial container, against what its predecessor presents. */
    method ResolveNext(i: nat, es: Option<Flag>, previous: Flags, ghost os: seq<Oriented>)
      returns (ok: bool, f: Flags, ghost next: Oriented)
      requires Valid() && role.SerialRole? && i == |os| < |children|
      requires ResolveSerial(Specs(), es, i) == Some(os) && SettledTo(os) && EdgesOf(os, i)
      requires i > 0 ==> previous == FlagsOf(os[i - 1])
      modifies `edges, repr - {this}
      ensures !ok ==> ResolveSerial(Specs(), es, |children|).None?
      ensures ok ==> ResolveSerial(Specs(), es, i + 1) == Some(os + [next]) && f == FlagsOf(next)
      ensures ok ==> SettledTo(os + [next]) && EdgesOf(os + [next], i + 1)
      decreases repr, 1
    {
      ok, f, next := ResolveOne(i, if i == 0 then es else Some(Invert(previous.end)), None, os);
      SerialNext(Specs(), es, os, previous, ok, f, next);
      if i > 0 && !Joins(previous.end, f.start) {
        ok := false;
      }
      if ok {
        RecordEdge(i, previous, f, os, next);
      }
    }

    /** The children of a serial container, one after the other. */
    method ResolveRow(es: Option<Flag>) returns (ok: bool, ghost os: seq<Oriented>)
      requires Valid() && role.SerialRole? && children != []
      modifies `edges, repr - {this}
      ensures ResolveSerial(Specs(), es, |children|) == if ok then Some(os) else None
      ensures ok ==> |os| == |children| && SettledTo(os) && EdgesOf(os, |os|)
      decreases repr, 2
    {
      os := [];
      edges := seq(|children| - 1, _ => None);
      var previous := Flags(WRITES, WRITES);
      for i := 0 to |children|
        invariant |os| == i && ResolveSerial(Specs(), es, i) == Some(os) && SettledTo(os) && EdgesOf(os, i)
        invariant i > 0 ==> previous == FlagsOf(os[i - 1])
      {
        ghost var next;
        ok, previous, next := ResolveNext(i, es, previous, os);
        if !ok {
          return false, os;
        }
        os := os + [next];
      }
      ok := true;
    }

    /** The children of a parallel container, all against the container's expectation. */
    method ResolveSiblings(es: Option<Flag>, ee: Option<Flag>) returns (ok: bool, ghost os: seq<Oriented>)
      requires Valid() && children != []
      modifies repr - {this}
      ensures ResolveParallel(Specs(), es, ee, |children|) == if ok then Some(os) else None
      ensures ok ==> |os| == |children| && SettledTo(os)
      decreases repr, 2
    {
      os := [];
      ghost var specs := Specs();
      var reference := Flags(WRITES, WRITES);
      for i := 0 to |children|
        invariant |os| == i && ResolveParallel(specs, es, ee, i) == Some(os) && SettledTo(os)
        invariant i > 0 ==> reference == FlagsOf(os[0])
      {
        var f;
        ghost var next;
        ok, f, next := ResolveOne(i, es, ee, os);
        ParallelNext(specs, es, ee, os, reference, ok, f, next);
        if !ok || (i > 0 && f != reference) {
          return false, os;
        }
        if i == 0 {
          reference := f;
        }
        os := os + [next];
      }
      ok := true;
    }
  }

  /** One more child of a serial container: the cascade goes on with it, or has failed for good. */
  lemma SerialNext(children: seq<Node>, es: Option<Flag>, os: seq<Oriented>, previous: Flags,
                   ok: bool, f: Flags, next: Oriented)
    requires |os| < |children| && ResolveSerial(children, es, |os|) == Some(os)
    requires os != [] ==> previous == FlagsOf(os[|os| - 1])
    requires Resolve(children[|os|], if os == [] then es else Some(Invert(previous.end)), None)
             == if ok then Some(next) else None
    requires ok ==> f == FlagsOf(next)
    ensures if !ok || (os != [] && !Joins(previous.end, f.start)) then ResolveSerial(children, es, |children|).None?
            else ResolveSerial(children, es, |os| + 1) == Some(os + [next])
  {
    if !ok || (os != [] && !Joins(previous.end, f.start)) {
      SerialStuck(children, es, |os| + 1, |children|);
    }
  }

  /** One more child of a parallel container. */
  lemma ParallelNext(children: seq<Node>, es: Option<Flag>, ee: Option<Flag>, os: seq<Oriented>, reference: Flags,
                     ok: bool, f: Flags, next: Oriented)
    requires |os| < |children| && ResolveParallel(children, es, ee, |os|) == Some(os)
    requires os != [] ==> reference == FlagsOf(os[0])
    requires Resolve(children[|os|], es, ee) == if ok then Some(next) else None
    requires ok ==> f == FlagsOf(next)
    ensures if !ok || (os != [] && f != reference) then ResolveParallel(children, es, ee, |children|).None?
            else ResolveParallel(children, es, ee, |os| + 1) == Some(os + [next])
  {
    if !ok || (os != [] && f != reference) {
      ParallelStuck(children, es, ee, |os| + 1, |children|);
    }
  }

  /** A container's result, given that of its children. */
  lemma SerialResult(children: seq<Node>, es: Option<Flag>, ee: Option<Flag>)
    requires children != [] && (es.Some? || ee.Some?)
    ensures var r := ResolveSerial(children, es, |children|);
      Resolve(Serial(children), es, ee) ==
        if r.None? || !Fulfils(FlagsOf(OSerial(r.value)), es, ee) then None else Some(OSerial(r.value))
  {
  }

  lemma ParallelResult(children: seq<Node>, es: Option<Flag>, ee: Option<Flag>)
    requires children != [] && (es.Some? || ee.Some?)
    ensures var r := ResolveParallel(children, es, ee, |children|);
      Resolve(Parallel(children), es, ee) ==
        if r.None? || !Fulfils(FlagsOf(OParallel(r.value)), es, ee) then None else Some(OParallel(r.value))
  {
  }

  /** A cascade that has failed stays failed. */
  lemma {:induction false} SerialStuck(children: seq<Node>, es: Option<Flag>, k: nat, m: nat)
    requires k <= m <= |children| && ResolveSerial(children, es, k).None?
    ensures ResolveSerial(children, es, m).None?
  {
    if k < m {
      SerialStuck(children, es, k, m - 1);
    }
  }

  lemma {:induction false} ParallelStuck(children: seq<Node>, es: Option<Flag>, ee: Option<Flag>, k: nat, m: nat)
    requires k <= m <= |children| && ResolveParallel(children, es, ee, k).None?
    ensures ResolveParallel(children, es, ee, m).None?
  {
    if k < m {
      ParallelStuck(children, es, ee, k, m - 1);
    }
  }

  /** Once a serial stage is settled its stored edges run with the flow of its children. */
  lemma StoredEdges(stage: StageNode, os: seq<Oriented>, i: nat)
    requires stage.Valid() && stage.role.SerialRole? && stage.Settled(OSerial(os)) && Consistent(OSerial(os))
    requires i + 1 < |stage.children|
    ensures stage.edges[i] == Some(Forward) <==> FlagsOf(os[i]).end == WRITES && FlagsOf(os[i + 1]).start == READS
    ensures stage.edges[i] == Some(Backward) <==> FlagsOf(os[i]).end == READS && FlagsOf(os[i + 1]).start == WRITES
  {
    EdgesFollowFlow(os, i);
  }
}
