/** The values that flow between stages: interface flags, states and solutions. */
module Interfaces {

  datatype Option<+T> = None | Some(value: T)

  /** What a stage does with one of its two interfaces. */
  datatype Flag = Flag(read: bool, write: bool)

  const READS := Flag(true, false)
  const WRITES := Flag(false, true)

  /** The four fixed interface types, each a pair of flags (start, end). */
  datatype InterfaceType = Generator | PropagatorForward | PropagatorBackward | Connecting {
    function Start(): Flag {
      if Generator? || PropagatorBackward? then WRITES else READS
    }

    function End(): Flag {
      if Generator? || PropagatorForward? then WRITES else READS
    }

    predicate WritesStart() { Start().write }

    predicate WritesEnd() { End().write }
  }

  datatype Direction = Forward | Backward

  /** A semantic key: two states with equal keys are deduplicated against each other. */
  type Key = nat

  /** Costs and joint positions; rounding is not modelled. */
  type Scalar = real

  /** The interfaces its creator shows a state on. */
  datatype Sides = AtStart | AtEnd | OnBoth

  /** A state object. Its identity is the child that created it (`writer`; -1 and the
      number of children stand for the neighbours outside the container) together with
      the serial number and key the creator gave it, and the interfaces it is for. */
  datatype InterfaceState = InterfaceState(writer: int, serial: nat, key: Key, sides: Sides)

  /** A waypoint is the list of its joint positions. */
  type Waypoint = seq<Scalar>

  /** An operation a solution materializes on the server before its motion. */
  datatype SceneOp =
    | AddOp(name: string, spec: nat)
    | RemoveOp(name: string)
    | AttachOp(name: string)
    | DetachOp(name: string)

  /** The plan request a solution re-solves and drives at execution time, if any. */
  datatype Request = NoRequest | Request(id: nat)

  /** A trajectory segment, or a zero-length mutation when the trajectory is empty.
      `stage` is the position of the emitting stage among its siblings. A solution
      without children is a leaf; a composed one keeps the solutions it chains. */
  datatype Solution = Solution(
    start: InterfaceState,
    end: InterfaceState,
    stage: int,
    cost: Scalar,
    trajectory: seq<Waypoint>,
    ops: seq<SceneOp>,
    request: Request,
    children: seq<Solution>)
  {
    function KeyPair(): (Key, Key) { (start.key, end.key) }
  }
}
