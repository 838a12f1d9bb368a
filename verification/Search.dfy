/** What a flat serial task searches for: the declarative meaning of its stages, and the
    lists of states and solutions the engine derives from it. */
module Search {
  import opened Interfaces
  import opened Chains

  /** The motion part of a successful solve. */
  datatype Motion = Motion(cost: Scalar, trajectory: seq<Waypoint>, ops: seq<SceneOp>, request: Request)

  /** A new state a stage decides to create, and how it got there. */
  datatype Draft = Draft(serial: nat, key: Key, motion: Motion)

  /** A flat serial task: resolved interface types and deterministic stage functions. A
      failed attempt is an absent draft. */
  datatype Problem = Problem(
    kinds: seq<InterfaceType>,
    generate: nat -> seq<Draft>,
    forward: (nat, InterfaceState) -> seq<Draft>,
    backward: (nat, InterfaceState) -> seq<Draft>,
    connect: (nat, InterfaceState, InterfaceState) -> Option<Motion>)

  function Made(i: nat, sides: Sides, d: Draft): InterfaceState {
    InterfaceState(i, d.serial, d.key, sides)
  }

  /** The container was resolved: it writes both its ends and every edge joins a writer to
      a reader. */
  ghost predicate Resolved(kinds: seq<InterfaceType>) {
    kinds != [] && Wired(kinds) && kinds[0].WritesStart() && kinds[|kinds| - 1].WritesEnd()
  }

  // --- the declarative meaning -----------------------------------------------------------------

  /** Stage `i` can go from `x` to `y`. */
  ghost predicate Step(p: Problem, i: nat, x: InterfaceState, y: InterfaceState)
    requires i < |p.kinds|
  {
    match p.kinds[i]
    case Generator => x == y && exists d :: d in p.generate(i) && x == Made(i, OnBoth, d)
    case PropagatorForward => exists d :: d in p.forward(i, x) && y == Made(i, AtEnd, d)
    case PropagatorBackward => exists d :: d in p.backward(i, y) && x == Made(i, AtStart, d)
    case Connecting => p.connect(i, x, y).Some?
  }

  /** A way through all the stages. */
  ghost predicate CompleteChain(p: Problem, xs: seq<InterfaceState>) {
    |xs| == |p.kinds| + 1 && forall i :: 0 <= i < |p.kinds| ==> Step(p, i, xs[i], xs[i + 1])
  }

  ghost predicate Solvable(p: Problem) {
    exists xs :: CompleteChain(p, xs)
  }

  // --- keyed lists -------------------------------------------------------------------------------

  predicate HasKey(xs: seq<InterfaceState>, k: Key) {
    exists x :: x in xs && x.key == k
  }

  /** A keyed push: a state whose key is present is ignored. */
  function Push(xs: seq<InterfaceState>, x: InterfaceState): seq<InterfaceState> {
    if HasKey(xs, x.key) then xs else xs + [x]
  }

  function PushAll(xs: seq<InterfaceState>, ys: seq<InterfaceState>): seq<InterfaceState> {
    if ys == [] then xs else Push(PushAll(xs, ys[..|ys| - 1]), ys[|ys| - 1])
  }

  predicate HasKeyPair(sols: seq<Solution>, k: (Key, Key)) {
    exists s :: s in sols && s.KeyPair() == k
  }

  /** Keyed emission: a solution whose key pair was emitted is ignored. */
  function EmitOnto(sols: seq<Solution>, work: seq<Solution>): seq<Solution> {
    if work == [] then sols
    else
      var before, s := EmitOnto(sols, work[..|work| - 1]), work[|work| - 1];
      if HasKeyPair(before, s.KeyPair()) then before else before + [s]
  }

  function StartsIn(work: seq<Solution>): (r: seq<InterfaceState>)
    ensures |r| == |work| && forall j :: 0 <= j < |r| ==> r[j] == work[j].start
  {
    seq(|work|, j requires 0 <= j < |work| => work[j].start)
  }

  function EndsIn(work: seq<Solution>): (r: seq<InterfaceState>)
    ensures |r| == |work| && forall j :: 0 <= j < |r| ==> r[j] == work[j].end
  {
    seq(|work|, j requires 0 <= j < |work| => work[j].end)
  }

  // --- what each stage produces --------------------------------------------------------------------

  function Spawned(i: nat, d: Draft): Solution {
    Solution(Made(i, OnBoth, d), Made(i, OnBoth, d), i, d.motion.cost, [], [], NoRequest, [])
  }

  function SentForward(i: nat, x: InterfaceState, d: Draft): Solution {
    Solution(x, Made(i, AtEnd, d), i, d.motion.cost, d.motion.trajectory, d.motion.ops, d.motion.request, [])
  }

  function SentBackward(i: nat, x: InterfaceState, d: Draft): Solution {
    Solution(Made(i, AtStart, d), x, i, d.motion.cost, d.motion.trajectory, [], d.motion.request, [])
  }

  function Connected(i: nat, s: InterfaceState, e: InterfaceState, m: Motion): Solution {
    Solution(s, e, i, m.cost, m.trajectory, [], m.request, [])
  }

  function SpawnAll(i: nat, ds: seq<Draft>): seq<Solution> {
    if ds == [] then [] else SpawnAll(i, ds[..|ds| - 1]) + [Spawned(i, ds[|ds| - 1])]
  }

  function ForwardEach(i: nat, x: InterfaceState, ds: seq<Draft>): seq<Solution> {
    if ds == [] then [] else ForwardEach(i, x, ds[..|ds| - 1]) + [SentForward(i, x, ds[|ds| - 1])]
  }

  function ForwardWork(p: Problem, i: nat, xs: seq<InterfaceState>): seq<Solution> {
    if xs == [] then []
    else ForwardWork(p, i, xs[..|xs| - 1]) + ForwardEach(i, xs[|xs| - 1], p.forward(i, xs[|xs| - 1]))
  }

  function BackwardEach(i: nat, x: InterfaceState, ds: seq<Draft>): seq<Solution> {
    if ds == [] then [] else BackwardEach(i, x, ds[..|ds| - 1]) + [SentBackward(i, x, ds[|ds| - 1])]
  }

  function BackwardWork(p: Problem, i: nat, xs: seq<InterfaceState>): seq<Solution> {
    if xs == [] then []
    else BackwardWork(p, i, xs[..|xs| - 1]) + BackwardEach(i, xs[|xs| - 1], p.backward(i, xs[|xs| - 1]))
  }

  function ConnectEach(p: Problem, i: nat, s: InterfaceState, es: seq<InterfaceState>): seq<Solution> {
    if es == [] then []
    else
      var e := es[|es| - 1];
      ConnectEach(p, i, s, es[..|es| - 1]) +
      match p.connect(i, s, e) case None => [] case Some(m) => [Connected(i, s, e, m)]
  }

  function ConnectWork(p: Problem, i: nat, ss: seq<InterfaceState>, es: seq<InterfaceState>): seq<Solution> {
    if ss == [] then []
    else ConnectWork(p, i, ss[..|ss| - 1], es) + ConnectEach(p, i, ss[|ss| - 1], es)
  }

  /** Everything stage `i` tries to emit when it computes on these pulls. */
  function Work(p: Problem, i: nat, ss: seq<InterfaceState>, es: seq<InterfaceState>): seq<Solution>
    requires i < |p.kinds|
  {
    match p.kinds[i]
    case Generator => SpawnAll(i, p.generate(i))
    case PropagatorForward => ForwardWork(p, i, ss)
    case PropagatorBackward => BackwardWork(p, i, es)
    case Connecting => ConnectWork(p, i, ss, es)
  }

  /** The states a run writes at the end of stage `i`, along the forward flow. */
  function EndsOf(p: Problem, i: nat): seq<InterfaceState>
    requires i < |p.kinds|
    decreases i
  {
    match p.kinds[i]
    case Generator => EndsIn(SpawnAll(i, p.generate(i)))
    case PropagatorForward => if i == 0 then [] else EndsIn(ForwardWork(p, i, PushAll([], EndsOf(p, i - 1))))
    case _ => []
  }

  /** The states a run writes at the start of stage `i`, along the backward flow. */
  function StartsOf(p: Problem, i: nat): seq<InterfaceState>
    requires i < |p.kinds|
    decreases |p.kinds| - i
  {
    match p.kinds[i]
    case Generator => StartsIn(SpawnAll(i, p.generate(i)))
    case PropagatorBackward =>
      if i == |p.kinds| - 1 then [] else StartsIn(BackwardWork(p, i, PushAll([], StartsOf(p, i + 1))))
    case _ => []
  }

  /** What a run delivers to the start, and to the end, of stage `i`. */
  function InStart(p: Problem, i: nat): seq<InterfaceState>
    requires i < |p.kinds|
  {
    if i == 0 || p.kinds[i].WritesStart() then [] else PushAll([], EndsOf(p, i - 1))
  }

  function InEnd(p: Problem, i: nat): seq<InterfaceState>
    requires i < |p.kinds|
  {
    if i == |p.kinds| - 1 || p.kinds[i].WritesEnd() then [] else PushAll([], StartsOf(p, i + 1))
  }

  /** What stage `i` emits in a run. */
  function Emissions(p: Problem, i: nat): seq<Solution>
    requires i < |p.kinds|
  {
    EmitOnto([], Work(p, i, InStart(p, i), InEnd(p, i)))
  }

  /** A key identifies a state among those written at one side of a stage. */
  ghost predicate KeysIdentify(xs: seq<InterfaceState>) {
    forall x, y :: x in xs && y in xs && x.key == y.key ==> x == y
  }

  ghost predicate DistinctKeys(p: Problem) {
    forall i :: 0 <= i < |p.kinds| ==> KeysIdentify(EndsOf(p, i)) && KeysIdentify(StartsOf(p, i))
  }
}
