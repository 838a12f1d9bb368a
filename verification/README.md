# Verification of the task constructor and the scene mirror

This project models the planning engine of `curobo_task_constructor` and the forward scene mirror of
`isaac_ros_cumotion_moveit` in Dafny and proves what they are for.

A task is a tree of stages. Generators write states to both their interfaces, propagators read one side
and write the other, connectors read both. Containers decide the direction of flow, move states through
keyed pull queues, and compose the solutions of their children. The executor flattens the winning solution
and replays it. Graphs travel as flat lists of messages with parent ids. The scene mirror keeps three
client-side records so that only changed objects are sent to the planning server.

Objects that the source updates in place are classes here, and loops are loops; each method is proved
against a specification function, and the properties are proved about those functions.

- `Interfaces`, `Chains`, `ChainLemmas`, `Composition`, `SkippedChildren`, `Composer`, `Nesting`: online
  composition of child solutions, and a serial container as a child of another.
- `Firsts`: lists that keep the first of each key. `Solutions`: trajectory concatenation, lifting, flattening.
- `Search`, `SearchLemmas`, `Network`, `CarriedKeys`, `Stages`, `Planner`, `KeyCollision`: planning in a flat
  serial root.
- `Resolution`, `StageTree`, `EdgeFlow`: inference of directions, and the edges it records.
- `Wire`, `Builder`: message lists, spec trees, stage trees.
- `Names`, `Mirror`, `MirrorSafety`, `MirrorAgreement`, `MirrorRebuild`, `MirrorRuns`, `SceneContents`,
  `LeftObjects`, `MirrorHealing`, `ServiceClients`: the scene mirror.
- `SceneDiffs`, `Replay`, `Executor`, `Skipping`, `ModifyScenes`: scene diffs, materialization, playback.
- `Attempts`, `FallbackOutputs`, `FallbackContainers`: fallbacks over arbitrary children.
- `Batches`, `BatchRuns`, `AlternativeResults`, `AlternativesContainers`: batched and sequential alternatives.
- `Candidates`, `WrappedGenerators`, `ComputeIkStages`: the inverse-kinematics wrapper.

A state is identified by the child that created it and a serial number, carries a semantic key, and records on
which sides its child shows it. Costs and joint positions are reals. A stage's solver is an arbitrary function; in
`Attempts` a child may depend on everything that ever happened to it. A service call may be answered, not carried
out, or carried out with its reply lost, in any pattern.

## Where the code does less than its comments say

- `_traces` (core/container.py:386-402) returns paths that skip a child exactly when a full one has a
  zero-length member before the far end (`SkippedChildren.SkipsExactly`). A task with a second generator is
  enough (`SkippedChildren.SecondGeneratorSkipped`). `Composition.KeptChainsAreFull` shows that no such chain
  is kept.
- Planning finds a way through the task only if deduplication leaves one. With distinct keys, or keys that
  carry through the stages (`CarriedKeys.CarriedKeysSurvive`), it always does;
  `KeyCollision.EqualKeysHideAWay` is a solvable task on which it does not.
- Concatenation of trajectories (core/container.py:80-91) is associative only where the tolerance is
  transitive (`Solutions.JoinAssociativeExactly`, `Solutions.NestingCanShow`).
- A batched alternatives container does not pass on the states its batch writes, unless their keys are
  there already (`Batches.BatchedEndsAreLost`, `BatchRuns.SameKeysExactly`).
- `ComputeIK` at its limit (stages/compute_ik.py:77-87) and a fallbacks container with a winner or with no
  child left (core/container.py:542-570) leave descendants that can compute and never will
  (`Candidates.StallsExactly`, `Attempts.SiblingWaitsExactly`, `Attempts.GivenUpWaitsExactly`); a start that
  reaches a fallbacks container after it has moved past a child is fed to that child and never tried
  (`Attempts.LateStartWaits`).
- The executor drops a repeated operation (executor.py:191-194): a second pick of the same object is skipped
  (`Executor.SecondPickIsSkipped`); `Skipping.SkippingHarmlessExactly` says when that does no harm.
- `ops_to_materialize` (core/state.py:125-140) loses an addition followed by an attachment, and on a server that
  refuses duplicate names also replacements (`Replay.MaterializesExactly`), and shows only the last hold
  (`Replay.MaterializesWorldsExactly`).
- The scene mirror leaves objects behind when an id loses shapes, changes between one and several, or is
  attached and not dropped afterwards (`MirrorRuns.AgreementExactly`, `MirrorRuns.AgreementByCounts`,
  `LeftObjects.SecondShapeLeft`), can lose track when an id looks like a member name of another
  (`MirrorSafety.MembersRecordedExactly`), and after failing calls shows the whole scene again only when no
  unrecorded object blocks one of its names (`MirrorHealing.HealsExactly`).

## Model

| member | source | states |
|---|---|---|
| `ChainLemmas.TracesSound` | `curobo_task_constructor/curobo_task_constructor/core/container.py:386-409` | every path the recursive search returns threads through the given state, is linked, rises in index order from end to end and stays within the range |
| `ChainLemmas.TracesComplete` | `curobo_task_constructor/curobo_task_constructor/core/container.py:386-409` | every linked path over exactly the children of the range that threads through the state is returned |
| `ChainLemmas.TracesNoDup` | `curobo_task_constructor/curobo_task_constructor/core/container.py:386-409` | no path is returned twice |
| `ChainLemmas.SkipHasBridge` | `curobo_task_constructor/curobo_task_constructor/core/container.py:400-408` | when the weak index guard lets a path skip the neighbouring child, that child is a generator with a zero-length solution at the same state, and it was indexed before the solution used instead |
| `ChainLemmas.TracesDominated` | `curobo_task_constructor/curobo_task_constructor/core/container.py:386-409` | each path with a skipped child is preceded in the result by a full path with the same far state |
| `SkippedChildren.TracesExactly` | `curobo_task_constructor/curobo_task_constructor/core/container.py:386-409` | the recursive search returns exactly the linked paths in index order that thread through the given state, stay in the range and reach its far end |
| `SkippedChildren.SkipsExactly` | `curobo_task_constructor/curobo_task_constructor/core/container.py:386-409` | for the search a new arrival starts it returns a path that misses a child of the range iff it also returns a full one with a zero-length member before the far end |
| `SkippedChildren.OffersSkipExactly` | `curobo_task_constructor/curobo_task_constructor/core/container.py:373-409` | an arrival hands over a chain that misses a child iff it also hands over a full one with a zero-length member between its ends besides the arrival itself |
| `SkippedChildren.SecondGeneratorSkipped` | `curobo_task_constructor/curobo_task_constructor/core/container.py:386-409` | an ordinary task shape, generator, connector, generator, propagator: the chain that misses the second generator is found and handed over, and not kept |
| `Composition.OfferedOnce` | `curobo_task_constructor/curobo_task_constructor/core/container.py:373-384` | whatever distinct solutions arrive, in whatever order, no chain is handed to lifting twice, and each is linked and spans the container |
| `Composition.FullChainsOffered` | `curobo_task_constructor/curobo_task_constructor/core/container.py:373-384` | whatever arrives, every full chain (one linked solution per child) is handed over |
| `Composition.OfferedWhenComplete` | `curobo_task_constructor/curobo_task_constructor/core/container.py:373-384` | whatever arrives, a full chain is handed over exactly at the arrival of its last member |
| `Composition.OfferedFullFirst` | `curobo_task_constructor/curobo_task_constructor/core/container.py:386-409` | in the order of handing over, every chain is or is preceded by a full chain with the same end keys |
| `Composition.KeptChainsAreFull` | `curobo_task_constructor/curobo_task_constructor/core/container.py:411-425` | every chain the container keeps after deduplication is a full chain of the run |
| `Composition.FullChainsAreRepresented` | `curobo_task_constructor/curobo_task_constructor/core/container.py:411-425` | whatever arrives, for every full chain exactly one kept chain has its end keys |
| `Composition.KeptFirsts` | `curobo_task_constructor/curobo_task_constructor/core/container.py:411-425` | of all the chains handed over the container keeps the first of each pair of end keys, in order |
| `Composer.ChainComposer.FindPaths` | `curobo_task_constructor/curobo_task_constructor/core/container.py:386-409` | the recursive table search returns the paths of the specification in its order |
| `Composer.ChainComposer.OnChildSolution` | `curobo_task_constructor/curobo_task_constructor/core/container.py:373-384` | indexing and composing one arrival keeps the container exactly at what the run so far offers after deduplication |
| `Composer.ChainComposer.Lift` | `curobo_task_constructor/curobo_task_constructor/core/container.py:411-425` | a chain adds one solution unless its key pair was emitted |
| `Composer.ComposedExactly` | `curobo_task_constructor/curobo_task_constructor/core/container.py:373-425` | at any time the held solutions are lifts of full chains, and each full chain's end keys are those of a held solution |
| `Composer.HeldAddsUp` | `curobo_task_constructor/curobo_task_constructor/core/container.py:411-425` | where the arrivals are built from leaves, each solution the container holds is, and its cost, operations, ends and shared states are those of its leaves; it is at the container's place and has no request of its own |
| `Nesting.NestedDiscipline` | `curobo_task_constructor/curobo_task_constructor/core/container.py:321-425` | what a nested serial container emits meets what its parent assumes of a child: no two emissions share their keys, and where one starts in the end of another both are zero-length and the container has one child |
| `Nesting.SingleChildEmitsAtOnce` | `curobo_task_constructor/curobo_task_constructor/core/container.py:373-384` | a container with one child emits each of its solutions the moment it arrives, so a state shown on both sides is published before it can be read |
| `Nesting.LateWriterCompletes` | `curobo_task_constructor/curobo_task_constructor/core/container.py:335-370` | a child that reads the end of a nested container before that container has composed: the late solution completes the one kept chain |
| `Solutions.ConcatTrajectories` | `curobo_task_constructor/curobo_task_constructor/core/container.py:80-91` | the loop over the segments computes the left-to-right join |
| `Solutions.JoinAssociativeExactly` | `curobo_task_constructor/curobo_task_constructor/core/container.py:80-91` | joining is associative exactly unless a single waypoint blurs into the end of the first segment while the two disagree about the third |
| `Solutions.JoinAssociative` | `curobo_task_constructor/curobo_task_constructor/core/container.py:80-91` | joining is associative where the joint tolerance is transitive, in particular for exact equality |
| `Solutions.ConcatSplit` | `curobo_task_constructor/curobo_task_constructor/core/container.py:80-91` | concatenating a split list is joining the concatenations |
| `Solutions.OneDropPerJunction` | `curobo_task_constructor/curobo_task_constructor/core/container.py:80-91` | the length is the sum of the lengths less one per matching junction; empty segments do not count |
| `Solutions.NestingCanShow` | `curobo_task_constructor/curobo_task_constructor/core/container.py:74-91` | three waypoints, each within tolerance of the next, for which nesting changes the result |
| `Solutions.LiftChildKeeps` | `curobo_task_constructor/curobo_task_constructor/core/container.py:473-480` | lifting a child's solution changes nothing but the place and the children |
| `Solutions.JoinExactly` | `curobo_task_constructor/curobo_task_constructor/core/container.py:74-91` | a junction keeps both waypoints exactly when they differ in length or by 1e-9 or more in some joint, and otherwise drops just the later one |
| `Solutions.FlattenLeaves` | `curobo_task_constructor/curobo_task_constructor/executor.py:162-174` | the depth-first walk returns the leaves in order |
| `Solutions.FlattenAddsUp` | `curobo_task_constructor/curobo_task_constructor/core/container.py:411-425` | at any depth cost is the sum of the leaf costs, the operations are the leaves' in order, start and end are the first and last leaf's, and consecutive leaves share a state |
| `Solutions.FlattenTrajectory` | `curobo_task_constructor/curobo_task_constructor/core/container.py:80-91` | at any depth the trajectory is the concatenation of the leaves' trajectories (where the tolerance is transitive) |
| `SearchLemmas.PushAllKeepsDistinct` | `curobo_task_constructor/curobo_task_constructor/core/stage.py:232-242` | among states identified by their keys, keyed pushing loses none |
| `SearchLemmas.PushAllMember` | `curobo_task_constructor/curobo_task_constructor/core/stage.py:232-242` | only pushed states are in a pull |
| `SearchLemmas.PushedEndsEmitted` | `curobo_task_constructor/curobo_task_constructor/core/stage.py:256-291` | pushing the written ends of all work equals pushing the ends of what was emitted of it: the keyed dedup of pulls and of solutions agree |
| `SearchLemmas.WorkSteps` | `curobo_task_constructor/curobo_task_constructor/core/stage.py:350-403` | every solution a computing stage makes is a step of the declarative semantics |
| `SearchLemmas.StepsWork` | `curobo_task_constructor/curobo_task_constructor/core/stage.py:350-403` | every step of the declarative semantics between delivered states is made |
| `SearchLemmas.WorkCarries` | `curobo_task_constructor/curobo_task_constructor/core/stage.py:275-300` | whatever a stage makes says what its solver said: forward the new state, cost, waypoints, operations and request of some draft, backward and connecting the same without operations, a generator the cost alone |
| `SearchLemmas.ForwardInOrder` | `curobo_task_constructor/curobo_task_constructor/core/stage.py:379-382` | a forward stage takes the states as delivered and, for each, the drafts in the solver's order |
| `SearchLemmas.BackwardInOrder` | `curobo_task_constructor/curobo_task_constructor/core/stage.py:397-400` | a backward stage does the same |
| `SearchLemmas.ConnectInOrder` | `curobo_task_constructor/curobo_task_constructor/stages/connect.py:22-27` | a connector takes one start after the other and, for each, the ends as delivered, keeping the pairs that connect |
| `SearchLemmas.PushedFirsts` | `curobo_task_constructor/curobo_task_constructor/core/stage.py:232-242` | a pull is, of everything pushed, the first state of each key, in order |
| `SearchLemmas.EmittedFirsts` | `curobo_task_constructor/curobo_task_constructor/core/stage.py:256-266` | a stage's solutions are, of everything it makes, the first of each key pair, in order |
| `Stages.Stage.Emit` | `curobo_task_constructor/curobo_task_constructor/core/stage.py:256-266` | a solution is kept unless its key pair was emitted |
| `Stages.Stage.Generate` | `curobo_task_constructor/curobo_task_constructor/core/stage.py:275-281` | a generator spawns one zero-length solution per draft and writes both interfaces |
| `Stages.Stage.ComputeForward` | `curobo_task_constructor/curobo_task_constructor/core/stage.py:283-291` | a forward stage emits one solution per draft and writes the end interface |
| `Stages.Stage.ComputeBackward` | `curobo_task_constructor/curobo_task_constructor/core/stage.py:293-300` | a backward stage emits one solution per draft and writes the start interface |
| `Stages.Stage.ConnectPairs` | `curobo_task_constructor/curobo_task_constructor/stages/connect.py:22-52` | both pulls are swapped out and every pair is attempted once, in nested order |
| `Stages.Stage.RunCompute` | `curobo_task_constructor/curobo_task_constructor/core/stage.py:355-382` | one computation consumes the pulls and leaves exactly the specified state, for all four kinds of stage |
| `Network.StepIsCanonical` | `curobo_task_constructor/curobo_task_constructor/core/container.py:335-370` | whatever computable stage runs next, it had not run before, and the network moves to the state in which it, too, has run |
| `Network.DistinctKeysSurvive` | `curobo_task_constructor/curobo_task_constructor/core/stage.py:232-266` | where keys identify states, deduplication loses no way through the task: solvable iff some way survives |
| `Network.SurvivorSolves` | `curobo_task_constructor/curobo_task_constructor/core/container.py:355-370` | every surviving way is a way through the task in the declarative semantics |
| `Network.QuiescenceFinds` | `curobo_task_constructor/curobo_task_constructor/core/container.py:335-370` | when nothing can compute, every surviving way has arrived as a full chain |
| `Network.ConnectorCoverage` | `curobo_task_constructor/curobo_task_constructor/stages/connect.py:22-27` | run to quiescence a connector has attempted exactly the product of what was delivered on its two sides |
| `Network.ProductExactly` | `curobo_task_constructor/curobo_task_constructor/stages/connect.py:25-27` | that product holds each pair of key-distinct states exactly once |
| `Network.ProductInOrder` | `curobo_task_constructor/curobo_task_constructor/stages/connect.py:25-27` | and goes through the starts in order and, for each, through the ends in order |
| `Network.PushAllDistinct` | `curobo_task_constructor/curobo_task_constructor/core/stage.py:232-242` | a pull never holds two states with one key |
| `CarriedKeys.CarriedKeysSurvive` | `curobo_task_constructor/curobo_task_constructor/core/stage.py:232-266` | keys need not identify states: where stages take states of one key to the same keys, states of two keys to no common one (needed only where something lies behind the source of the flow), and connect by key, the task is solvable iff some way survives deduplication |
| `Planner.ScheduleIsCanonical` | `curobo_task_constructor/curobo_task_constructor/executor.py:125-136` | in whatever order children compute, the state depends only on which have, and no child computes twice |
| `Planner.ScheduleBound` | `curobo_task_constructor/curobo_task_constructor/executor.py:125-136` | no schedule is longer than the number of children |
| `Planner.PassProgress` | `curobo_task_constructor/curobo_task_constructor/core/container.py:335-339` | a pass runs some new child whenever one can compute |
| `Planner.ExhaustedSolves` | `curobo_task_constructor/curobo_task_constructor/executor.py:126-136` | when nothing can compute and a way survives, the container has a solution |
| `Planner.SolutionSurvives` | `curobo_task_constructor/curobo_task_constructor/executor.py:123-136` | a container with a solution has a surviving way, so the task is solvable |
| `Planner.RootAddsUp` | `curobo_task_constructor/curobo_task_constructor/executor.py:103-136` | at any time every solution the root holds adds up from its leaves: costs, operations in order, ends, and a state shared by each two neighbours |
| `Planner.RootCarries` | `curobo_task_constructor/curobo_task_constructor/executor.py:103-136` | the leaves of every solution the root holds are one per child, each says what that child's solver said, and the solution's trajectory is their concatenation |
| `Planner.ExhaustedCovers` | `curobo_task_constructor/curobo_task_constructor/stages/connect.py:22-27` | at the end of planning each connector has attempted exactly its product |
| `Planner.SerialRoot.PropagateOutputs` | `curobo_task_constructor/curobo_task_constructor/core/container.py:355-370` | one child's written states reach exactly the neighbours its edges name |
| `Planner.SerialRoot.Compute` | `curobo_task_constructor/curobo_task_constructor/core/container.py:321-339` | a pass runs children in order, each that can compute, and composes as they emit; a solved root does nothing |
| `Planner.SerialRoot.Plan` | `curobo_task_constructor/curobo_task_constructor/executor.py:103-136` | plan() stops within n iterations and within the given limit, each child runs at most once; it gives up below the limit only when nothing can compute, and without a limit it returns true iff a way survives deduplication, which for distinct or carried keys means iff the task is solvable |
| `KeyCollision.EqualKeysHideAWay` | `curobo_task_constructor/curobo_task_constructor/core/stage.py:232-266` | a solvable task with two states of equal keys on which planning fails |
| `Resolution.ResolveSound` | `curobo_task_constructor/curobo_task_constructor/core/container.py:285-318` | a successful resolution is a consistent assignment of directions |
| `Resolution.ResolveFinds` | `curobo_task_constructor/curobo_task_constructor/core/container.py:285-318` | every consistent assignment that meets the expectation is the one resolution finds |
| `Resolution.ResolutionExact` | `curobo_task_constructor/curobo_task_constructor/core/stage.py:436-467` | on any nesting and whatever is expected: resolution succeeds iff a consistent assignment exists that meets the expectation, finds one, and there is no other; where no start is expected the first propagators are bound to their default |
| `Resolution.AcceptedExactly` | `curobo_task_constructor/curobo_task_constructor/core/stage.py:436-467` | for every node and every expectation, leaves and wrappers included: resolution returns exactly the orientation that is accepted there |
| `Resolution.Balance` | `curobo_task_constructor/curobo_task_constructor/core/container.py:64-71` | before each child the generators lead the connectors by one or are level, according to the direction of flow there |
| `Resolution.FlowDecomposition` | `curobo_task_constructor/curobo_task_constructor/core/container.py:285-318` | in a container resolved to write both ends generator-like and connector-like children alternate, one more generator than connectors, propagators run forward after a generator and backward before one |
| `Resolution.ResolvedTaskIsPlannable` | `curobo_task_constructor/curobo_task_constructor/core/container.py:285-318` | a resolved serial root of leaf stages meets what planning assumes of its interfaces |
| `Resolution.EdgesFollowFlow` | `curobo_task_constructor/curobo_task_constructor/core/container.py:301-318` | in a consistent row an edge is recorded forward exactly where the left child writes what the right one reads, and backward exactly where the right one writes what the left one reads |
| `EdgeFlow.ResolvedPropagates` | `curobo_task_constructor/curobo_task_constructor/core/container.py:355-370` | in a task that resolves at a serial root, what a child has written goes on exactly along the recorded edges: ends to the next child along a forward one, starts to the previous one along a backward one |
| `StageTree.StageNode.ResolveNode` | `curobo_task_constructor/curobo_task_constructor/core/stage.py:436-456` | the mutating cascade succeeds iff the specification does and stores its directions, flags and edge directions in the objects |
| `StageTree.StageNode.ResolveRow` | `curobo_task_constructor/curobo_task_constructor/core/container.py:288-299` | serial cascade: each child against the inverse of its predecessor, stopping at the first refusal, recording the direction of each edge |
| `StageTree.StageNode.ResolveSiblings` | `curobo_task_constructor/curobo_task_constructor/core/container.py:433-446` | parallel cascade: every child against the same expectation, all must agree |
| `StageTree.StageNode.RecordEdge` | `curobo_task_constructor/curobo_task_constructor/core/container.py:304-318` | an edge runs forward where the left child writes and the right one reads, else backward |
| `StageTree.StoredEdges` | `curobo_task_constructor/curobo_task_constructor/core/container.py:301-318` | once a serial stage is resolved its stored edges run with the flow of its children |
| `StageTree.StageNode.ResolveTask` | `curobo_task_constructor/curobo_task_constructor/executor.py:77-78` | initialization accepts a root of any kind iff an orientation is accepted for writing both ends, and stores it |
| `Wire.FromMsgList` | `curobo_task_constructor/curobo_task_constructor/graph/spec.py:64-102` | a list is accepted iff ids are unique, the first element is the sole root with id 0 and every other parent precedes its child; the tree is the one its parents describe, and an error names the first message at fault and its fault, or what is wrong with the root |
| `Wire.ToMsgList` | `curobo_task_constructor/curobo_task_constructor/graph/spec.py:104-134` | the recursive visit appends the messages of the specification |
| `Wire.PreorderOfTree` | `curobo_task_constructor/curobo_task_constructor/graph/spec.py:64-102` | the tree's nodes in pre-order are the messages at the tree's positions |
| `Wire.EveryMessageOnce` | `curobo_task_constructor/curobo_task_constructor/graph/spec.py:64-102` | each message of an accepted list is in the tree exactly once |
| `Wire.KidsMember` | `curobo_task_constructor/curobo_task_constructor/graph/spec.py:95-95` | the children of a node are exactly the messages naming it as parent |
| `Wire.KidsIncrease` | `curobo_task_constructor/curobo_task_constructor/graph/spec.py:95-95` | siblings keep wire order |
| `Wire.ToMsgsPreorder` | `curobo_task_constructor/curobo_task_constructor/graph/spec.py:104-134` | the list of any tree is accepted, ids are positions and parents come earlier |
| `Wire.RoundTrip` | `curobo_task_constructor/curobo_task_constructor/graph/spec.py:64-134` | re-linking the list of a tree gives the tree back, for every tree |
| `Wire.Reflattened` | `curobo_task_constructor/curobo_task_constructor/graph/spec.py:64-134` | the list of an accepted list's tree is that list's messages in the tree's pre-order |
| `Builder.BuildTree` | `curobo_task_constructor/curobo_task_constructor/graph/builder.py:57-87` | a graph is built iff it validates, its types are known and only containers and one-child wrappers carry children; the stage tree then has the graph's shape |
| `Builder.BuildableExactly` | `curobo_task_constructor/curobo_task_constructor/graph/builder.py:43-87` | a graph can be built iff every stage in it is a container of one of the four kinds with children, or a registered stage that has none or is a wrapper with one |
| `Builder.ShapeExactly` | `curobo_task_constructor/curobo_task_constructor/graph/builder.py:57-87` | at each place of the built tree is the stage the graph has there |
| `Builder.IdsLineUp` | `curobo_task_constructor/curobo_task_constructor/executor.py:74-75` | by parent links and sibling order alone the message with id i is at the place in the tree of the stage that initialization numbers i, and carries its fields; no two stages share a place |
| `Names.ToStringInjective` | `isaac_ros_cumotion_moveit/src/cumotion_service_client.cpp:68-71` | different shape numbers have different decimal texts |
| `Names.ToStringDecimal` | `isaac_ros_cumotion_moveit/src/cumotion_service_client.cpp:68-71` | the text of a number is its decimal digits without leading zeros |
| `Names.NamesCollideExactly` | `isaac_ros_cumotion_moveit/src/cumotion_service_client.cpp:68-71` | two objects can get a common member name iff one id is a name the other gives to one of several shapes |
| `Names.LastNameKept` | `isaac_ros_cumotion_moveit/src/cumotion_service_client.cpp:68-71` | whether the last of n names is among those for k shapes decides it for all |
| `Names.NamesKeptExactly` | `isaac_ros_cumotion_moveit/src/cumotion_service_client.cpp:68-71` | names for n shapes are names for k shapes iff n is 0, n equals k, or 2 <= n <= k |
| `ServiceClients.Server.AddObject` | `isaac_ros_cumotion/isaac_ros_cumotion/core/obstacle_manager.py:747-761` | a duplicate name is refused; nothing else changes |
| `ServiceClients.Server.RemoveObject` | `isaac_ros_cumotion/isaac_ros_cumotion/core/obstacle_manager.py:864-880` | only the named object goes; an absent name changes nothing |
| `ServiceClients.ServiceClient.RemoveCuroboObject` | `isaac_ros_cumotion_moveit/src/cumotion_service_client.cpp:275-283` | the records are dropped whatever the call returned |
| `ServiceClients.ServiceClient.RemoveStaleGroups` | `isaac_ros_cumotion_moveit/src/cumotion_service_client.cpp:512-522` | erasing while walking removes exactly the groups not wanted, with their members |
| `ServiceClients.ServiceClient.SyncOne` | `isaac_ros_cumotion_moveit/src/cumotion_service_client.cpp:554-594` | one shape: unchanged, unsupported, replaced, or added; recorded only when the add was seen to succeed |
| `ServiceClients.ServiceClient.SyncPlanningScene` | `isaac_ros_cumotion_moveit/src/cumotion_service_client.cpp:477-600` | the nested loops over ids and shapes compute the specified sync, call by call, for every pattern of outcomes |
| `SceneContents.LookupFirst` | `isaac_ros_cumotion_moveit/src/cumotion_service_client.cpp:532-545` | looking an id up gives the first object of the scene that has it |
| `SceneContents.ExpansionExactly` | `isaac_ros_cumotion_moveit/src/cumotion_service_client.cpp:532-600` | the parts asked for are exactly the supported shapes of the scene's unattached objects, each under its member name with its own shape and pose |
| `SceneContents.FirstSyncShows` | `isaac_ros_cumotion_moveit/src/cumotion_service_client.cpp:477-600` | a first sync with every call answered puts every such shape on the server and records it, and adds nothing else |
| `MirrorSafety.WantedInOrder` | `isaac_ros_cumotion_moveit/src/cumotion_service_client.cpp:477-511` | a sync goes through the objects of the world as listed and then through the attached ones not among them |
| `MirrorSafety.RunSound` | `isaac_ros_cumotion_moveit/src/cumotion_service_client.cpp:512-600` | over every run and pattern of failing calls: signature and geometry caches have equal domains, agree, and describe objects really on the server |
| `MirrorSafety.MembersRecordedExactly` | `isaac_ros_cumotion_moveit/src/cumotion_service_client.cpp:512-600` | group members are recorded after every run, however calls fare, iff no id is a member name of another |
| `MirrorSafety.ClashLosesMember` | `isaac_ros_cumotion_moveit/src/cumotion_service_client.cpp:554-594` | with such a clash one failing add leaves a group naming an unrecorded object |
| `MirrorAgreement.SignatureExists` | `isaac_ros_cumotion_moveit/src/cumotion_service_client.cpp:554-563` | whatever finitely many parts are in play, some signature tells them apart |
| `MirrorAgreement.SyncPlaces` | `isaac_ros_cumotion_moveit/src/cumotion_service_client.cpp:477-600` | all calls answered, signatures telling the parts in play apart: a sync removes exactly the members of unwanted groups and puts the scene's expansion in place; every other object stays |
| `MirrorRebuild.RepeatedSync` | `isaac_ros_cumotion_moveit/src/cumotion_service_client.cpp:554-563` | a scene synced once with all calls answered: syncing it again issues no call and changes nothing |
| `MirrorRuns.AfterLastUse` | `isaac_ros_cumotion_moveit/src/cumotion_service_client.cpp:477-600` | a name of an object is mirrored after any scenes iff the first scene after its last use that does not attach the object still wants it, and in the object's group iff the object has been attached ever since |
| `MirrorRuns.RunFollows` | `isaac_ros_cumotion_moveit/src/cumotion_service_client.cpp:477-600` | over every run with all calls answered: groups, caches and server hold exactly the names the history of each object gives, beside what was on the server before |
| `MirrorRuns.AgreementExactly` | `isaac_ros_cumotion_moveit/src/cumotion_service_client.cpp:477-600` | all calls answered: after any scenes groups, caches and server equal a rebuild from the last scene iff every name last used earlier belongs to an object dismissed after that use |
| `MirrorRuns.SurvivalSuffices` | `isaac_ros_cumotion_moveit/src/cumotion_service_client.cpp:477-600` | it is enough that names survive from each scene to the next |
| `MirrorRuns.SurvivalOfTwo` | `isaac_ros_cumotion_moveit/src/cumotion_service_client.cpp:477-600` | and for two scenes that is also needed |
| `MirrorRuns.AgreementByCounts` | `isaac_ros_cumotion_moveit/src/cumotion_service_client.cpp:548-553` | in numbers of shapes, all supported and nothing attached: whenever an object stays for the next scene, it has had no shape, or a later scene has its number of shapes, or both have at least two and the later no fewer |
| `LeftObjects.SecondShapeLeft` | `isaac_ros_cumotion_moveit/src/cumotion_service_client.cpp:477-600` | a run that leaves an object behind: two shapes, then one, every call answered; the second shape's object stays on the server under a name no group holds |
| `MirrorHealing.SyncPlacesFree` | `isaac_ros_cumotion_moveit/src/cumotion_service_client.cpp:477-600` | from any mirror whose records agree with the server, as after every run, an answered sync removes the members of unwanted groups and puts in place every part whose name is not blocked by an unrecorded object; all else stays |
| `MirrorHealing.HealsExactly` | `isaac_ros_cumotion_moveit/src/cumotion_service_client.cpp:477-600` | after any run with any failing calls the next answered sync shows and records the whole scene iff no part of it has the name of an object on the server that is unrecorded and in no stale group |
| `SceneDiffs.EditKeepsForm` | `curobo_task_constructor/curobo_task_constructor/core/state.py:51-88` | every mutator keeps the normal form |
| `SceneDiffs.AlwaysNormal` | `curobo_task_constructor/curobo_task_constructor/core/state.py:51-88` | after any mutators: added and removed names disjoint, neither repeats, attached is not detached |
| `SceneDiffs.OpsToMaterialize` | `curobo_task_constructor/curobo_task_constructor/core/state.py:125-140` | the loops list additions, removals, the detached and the attached object |
| `SceneDiffs.MaterializedAt` | `curobo_task_constructor/curobo_task_constructor/core/state.py:125-140` | place by place: the additions as listed, the removals as listed, then the detachment and last the attachment where there are any |
| `SceneDiffs.PutAtPlace` | `curobo_task_constructor/curobo_task_constructor/core/state.py:51-71` | a new object is listed last, a changed one where it was, and a dropped one leaves the others as they were |
| `SceneDiffs.DisabledExactly` | `curobo_task_constructor/curobo_task_constructor/core/state.py:80-88` | after any edits a collision pair is disabled exactly when the last edit that mentions it disables it |
| `Replay.EffectDecides` | `curobo_task_constructor/curobo_task_constructor/executor.py:190-204` | what a sequence of operations does to a name is a function of its effect, from every world |
| `Replay.SameObjectsExactly` | `curobo_task_constructor/curobo_task_constructor/executor.py:190-204` | two sequences leave equal objects in every world iff they have equal effects on every name |
| `Replay.SameWorldsExactly` | `curobo_task_constructor/curobo_task_constructor/executor.py:190-204` | and equal worlds iff also the last attach or detach of every name agrees |
| `Replay.DiffShows` | `curobo_task_constructor/curobo_task_constructor/core/state.py:51-78` | what a diff holds of a name is determined by the name's history |
| `Replay.MaterializesExactly` | `curobo_task_constructor/curobo_task_constructor/core/state.py:125-140` | the materialized diff gives what its steps gave, from every world, iff every added object was not attached afterwards and, on a server refusing duplicates, never removed before and first added as last |
| `Replay.MaterializesWorldsExactly` | `curobo_task_constructor/curobo_task_constructor/core/state.py:66-140` | objects and holds: the materialized diff gives what its steps gave, from every world, iff the above and, for each object ever held, its last hold is the one the diff shows and its name is not empty |
| `Replay.AddsAndRemovesMaterialize` | `curobo_task_constructor/curobo_task_constructor/core/state.py:125-140` | where adding replaces, every sequence of additions and removals is materialized exactly |
| `Replay.ReplacementNotMaterialized` | `curobo_task_constructor/curobo_task_constructor/core/state.py:51-63` | on a refusing server the replacement of a base object is lost |
| `Executor.TaskExecutor.ApplyOp` | `curobo_task_constructor/curobo_task_constructor/executor.py:190-204` | an operation is skipped iff its kind and name were applied before |
| `Executor.TaskExecutor.Execute` | `curobo_task_constructor/curobo_task_constructor/executor.py:176-188` | playback performs, leaf by leaf, the new operations and then the motion, and returns the drives; the world is that of the deduplicated operations |
| `Executor.NothingSkippedExactly` | `curobo_task_constructor/curobo_task_constructor/executor.py:190-194` | nothing is skipped iff no kind and name recur |
| `Executor.KeyOfExactly` | `curobo_task_constructor/curobo_task_constructor/executor.py:190-194` | two operations count as the same exactly when they do the same to the same object |
| `Executor.LogExactly` | `curobo_task_constructor/curobo_task_constructor/executor.py:176-188` | the requests driven are exactly the leaves' requests in order, and the operations performed are theirs in order, the first of each kind and name |
| `Executor.DrivenAfterOps` | `curobo_task_constructor/curobo_task_constructor/executor.py:182-188` | when a leaf is driven, exactly the requests of the leaves before it were, and exactly the operations up to its own were performed |
| `Executor.PlaybackIsReplay` | `curobo_task_constructor/curobo_task_constructor/executor.py:162-188` | without recurrence the playback of a composed solution is the full replay of its operations |
| `Skipping.DedupedTwo` | `curobo_task_constructor/curobo_task_constructor/executor.py:190-194` | of the operations of two opposite kinds on one object exactly the first of each kind is carried out, in the order they came up |
| `Skipping.SkippingHarmlessExactly` | `curobo_task_constructor/curobo_task_constructor/executor.py:190-194` | on either backend playback ends as the full replay does, from every world, iff for every object with both opposite operations the last is of the kind that came up second, and the placement that decides is the first of its kind |
| `Executor.SecondPickIsSkipped` | `curobo_task_constructor/curobo_task_constructor/executor.py:190-194` | attach, detach, attach of one object: playback ends with it not held |
| `ModifyScenes.ComputeForward` | `curobo_task_constructor/curobo_task_constructor/stages/modify_scene.py:18-48` | per parameter, in order of precedence: what the scene diff becomes and which operation there is; the stage fails iff no parameter is given |
| `ModifyScenes.ComputeChain` | `curobo_task_constructor/curobo_task_constructor/stages/modify_scene.py:18-48` | along a chain the scene is the cumulative diff of the chosen edits and the operations are theirs in order |
| `Attempts.AlwaysExclusive` | `curobo_task_constructor/curobo_task_constructor/core/container.py:538-574` | over every run: before a winner all earlier children were exhausted without result and later ones never ran; then the container has stopped for good |
| `Attempts.SolutionsFromOneChild` | `curobo_task_constructor/curobo_task_constructor/core/container.py:553-574` | all solutions come from one child; those before were exhausted with none, those after never ran |
| `Attempts.ActiveNeverGoesBack` | `curobo_task_constructor/curobo_task_constructor/core/container.py:542-570` | over every run the active index never goes back |
| `Attempts.WinnerStopsWork` | `curobo_task_constructor/curobo_task_constructor/core/container.py:553-556` | after a winner no asking or running changes any child, so siblings that can compute still can |
| `Attempts.SiblingWaitsExactly` | `curobo_task_constructor/curobo_task_constructor/core/container.py:542-556` | a propagating sibling behind the winner can compute for ever iff any start was fed before the winner was found |
| `Attempts.SecondChildWaits` | `curobo_task_constructor/curobo_task_constructor/core/container.py:542-570` | one start, one pass, two propagating children of which the first wins: the second can compute for ever |
| `Attempts.GivenUpForEver` | `curobo_task_constructor/curobo_task_constructor/core/container.py:557-570` | a container that gave up stays so: no child runs again, and a pass feeds everything that has arrived |
| `Attempts.GivenUpWaitsExactly` | `curobo_task_constructor/curobo_task_constructor/core/container.py:542-570` | whatever is done after giving up, every child has been given what was fed, and a propagating one can compute for ever iff it could at that point or a start was fed since |
| `Attempts.LateStartWaits` | `curobo_task_constructor/curobo_task_constructor/core/container.py:557-570` | one propagating child tried in vain, then another start: the container gives up, and the child, fed with the new start, can compute for ever and never runs |
| `Attempts.ComputeGives` | `curobo_task_constructor/curobo_task_constructor/core/container.py:448-462` | a pass without a solution feeds everything that has arrived on both sides |
| `Attempts.AlwaysGiven` | `curobo_task_constructor/curobo_task_constructor/core/container.py:448-462` | over every run each child, tried or not, was given the same states, each once and in order |
| `Attempts.AskedExactly` | `curobo_task_constructor/curobo_task_constructor/core/container.py:542-551` | asking says yes when there is something to feed; otherwise exactly when the next pass runs the child being tried |
| `Attempts.MovesOnExactly` | `curobo_task_constructor/curobo_task_constructor/core/container.py:557-570` | after running a child the container stops if the child has a solution, stays while it can compute and else goes on to the next |
| `FallbackOutputs.AlwaysPassedOn` | `curobo_task_constructor/curobo_task_constructor/core/container.py:464-471` | over every run: a side the container writes holds exactly the keys its children had written when they ran, each once, and a side it does not write stays empty |
| `FallbackOutputs.AlwaysLifted` | `curobo_task_constructor/curobo_task_constructor/core/container.py:473-480` | over every run: what a child has produced the container holds, the first of each key pair, in order, with its ends, cost, trajectory, operations and request |
| `FallbackOutputs.PullsHoldFirsts` | `curobo_task_constructor/curobo_task_constructor/core/stage.py:232-242` | over every run each side holds, of the states given to it, the first of each key, in order |
| `FallbackContainers.Fallbacks.FeedAll` | `curobo_task_constructor/curobo_task_constructor/core/container.py:448-462` | every child receives the states not yet fed |
| `FallbackContainers.Fallbacks.Compute` | `curobo_task_constructor/curobo_task_constructor/core/container.py:553-570` | one pass of the mutating container is one step of the specification |
| `FallbackContainers.Fallbacks.CanCompute` | `curobo_task_constructor/curobo_task_constructor/core/container.py:542-551` | asking answers as specified, and stops a container that is done |
| `Batches.BatchingRefines` | `curobo_task_constructor/curobo_task_constructor/core/container.py:494-506` | batched and unbatched passes give equal children (solutions, failures, written ends) and equal container solutions, in the same order |
| `BatchRuns.BatchedRunsRefine` | `curobo_task_constructor/curobo_task_constructor/core/container.py:494-506` | over every run of arrivals and passes batching leaves all children and the container's solutions as they are without it |
| `BatchRuns.SameKeysExactly` | `curobo_task_constructor/curobo_task_constructor/core/container.py:498-506` | the batched pass passes on the keys the unbatched one does iff every state a child newly writes has a key already written before the pass |
| `BatchRuns.SameEndsExactly` | `curobo_task_constructor/curobo_task_constructor/core/container.py:498-506` | and the very same list iff each such key is there by the child's turn |
| `Batches.EachChildAlone` | `curobo_task_constructor/curobo_task_constructor/core/stage.py:525-572` | either way each child ends as if alone with its own requests |
| `AlternativeResults.SolvedIsHeld` | `curobo_task_constructor/curobo_task_constructor/core/stage.py:562-572` | a request that is solved gives the child a solution from its start to the end it led to |
| `AlternativeResults.ChildHoldsFirsts` | `curobo_task_constructor/curobo_task_constructor/core/stage.py:525-572` | over every run, batched or not: a child's solutions are the first of each key pair among those of the states fed so far, each with its start, end, price, trajectory and request; its ends are theirs and its failures those of the failed plans, in order; a pass feeds everything that has arrived |
| `AlternativeResults.PassEmits` | `curobo_task_constructor/curobo_task_constructor/core/container.py:473-480` | a pass adds to the container the solutions its children have more, child after child, each lifted, the first of each key pair |
| `AlternativeResults.PullHoldsFirsts` | `curobo_task_constructor/curobo_task_constructor/core/stage.py:232-242` | over every run the container holds, of what has arrived, the first state of each key, in order |
| `Batches.EveryChildSolutionLifted` | `curobo_task_constructor/curobo_task_constructor/core/container.py:518-520` | a pass keeps it that the container's solutions are, up to keys, exactly its children's |
| `Batches.BatchedEnds` | `curobo_task_constructor/curobo_task_constructor/core/container.py:498-506` | a batched pass passes on only the states written before it |
| `Batches.BatchedEndsAreLost` | `curobo_task_constructor/curobo_task_constructor/core/container.py:498-506` | one child and one solvable state: its end reaches the container only without batching |
| `AlternativesContainers.TrajectoryStage.Prepare` | `curobo_task_constructor/curobo_task_constructor/core/stage.py:525-538` | the pull is consumed and the buildable requests are pending in order |
| `AlternativesContainers.TrajectoryStage.CommitResult` | `curobo_task_constructor/curobo_task_constructor/core/stage.py:562-572` | a result fails, is dropped, or writes an end and emits by key |
| `AlternativesContainers.Alternatives.Flush` | `curobo_task_constructor/curobo_task_constructor/core/container.py:105-111` | one batched call commits every deferred request with its own result |
| `AlternativesContainers.Alternatives.Compute` | `curobo_task_constructor/curobo_task_constructor/core/container.py:494-506` | a pass of the mutating container is the batched specification when it has children and all are whole-task motion stages, and the sequential one otherwise |
| `Candidates.CanComputeExactly` | `curobo_task_constructor/curobo_task_constructor/stages/compute_ik.py:77-87` | after a pass there is more to do iff the child can compute again or the limit is reached with candidates left |
| `Candidates.LeftoversStall` | `curobo_task_constructor/curobo_task_constructor/stages/compute_ik.py:77-87` | in the second case it says so for ever and further passes change nothing |
| `Candidates.StallsExactly` | `curobo_task_constructor/curobo_task_constructor/stages/compute_ik.py:77-87` | over a generator one pass does all that ever gets done; from then on it says it can compute iff some candidate comes after those that already give the limit |
| `Candidates.TwoPosesStall` | `curobo_task_constructor/curobo_task_constructor/stages/compute_ik.py:77-87` | two candidates and a limit of one: it has its solution and can compute for ever |
| `Candidates.AlwaysUpToDate` | `curobo_task_constructor/curobo_task_constructor/stages/compute_ik.py:81-107` | solutions, both interfaces and failures are those of the candidates processed, in order, first of each key |
| `Candidates.SolutionsRest` | `curobo_task_constructor/curobo_task_constructor/stages/compute_ik.py:81-107` | after any passes both sides show, of the states solved, the first of each key, in order, with one zero-cost solution at each |
| `Candidates.LimitHolds` | `curobo_task_constructor/curobo_task_constructor/stages/compute_ik.py:84-87` | the limit is never passed |
| `Candidates.ActsAsGenerator` | `curobo_task_constructor/curobo_task_constructor/stages/compute_ik.py:77-107` | without a limit, over a generator, it computes once and writes the solved states to both interfaces |
| `WrappedGenerators.StandsForGenerator` | `curobo_task_constructor/curobo_task_constructor/stages/compute_ik.py:77-113` | in place of a generator that drafts the solved states: the same solutions, and the same states for every neighbour whatever it already has |
| `Candidates.NeighbourCannotTell` | `curobo_task_constructor/curobo_task_constructor/stages/compute_ik.py:109-113` | its own deduplication does not change what a neighbour receives |
| `ComputeIkStages.ComputeIk.CanComputeNow` | `curobo_task_constructor/curobo_task_constructor/stages/compute_ik.py:77-79` | it can compute when its child can or a candidate is left |
| `ComputeIkStages.ComputeIk.Compute` | `curobo_task_constructor/curobo_task_constructor/stages/compute_ik.py:81-107` | the queue loop computes the specified pass |

## Left out

- Stages with their own `compute`: the solvers of generators, propagators and connectors are arbitrary deterministic functions; inverse kinematics, grasp sampling, request building and pose arithmetic stay uninterpreted. A failed attempt of a flat task is an absent draft; its message and failure list are modelled for motion children and for `ComputeIK` only.
- Planner.SerialRoot.PropagateOutputs: passes states between children only; the interface a root container itself writes (core/container.py:361-370) has no reader and is modelled for fallbacks and alternatives, not here.
- Planner.SerialRoot.Compute: a flat serial root of leaf stages (a `ComputeIK` counts as a generator by `WrappedGenerators.StandsForGenerator`); nothing is fed to a root from outside.
- Planner.SerialRoot.Plan: the same; the global loop over nested containers, with the early return of a solved inner serial container, is not modelled. Resolution, composition of solutions, fallbacks and alternatives are, each at its own level, and `Nesting` shows what a nested serial container promises its parent.
- Composer.ComposedExactly: assumes that a state a child shows on both sides is read only after the child has published it in a solution; `Nesting.SingleChildEmitsAtOnce` and the order of propagation after emission (core/container.py:335-339) give it. States shown on one side may be read before.
- ServiceClients.Server.AddObject: refusal of non-positive dimensions (obstacle_manager.py:763) is one of the outcomes of the call.
- MirrorAgreement.SyncPlaces: needs a signature that tells the finitely many parts in play apart; the text of a signature is a parameter.
- BatchRuns.SameEndsExactly: takes the end states a pass writes to be new objects, as a stage that builds its end state makes them; `BatchRuns.SameKeysExactly` does not need it.
- CarriedKeys.CarriedKeysSurvive: is sufficient only; `Network.Survives`, which follows the engine's own lists, is the exact condition.
- The composition hook is called with a child's new solutions right after its computation and in their order, where the source calls it at each emission; no child reads its container, so the two agree.
- `IndependentComponents` (core/container.py:580-601): on motion children it is `Batches.Sequential`.
- Re-initialising or re-planning with one executor, and the one-solve-at-a-time gate of the node.
- A plan call that raises (core/stage.py:550-552): on the sequential path it is one more failure, on the batched path it ends the pass.
- The absence of a trajectory and an empty trajectory are one value, as the concatenation treats them.
- Comments, response payloads, timing, statistics, attempt counters and solution ids.
- `to_dict`, `from_dict`, YAML and parameter decoding; whether a leaf type is registered is a map.
- Attach and detach service calls of the scene mirror (cumotion_service_client.cpp:602-638), which touch none of the three records modelled; attached ids and their carried-over groups are modelled. The reverse mirror is not.
- A mirror request that takes effect after a later call, and other clients changing the mirrored objects. Groups are listed in the order they were built, where the map iterates by name; every result holds for all patterns of outcomes, so the order of removals does not matter to it.
- What attaching does on the planning server beyond a set of held names; the disabled collision pairs of a diff are kept but have no operation.
- `ops_to_materialize` names an object only when its reference is not the empty string, as the source's truth test does; object lists have no such test.
- Stages registered from outside, RViz, camera, laser, segmentation and benchmark code.
