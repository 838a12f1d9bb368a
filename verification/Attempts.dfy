/** A fallbacks container over arbitrary children: which child is tried when, and that only one
    of them ever contributes. */
module Attempts {
  import opened Interfaces
  import opened Solutions
  import opened Search

  /** What has happened to a child so far. */
  datatype Event = PushedStart(state: InterfaceState) | PushedEnd(state: InterfaceState) | Ran

  type History = seq<Event>

  /** An arbitrary child stage: what it can do and emits may depend on all that happened to it. */
  datatype Behaviour = Behaviour(
    can: History -> bool,
    emits: History -> seq<Solution>,
    starts: History -> seq<InterfaceState>,
    ends: History -> seq<InterfaceState>)

  /** The container's own position, and the interfaces it shares with all its children. */
  datatype Ports = Ports(own: int, start: Flag, end: Flag)

  /** The container; `current` is the child being tried, None when it has stopped. */
  datatype Bench = Bench(
    startPull: seq<InterfaceState>,
    endPull: seq<InterfaceState>,
    fedStart: nat,
    fedEnd: nat,
    histories: seq<History>,
    current: Option<nat>,
    solutions: seq<Solution>,
    keys: set<(Key, Key)>,
    starts: seq<InterfaceState>,
    ends: seq<InterfaceState>)

  function Fresh(n: nat): Bench {
    Bench([], [], 0, 0, seq(n, _ => []), Some(0), [], {}, [], [])
  }

  /** The solutions a child has emitted so far. */
  function Produced(b: Behaviour, h: History): seq<Solution> {
    if h == [] then [] else
    Produced(b, h[..|h| - 1]) + if h[|h| - 1].Ran? then b.emits(h[..|h| - 1]) else []
  }

  // ---- feeding ----

  function StartEvents(states: seq<InterfaceState>): seq<Event> {
    seq(|states|, k requires 0 <= k < |states| => PushedStart(states[k]))
  }

  function EndEvents(states: seq<InterfaceState>): seq<Event> {
    seq(|states|, k requires 0 <= k < |states| => PushedEnd(states[k]))
  }

  predicate InBounds(b: Bench) {
    b.fedStart <= |b.startPull| && b.fedEnd <= |b.endPull|
  }

  /** What every child is fed next. */
  function Pool(ports: Ports, b: Bench): seq<Event>
    requires InBounds(b)
  {
    (if ports.start.read then StartEvents(b.startPull[b.fedStart..]) else [])
    + (if ports.end.read then EndEvents(b.endPull[b.fedEnd..]) else [])
  }

  function FedTo(histories: seq<History>, pool: seq<Event>): (fed: seq<History>)
    ensures |fed| == |histories|
    ensures forall k :: 0 <= k < |fed| ==> fed[k] == histories[k] + pool
  {
    seq(|histories|, k requires 0 <= k < |histories| => histories[k] + pool)
  }

  function Feed(ports: Ports, b: Bench): Bench
    requires InBounds(b)
  {
    b.(fedStart := |b.startPull|, fedEnd := |b.endPull|, histories := FedTo(b.histories, Pool(ports, b)))
  }

  predicate Unfed(ports: Ports, b: Bench) {
    (ports.start.read && |b.startPull| > b.fedStart) || (ports.end.read && |b.endPull| > b.fedEnd)
  }

  // ---- running ----

  /** The first child from `i` on that can compute. */
  function Next(children: seq<Behaviour>, histories: seq<History>, i: nat): (k: nat)
    requires i <= |children| == |histories|
    ensures i <= k <= |children|
    ensures k < |children| ==> children[k].can(histories[k])
    ensures forall j :: i <= j < k ==> !children[j].can(histories[j])
    decreases |children| - i
  {
    if i < |children| && !children[i].can(histories[i]) then Next(children, histories, i + 1) else i
  }

  /** Container solutions are deduplicated by key pair. */
  function Lifted(own: int, b: Bench, s: Solution): Bench {
    if s.KeyPair() in b.keys then b
    else b.(keys := b.keys + {s.KeyPair()}, solutions := b.solutions + [LiftChild(s, own)])
  }

  function LiftedAll(own: int, b: Bench, more: seq<Solution>): Bench {
    if more == [] then b else Lifted(own, LiftedAll(own, b, more[..|more| - 1]), more[|more| - 1])
  }

  /** Child `k` runs: its solutions are lifted and its written states passed on. */
  function RunChild(children: seq<Behaviour>, ports: Ports, b: Bench, k: nat): Bench
    requires k < |children| == |b.histories|
  {
    var h := b.histories[k];
    var ran := b.(histories := b.histories[k := h + [Ran]]);
    var lifted := LiftedAll(ports.own, ran, children[k].emits(h));
    lifted.(ends := if ports.end.write then PushAll(b.ends, children[k].ends(h + [Ran])) else b.ends,
    starts := if ports.start.write then PushAll(b.starts, children[k].starts(h + [Ran])) else b.starts)
  }

  /** Where to go on after child `k` ran. */
  function After(children: seq<Behaviour>, histories: seq<History>, k: nat): Option<nat>
    requires k < |children| == |histories|
  {
    if Produced(children[k], histories[k]) != [] then None
    else if !children[k].can(histories[k]) then Some(k + 1)
    else Some(k)
  }

  predicate WellShaped(children: seq<Behaviour>, b: Bench) {
    |children| == |b.histories| && InBounds(b) && (b.current.Some? ==> b.current.value <= |children|)
  }

  function Compute(children: seq<Behaviour>, ports: Ports, b: Bench): Bench
    requires WellShaped(children, b)
  {
    if b.solutions != [] then b.(current := None) else
    var fed := Feed(ports, b);
    if fed.current.None? then fed else Attempt(children, ports, fed)
  }

  /** The first child from the current one on that can compute runs. */
  function Attempt(children: seq<Behaviour>, ports: Ports, b: Bench): Bench
    requires WellShaped(children, b) && b.current.Some?
  {
    var k := Next(children, b.histories, b.current.value);
    if k == |children| then b.(current := None) else Tried(children, ports, b, k)
  }

  function Tried(children: seq<Behaviour>, ports: Ports, b: Bench, k: nat): Bench
    requires k < |children| == |b.histories|
  {
    RunChild(children, ports, b, k).(current := After(children, RanAt(b.histories, k), k))
  }

  function RanAt(histories: seq<History>, k: nat): seq<History>
    requires k < |histories|
  {
    histories[k := histories[k] + [Ran]]
  }

  /** Asking whether there is work also stops a container that is done. */
  function Asked(children: seq<Behaviour>, ports: Ports, b: Bench): (Bench, bool)
    requires WellShaped(children, b)
  {
    if Unfed(ports, b) then (b, true)
    else if b.solutions != [] || b.current.None? || b.current.value >= |children| then (b.(current := None), false)
    else (b, children[b.current.value].can(b.histories[b.current.value]))
  }

  // ---- exclusivity ----

  ghost predicate NeverRan(h: History) {
    Ran !in h
  }

  /** At some point it could not compute, and it has not run since. */
  ghost predicate Exhausted(b: Behaviour, h: History) {
    exists n :: 0 <= n <= |h| && !b.can(h[..n]) && NeverRan(h[n..])
  }

  /** Tried in vain: it was exhausted without emitting anything. */
  ghost predicate InVain(b: Behaviour, h: History) {
    Produced(b, h) == [] && Exhausted(b, h)
  }

  ghost predicate FromChild(own: int, solutions: seq<Solution>, emitted: seq<Solution>) {
    forall s :: s in solutions ==> |s.children| == 1 && s.children[0] in emitted && IsLift(own, s.children[0], s)
  }

  /** Child `k` is being tried or has won: those before it were tried in vain, those after it
      have never run, and everything the container has comes from it. */
  ghost predicate At(children: seq<Behaviour>, own: int, b: Bench, k: nat)
    requires |children| == |b.histories|
  {
    && k <= |children|
    && (forall j :: 0 <= j < k ==> InVain(children[j], b.histories[j]))
    && (forall j :: k < j < |children| ==> NeverRan(b.histories[j]))
    && if k == |children| then b.solutions == []
       else FromChild(own, b.solutions, Produced(children[k], b.histories[k]))
  }

  /** Child `k` is being tried: nothing has come of it yet. */
  ghost predicate Trying(children: seq<Behaviour>, own: int, b: Bench, k: nat)
    requires |children| == |b.histories|
  {
    && At(children, own, b, k) && b.solutions == [] && b.keys == {}
    && (k < |children| ==> Produced(children[k], b.histories[k]) == [])
  }

  /** Before a winner is found the children are tried in order; afterwards, or when none is left,
      the container has stopped for good. */
  ghost predicate Exclusive(children: seq<Behaviour>, own: int, b: Bench) {
    && WellShaped(children, b)
    && (b.current.Some? ==> Trying(children, own, b, b.current.value))
    && (b.current.None? ==> exists k :: At(children, own, b, k) && (b.solutions == [] ==> k == |children|))
  }

  // ---- what a history shows is kept by pushes ----

  lemma {:induction false} ProducedConcat(b: Behaviour, h: History, pool: seq<Event>)
    requires NeverRan(pool)
    ensures Produced(b, h + pool) == Produced(b, h)
  {
    if pool == [] {
      assert h + pool == h;
    } else {
      var init := pool[..|pool| - 1];
      assert (h + pool)[..|h + pool| - 1] == h + init && pool[|pool| - 1] in pool;
      ProducedConcat(b, h, init);
    }
  }

  lemma ExhaustedConcat(b: Behaviour, h: History, pool: seq<Event>)
    requires NeverRan(pool) && Exhausted(b, h)
    ensures Exhausted(b, h + pool)
  {
    var n :| 0 <= n <= |h| && !b.can(h[..n]) && NeverRan(h[n..]);
    assert (h + pool)[..n] == h[..n] && (h + pool)[n..] == h[n..] + pool;
  }

  lemma PoolNeverRan(ports: Ports, b: Bench)
    requires InBounds(b)
    ensures NeverRan(Pool(ports, b))
  {
  }

  lemma {:induction false} NeverRanProduces(b: Behaviour, h: History)
    requires NeverRan(h)
    ensures Produced(b, h) == []
  {
    ProducedConcat(b, [], h);
    assert [] + h == h;
  }

  lemma FeedKeeps(children: seq<Behaviour>, ports: Ports, b: Bench, k: nat)
    requires WellShaped(children, b) && At(children, ports.own, b, k)
    ensures At(children, ports.own, Feed(ports, b), k)
    ensures Trying(children, ports.own, b, k) ==> Trying(children, ports.own, Feed(ports, b), k)
  {
    PoolNeverRan(ports, b);
    var pool := Pool(ports, b);
    var fed := Feed(ports, b);
    forall j | 0 <= j < k ensures InVain(children[j], fed.histories[j]) {
      ProducedConcat(children[j], b.histories[j], pool);
      ExhaustedConcat(children[j], b.histories[j], pool);
    }
    if k < |children| {
      ProducedConcat(children[k], b.histories[k], pool);
    }
  }

  /** Passing over the children that cannot compute leaves each of them tried in vain. */
  lemma NextKeeps(children: seq<Behaviour>, own: int, b: Bench, i: nat)
    requires WellShaped(children, b) && Trying(children, own, b, i)
    ensures Trying(children, own, b, Next(children, b.histories, i))
  {
    var k := Next(children, b.histories, i);
    forall j | i <= j < k ensures InVain(children[j], b.histories[j]) {
      var h := b.histories[j];
      if j > i {
        NeverRanProduces(children[j], h);
      }
      assert h[..|h|] == h && h[|h|..] == [];
    }
    if i < k < |children| {
      NeverRanProduces(children[k], b.histories[k]);
    }
  }

  lemma LiftedOne(own: int, b: Bench, s: Solution, done: seq<Solution>)
    requires FromChild(own, b.solutions, done)
    ensures var r := Lifted(own, b, s);
            && FromChild(own, r.solutions, done + [s])
            && r.keys != {} && (b.solutions != [] || b.keys == {} ==> r.solutions != [])
  {
  }

  lemma {:induction false} LiftedAllFrom(own: int, b: Bench, more: seq<Solution>, r: Bench)
    requires b.solutions == [] && b.keys == {} && r == LiftedAll(own, b, more)
    ensures FromChild(own, r.solutions, more)
    ensures (r.solutions == [] <==> more == []) && (r.keys == {} <==> more == [])
  {
    if more != [] {
      var init, last := more[..|more| - 1], more[|more| - 1];
      var before := LiftedAll(own, b, init);
      LiftedAllFrom(own, b, init, before);
      LiftedOne(own, before, last, init);
      assert more == init + [last];
    }
  }

  lemma ProducedNext(b: Behaviour, h: History)
    ensures Produced(b, h + [Ran]) == Produced(b, h) + b.emits(h)
  {
    assert (h + [Ran])[..|h|] == h;
  }

  lemma RunKeeps(children: seq<Behaviour>, ports: Ports, b: Bench, k: nat)
    requires WellShaped(children, b) && k < |children| && Trying(children, ports.own, b, k)
    ensures var r := RunChild(children, ports, b, k);
            && WellShaped(children, r) && At(children, ports.own, r, k)
            && r.histories == RanAt(b.histories, k)
            && (r.solutions == [] <==> Produced(children[k], r.histories[k]) == [])
            && (r.keys == {} <==> r.solutions == [])
            && r.current == b.current
  {
    var h := b.histories[k];
    ProducedNext(children[k], h);
    assert Produced(children[k], h) == [];
    var ran := b.(histories := b.histories[k := h + [Ran]]);
    LiftedAllFrom(ports.own, ran, children[k].emits(h), LiftedAll(ports.own, ran, children[k].emits(h)));
    LiftedAllShape(ports.own, ran, children[k].emits(h));
  }

  /** After the run: won, exhausted without result, or still being tried. */
  lemma AfterKeeps(children: seq<Behaviour>, own: int, r: Bench, k: nat)
    requires WellShaped(children, r) && k < |children| && At(children, own, r, k)
    requires r.solutions == [] <==> Produced(children[k], r.histories[k]) == []
    requires r.keys == {} <==> r.solutions == []
    ensures Exclusive(children, own, r.(current := After(children, r.histories, k)))
  {
    var h := r.histories[k];
    var next := r.(current := After(children, r.histories, k));
    if Produced(children[k], h) != [] {
      assert At(children, own, next, k);
    } else if !children[k].can(h) {
      assert h[..|h|] == h && h[|h|..] == [];
      if k + 1 < |children| {
        NeverRanProduces(children[k + 1], r.histories[k + 1]);
      }
      assert Trying(children, own, next, k + 1);
    }
  }

  lemma ComputeKeeps(children: seq<Behaviour>, ports: Ports, b: Bench)
    requires Exclusive(children, ports.own, b)
    ensures Exclusive(children, ports.own, Compute(children, ports, b))
  {
    var own := ports.own;
    if b.solutions != [] {
    } else if b.current.None? {
      var k :| At(children, own, b, k) && k == |children|;
      FeedKeeps(children, ports, b, k);
    } else {
      FeedKeeps(children, ports, b, b.current.value);
      var fed := Feed(ports, b);
      NextKeeps(children, own, fed, b.current.value);
      var k := Next(children, fed.histories, b.current.value);
      if k == |children| {
        assert At(children, own, fed.(current := None), k);
      } else {
        RunKeeps(children, ports, fed, k);
        AfterKeeps(children, own, RunChild(children, ports, fed, k), k);
      }
    }
  }

  lemma AskedKeeps(children: seq<Behaviour>, ports: Ports, b: Bench)
    requires Exclusive(children, ports.own, b)
    ensures Exclusive(children, ports.own, Asked(children, ports, b).0)
  {
    if b.current.Some? {
      assert At(children, ports.own, b.(current := None), b.current.value);
    } else {
      var k :| At(children, ports.own, b, k) && (b.solutions == [] ==> k == |children|);
      assert At(children, ports.own, b.(current := None), k);
    }
  }

  // ---- every run ----

  /** What can be done to the container. */
  datatype Command = GiveStart(state: InterfaceState) | GiveEnd(state: InterfaceState) | Ask | Work

  function Perform(children: seq<Behaviour>, ports: Ports, b: Bench, c: Command): (r: Bench)
    requires WellShaped(children, b)
    ensures WellShaped(children, r)
  {
    match c
    case GiveStart(s) => b.(startPull := Push(b.startPull, s))
    case GiveEnd(s) => b.(endPull := Push(b.endPull, s))
    case Ask => Asked(children, ports, b).0
    case Work =>
      ComputeShaped(children, ports, b);
      Compute(children, ports, b)
  }

  lemma {:induction false} LiftedAllShape(own: int, b: Bench, more: seq<Solution>)
    ensures var r := LiftedAll(own, b, more); r == b.(solutions := r.solutions, keys := r.keys)
  {
    if more != [] {
      LiftedAllShape(own, b, more[..|more| - 1]);
    }
  }

  lemma ComputeShaped(children: seq<Behaviour>, ports: Ports, b: Bench)
    requires WellShaped(children, b)
    ensures WellShaped(children, Compute(children, ports, b))
  {
    if b.solutions == [] && b.current.Some? {
      var fed := Feed(ports, b);
      var k := Next(children, fed.histories, b.current.value);
      if k < |children| {
        LiftedAllShape(ports.own, fed.(histories := RanAt(fed.histories, k)), children[k].emits(fed.histories[k]));
      }
    }
  }

  function PerformAll(children: seq<Behaviour>, ports: Ports, b: Bench, commands: seq<Command>): (r: Bench)
    requires WellShaped(children, b)
    ensures WellShaped(children, r)
  {
    if commands == [] then b
    else Perform(children, ports, PerformAll(children, ports, b, commands[..|commands| - 1]), commands[|commands| - 1])
  }

  /** The container after a whole run. */
  function Run(children: seq<Behaviour>, ports: Ports, commands: seq<Command>): Bench {
    PerformAll(children, ports, Fresh(|children|), commands)
  }

  lemma FreshTrying(children: seq<Behaviour>, own: int)
    ensures Exclusive(children, own, Fresh(|children|))
  {
    if |children| > 0 {
      assert Produced(children[0], []) == [];
    }
  }

  lemma PerformKeeps(children: seq<Behaviour>, ports: Ports, b: Bench, c: Command)
    requires Exclusive(children, ports.own, b)
    ensures Exclusive(children, ports.own, Perform(children, ports, b, c))
  {
    match c
    case GiveStart(s) =>
      if b.current.None? {
        var k :| At(children, ports.own, b, k) && (b.solutions == [] ==> k == |children|);
        assert At(children, ports.own, Perform(children, ports, b, c), k);
      }
    case GiveEnd(s) =>
      if b.current.None? {
        var k :| At(children, ports.own, b, k) && (b.solutions == [] ==> k == |children|);
        assert At(children, ports.own, Perform(children, ports, b, c), k);
      }
    case Ask => AskedKeeps(children, ports, b);
    case Work => ComputeKeeps(children, ports, b);
  }

  /** Over every run the attempts stay exclusive. */
  lemma {:induction false} AlwaysExclusive(children: seq<Behaviour>, ports: Ports, commands: seq<Command>)
    ensures Exclusive(children, ports.own, Run(children, ports, commands))
  {
    if commands == [] {
      FreshTrying(children, ports.own);
    } else {
      AlwaysExclusive(children, ports, commands[..|commands| - 1]);
      PerformKeeps(children, ports, Run(children, ports, commands[..|commands| - 1]), commands[|commands| - 1]);
    }
  }

  /** When the container has solutions after any run, they are all one child's; the children before
      it were exhausted without a result, and those after it never ran. */
  lemma SolutionsFromOneChild(children: seq<Behaviour>, ports: Ports, commands: seq<Command>) returns (k: nat)
    requires Run(children, ports, commands).solutions != []
    ensures k < |children|
    ensures var b := Run(children, ports, commands);
            && FromChild(ports.own, b.solutions, Produced(children[k], b.histories[k]))
            && (forall j :: 0 <= j < k ==> InVain(children[j], b.histories[j]))
            && (forall j :: k < j < |children| ==> NeverRan(b.histories[j]))
  {
    AlwaysExclusive(children, ports, commands);
    var b := Run(children, ports, commands);
    k :| At(children, ports.own, b, k);
  }

  /** The position of the active child; a stopped container is past them all. */
  function Progress(children: seq<Behaviour>, b: Bench): nat {
    if b.current.Some? then b.current.value else |children| + 1
  }

  /** No step moves the active child back. */
  lemma NeverGoesBack(children: seq<Behaviour>, ports: Ports, b: Bench, c: Command)
    requires WellShaped(children, b)
    ensures Progress(children, b) <= Progress(children, Perform(children, ports, b, c))
  {
    if c.Work? && b.solutions == [] && b.current.Some? {
      var fed := Feed(ports, b);
      var k := Next(children, fed.histories, b.current.value);
    }
  }

  ghost predicate OnlyWork(commands: seq<Command>) {
    forall c :: c in commands ==> c.Ask? || c.Work?
  }

  /** A winner ends all work: however often the container is asked or run from then on, nothing is
      fed and no child runs. A sibling that could compute with what it was fed still can, so a loop
      that waits until no descendant can compute would not end. */
  lemma {:induction false} WinnerStopsWork(children: seq<Behaviour>, ports: Ports, b: Bench, commands: seq<Command>)
    requires WellShaped(children, b) && b.solutions != [] && OnlyWork(commands)
    ensures var r := PerformAll(children, ports, b, commands);
            r.histories == b.histories && r.solutions == b.solutions && (Unfed(ports, r) <==> Unfed(ports, b))
  {
    if commands != [] {
      var last := commands[|commands| - 1];
      assert last in commands;
      WinnerStopsWork(children, ports, b, commands[..|commands| - 1]);
    }
  }

  /** Over every run the active child never moves back. */
  lemma {:induction false} ActiveNeverGoesBack(children: seq<Behaviour>, ports: Ports, commands: seq<Command>,
                                               i: nat, j: nat)
    requires i <= j <= |commands|
    ensures Progress(children, Run(children, ports, commands[..i]))
            <= Progress(children, Run(children, ports, commands[..j]))
  {
    if i < j {
      ActiveNeverGoesBack(children, ports, commands, i, j - 1);
      assert commands[..j][..j - 1] == commands[..j - 1];
      NeverGoesBack(children, ports, Run(children, ports, commands[..j - 1]), commands[j - 1]);
    }
  }

  /** Since `h` the child has not run. */
  ghost predicate OnlyPushed(h: History, now: History) {
    h <= now && NeverRan(now[|h|..])
  }

  lemma PushedOn(h: History, now: History, pool: seq<Event>)
    requires OnlyPushed(h, now) && NeverRan(pool)
    ensures OnlyPushed(h, now + pool)
  {
    assert (now + pool)[|h|..] == now[|h|..] + pool;
  }

  /** A container that gave up stays so: a pass feeds on whatever has arrived, and no child ever runs. */
  lemma {:induction false} GivenUpForEver(children: seq<Behaviour>, ports: Ports, b: Bench, commands: seq<Command>)
    requires WellShaped(children, b) && b.solutions == [] && b.current.None?
    ensures var r := PerformAll(children, ports, b, commands);
            && r.solutions == [] && r.current.None?
            && (commands != [] && commands[|commands| - 1].Work? ==>
                  r.fedStart == |r.startPull| && r.fedEnd == |r.endPull|)
            && forall j :: 0 <= j < |children| ==> OnlyPushed(b.histories[j], r.histories[j])
  {
    if commands != [] {
      GivenUpForEver(children, ports, b, commands[..|commands| - 1]);
      var r := PerformAll(children, ports, b, commands[..|commands| - 1]);
      if commands[|commands| - 1].Work? {
        PoolNeverRan(ports, r);
        forall j | 0 <= j < |children| ensures OnlyPushed(b.histories[j], r.histories[j] + Pool(ports, r)) {
          PushedOn(b.histories[j], r.histories[j], Pool(ports, r));
        }
      }
    }
  }

  // ---- what the children are fed ----

  function StartsOf(h: History): seq<InterfaceState> {
    if h == [] then [] else
    StartsOf(h[..|h| - 1]) + if h[|h| - 1].PushedStart? then [h[|h| - 1].state] else []
  }

  function EndsOf(h: History): seq<InterfaceState> {
    if h == [] then [] else
    EndsOf(h[..|h| - 1]) + if h[|h| - 1].PushedEnd? then [h[|h| - 1].state] else []
  }

  lemma {:induction false} InputsConcat(h: History, g: History)
    ensures StartsOf(h + g) == StartsOf(h) + StartsOf(g)
    ensures EndsOf(h + g) == EndsOf(h) + EndsOf(g)
  {
    if g == [] {
      assert h + g == h;
    } else {
      assert (h + g)[..|h + g| - 1] == h + g[..|g| - 1];
      InputsConcat(h, g[..|g| - 1]);
    }
  }

  lemma {:induction false} StartEventsAre(states: seq<InterfaceState>)
    ensures StartsOf(StartEvents(states)) == states && EndsOf(StartEvents(states)) == []
  {
    if states != [] {
      var init := states[..|states| - 1];
      assert StartEvents(states)[..|states| - 1] == StartEvents(init);
      StartEventsAre(init);
    }
  }

  lemma {:induction false} EndEventsAre(states: seq<InterfaceState>)
    ensures EndsOf(EndEvents(states)) == states && StartsOf(EndEvents(states)) == []
  {
    if states != [] {
      var init := states[..|states| - 1];
      assert EndEvents(states)[..|states| - 1] == EndEvents(init);
      EndEventsAre(init);
    }
  }

  lemma PoolInputs(ss: History, es: History)
    ensures StartsOf(ss + es) == StartsOf(ss) + StartsOf(es) && EndsOf(ss + es) == EndsOf(ss) + EndsOf(es)
    ensures EndsOf(ss) == [] ==> EndsOf(ss + es) == EndsOf(es)
    ensures StartsOf(es) == [] ==> StartsOf(ss + es) == StartsOf(ss)
  {
    InputsConcat(ss, es);
  }

  lemma PoolIs(ports: Ports, b: Bench)
    requires InBounds(b)
    ensures StartsOf(Pool(ports, b)) == if ports.start.read then b.startPull[b.fedStart..] else []
    ensures EndsOf(Pool(ports, b)) == if ports.end.read then b.endPull[b.fedEnd..] else []
  {
    StartEventsAre(b.startPull[b.fedStart..]);
    EndEventsAre(b.endPull[b.fedEnd..]);
    PoolInputs(if ports.start.read then StartEvents(b.startPull[b.fedStart..]) else [],
               if ports.end.read then EndEvents(b.endPull[b.fedEnd..]) else []);
  }

  /** What the container has fed on so far. */
  function FedStarts(ports: Ports, b: Bench): seq<InterfaceState>
    requires InBounds(b)
  {
    if ports.start.read then b.startPull[..b.fedStart] else []
  }

  function FedEnds(ports: Ports, b: Bench): seq<InterfaceState>
    requires InBounds(b)
  {
    if ports.end.read then b.endPull[..b.fedEnd] else []
  }

  /** Each child has been given exactly these states. */
  ghost predicate AllGiven(histories: seq<History>, starts: seq<InterfaceState>, ends: seq<InterfaceState>) {
    forall j :: 0 <= j < |histories| ==> StartsOf(histories[j]) == starts && EndsOf(histories[j]) == ends
  }

  ghost predicate InputsShared(ports: Ports, b: Bench) {
    InBounds(b) && AllGiven(b.histories, FedStarts(ports, b), FedEnds(ports, b))
  }

  lemma FedGrows(ports: Ports, b: Bench)
    requires InBounds(b)
    ensures FedStarts(ports, Feed(ports, b)) == FedStarts(ports, b) + StartsOf(Pool(ports, b))
    ensures FedEnds(ports, Feed(ports, b)) == FedEnds(ports, b) + EndsOf(Pool(ports, b))
  {
    PoolIs(ports, b);
    assert b.startPull[..b.fedStart] + b.startPull[b.fedStart..] == b.startPull == b.startPull[..|b.startPull|];
    assert b.endPull[..b.fedEnd] + b.endPull[b.fedEnd..] == b.endPull == b.endPull[..|b.endPull|];
  }

  lemma FeedGives(ports: Ports, b: Bench)
    requires InputsShared(ports, b)
    ensures InputsShared(ports, Feed(ports, b))
  {
    FedGrows(ports, b);
    forall j | 0 <= j < |b.histories|
      ensures StartsOf(b.histories[j] + Pool(ports, b)) == FedStarts(ports, Feed(ports, b))
      ensures EndsOf(b.histories[j] + Pool(ports, b)) == FedEnds(ports, Feed(ports, b))
    {
      InputsConcat(b.histories[j], Pool(ports, b));
    }
  }

  lemma RanGiven(histories: seq<History>, k: nat, starts: seq<InterfaceState>, ends: seq<InterfaceState>)
    requires k < |histories| && AllGiven(histories, starts, ends)
    ensures AllGiven(RanAt(histories, k), starts, ends)
  {
    var h := histories[k];
    assert (h + [Ran])[..|h|] == h;
    assert StartsOf(h) + [] == StartsOf(h) && EndsOf(h) + [] == EndsOf(h);
  }

  /** A pass leaves the pulls and what was fed as feeding leaves them. */
  lemma ComputeFeeds(children: seq<Behaviour>, ports: Ports, b: Bench)
    requires WellShaped(children, b) && b.solutions == []
    ensures var r, fed := Compute(children, ports, b), Feed(ports, b);
            && r.startPull == fed.startPull && r.endPull == fed.endPull
            && r.fedStart == fed.fedStart && r.fedEnd == fed.fedEnd
            && (r.histories == fed.histories
                || exists k :: 0 <= k < |children| && r.histories == RanAt(fed.histories, k))
  {
    var fed := Feed(ports, b);
    if fed.current.Some? {
      var k := Next(children, fed.histories, fed.current.value);
      if k < |children| {
        LiftedAllShape(ports.own, fed.(histories := RanAt(fed.histories, k)), children[k].emits(fed.histories[k]));
        assert Compute(children, ports, b).histories == RanAt(fed.histories, k);
      }
    }
  }

  /** A pass that has no solution yet feeds everything that has arrived, to everybody. */
  lemma ComputeGives(children: seq<Behaviour>, ports: Ports, b: Bench)
    requires WellShaped(children, b) && InputsShared(ports, b)
    ensures InputsShared(ports, Compute(children, ports, b))
    ensures b.solutions == [] ==>
              var r := Compute(children, ports, b);
              r.fedStart == |r.startPull| == |b.startPull| && r.fedEnd == |r.endPull| == |b.endPull|
  {
    if b.solutions == [] {
      FeedGives(ports, b);
      ComputeFeeds(children, ports, b);
      var r, fed := Compute(children, ports, b), Feed(ports, b);
      if r.histories != fed.histories {
        var k :| 0 <= k < |children| && r.histories == RanAt(fed.histories, k);
        RanGiven(fed.histories, k, FedStarts(ports, fed), FedEnds(ports, fed));
      }
    }
  }

  lemma PullGives(ports: Ports, b: Bench, startPull: seq<InterfaceState>, endPull: seq<InterfaceState>)
    requires InputsShared(ports, b) && b.startPull <= startPull && b.endPull <= endPull
    ensures InputsShared(ports, b.(startPull := startPull, endPull := endPull))
  {
    assert startPull[..b.fedStart] == b.startPull[..b.fedStart] && endPull[..b.fedEnd] == b.endPull[..b.fedEnd];
  }

  lemma PerformGives(children: seq<Behaviour>, ports: Ports, b: Bench, c: Command)
    requires WellShaped(children, b) && InputsShared(ports, b)
    ensures InputsShared(ports, Perform(children, ports, b, c))
  {
    match c
    case GiveStart(s) => PullGives(ports, b, Push(b.startPull, s), b.endPull);
    case GiveEnd(s) => PullGives(ports, b, b.startPull, Push(b.endPull, s));
    case Ask =>
    case Work => ComputeGives(children, ports, b);
  }

  /** Over every run each child, tried or not, has been given the same inputs: every state the
      container has fed on, once and in order. */
  lemma {:induction false} AlwaysGiven(children: seq<Behaviour>, ports: Ports, commands: seq<Command>)
    ensures InputsShared(ports, Run(children, ports, commands))
  {
    if commands != [] {
      AlwaysGiven(children, ports, commands[..|commands| - 1]);
      PerformGives(children, ports, Run(children, ports, commands[..|commands| - 1]), commands[|commands| - 1]);
    }
  }

  // ---- what asking says about the next pass ----

  /** The container holds back inputs exactly when there is something to feed. */
  lemma UnfedExactly(ports: Ports, b: Bench)
    requires InBounds(b)
    ensures Unfed(ports, b) <==> Pool(ports, b) != []
  {
  }

  lemma NothingFed(ports: Ports, b: Bench)
    requires InBounds(b) && Pool(ports, b) == []
    ensures Feed(ports, b).histories == b.histories
  {
    forall k | 0 <= k < |b.histories| ensures Feed(ports, b).histories[k] == b.histories[k] {
      assert b.histories[k] + [] == b.histories[k];
    }
  }

  /** A pass that runs child `k`, and none that does. */
  ghost predicate RunsAt(children: seq<Behaviour>, ports: Ports, b: Bench, k: nat)
    requires WellShaped(children, b)
  {
    k < |children| && Compute(children, ports, b).histories == RanAt(b.histories, k)
  }

  lemma RanDiffers(histories: seq<History>, k: nat)
    requires k < |histories|
    ensures RanAt(histories, k) != histories
    ensures forall j :: 0 <= j < |histories| && j != k ==> RanAt(histories, j) != RanAt(histories, k)
  {
    assert |RanAt(histories, k)[k]| == |histories[k]| + 1;
    forall j | 0 <= j < |histories| && j != k ensures RanAt(histories, j) != RanAt(histories, k) {
      assert RanAt(histories, j)[k] == histories[k];
    }
  }

  /** After a pass that ran child `k` the container has stopped if the child has produced something by then; else it
      stays with the child as long as that can compute, and goes on to the next one when it cannot. */
  lemma MovesOnExactly(children: seq<Behaviour>, ports: Ports, b: Bench, k: nat)
    requires WellShaped(children, b) && b.solutions == [] && k < |children|
    requires Compute(children, ports, b).histories == RanAt(Feed(ports, b).histories, k)
    ensures var r := Compute(children, ports, b);
            var found := Produced(children[k], RanAt(Feed(ports, b).histories, k)[k]) != [];
            var more := children[k].can(RanAt(Feed(ports, b).histories, k)[k]);
            r.current == if found then None else if more then Some(k) else Some(k + 1)
  {
    var fed := Feed(ports, b);
    RanDiffers(fed.histories, k);
    if fed.current.Some? {
      var j := Next(children, fed.histories, fed.current.value);
      if j < |children| {
        LiftedAllShape(ports.own, fed.(histories := RanAt(fed.histories, j)), children[j].emits(fed.histories[j]));
      }
    }
  }

  /** Asking says yes when there is something to feed. Otherwise it says yes exactly when the next pass runs the
      child that is being tried, and when it says no the next pass runs none, or one behind that child. */
  lemma AskedExactly(children: seq<Behaviour>, ports: Ports, b: Bench)
    requires WellShaped(children, b)
    ensures Pool(ports, b) != [] ==> Asked(children, ports, b).1
    ensures Pool(ports, b) == [] ==>
              (Asked(children, ports, b).1 <==> b.current.Some? && RunsAt(children, ports, b, b.current.value))
    ensures !Asked(children, ports, b).1 ==>
              || Compute(children, ports, b).histories == b.histories
              || (b.current.Some? && exists k: nat :: k > b.current.value && RunsAt(children, ports, b, k))
  {
    UnfedExactly(ports, b);
    if Pool(ports, b) == [] {
      NothingFed(ports, b);
      if b.current.Some? && b.current.value < |children| {
        RanDiffers(b.histories, b.current.value);
      }
      if b.solutions == [] && b.current.Some? {
        AskedTrying(children, ports, b);
        var k := Next(children, b.histories, b.current.value);
        if b.current.value < k < |children| {
          RanDiffers(b.histories, k);
          assert RunsAt(children, ports, b, k);
        }
      }
    }
  }

  lemma AskedTrying(children: seq<Behaviour>, ports: Ports, b: Bench)
    requires WellShaped(children, b) && Pool(ports, b) == [] && b.solutions == [] && b.current.Some?
    requires Feed(ports, b).histories == b.histories
    ensures var k := Next(children, b.histories, b.current.value);
            && (Asked(children, ports, b).1 <==> k < |children| && k == b.current.value)
            && Compute(children, ports, b).histories == if k < |children| then RanAt(b.histories, k) else b.histories
  {
    var fed := Feed(ports, b);
    var k := Next(children, fed.histories, fed.current.value);
    if k < |children| {
      LiftedAllShape(ports.own, fed.(histories := RanAt(fed.histories, k)), children[k].emits(fed.histories[k]));
    }
  }

  // ---- siblings that are left with their inputs ----

  /** A start among these events after which the child did not run. */
  ghost predicate StartSince(h: History) {
    exists n :: 0 <= n < |h| && h[n].PushedStart? && NeverRan(h[n..])
  }

  /** A propagating child: it can compute when a start has arrived since it last ran. */
  ghost predicate AwaitsStarts(b: Behaviour) {
    forall h: History :: b.can(h) <==> StartSince(h)
  }

  lemma {:induction false} StartsArrived(h: History)
    ensures StartsOf(h) != [] <==> exists n :: 0 <= n < |h| && h[n].PushedStart?
  {
    if h != [] {
      var init := h[..|h| - 1];
      StartsArrived(init);
      if n :| 0 <= n < |h| && h[n].PushedStart? {
        assert n < |init| ==> init[n].PushedStart?;
      }
      if n :| 0 <= n < |init| && init[n].PushedStart? {
        assert h[n].PushedStart?;
      }
    }
  }

  lemma NeverRanSuffix(h: History, n: nat)
    requires NeverRan(h) && n <= |h|
    ensures NeverRan(h[n..])
  {
  }

  lemma {:induction false} PerformedOn(children: seq<Behaviour>, ports: Ports, commands: seq<Command>,
                                       more: seq<Command>)
    ensures PerformAll(children, ports, Run(children, ports, commands), more) == Run(children, ports, commands + more)
  {
    if more == [] {
      assert commands + more == commands;
    } else {
      var init := more[..|more| - 1];
      PerformedOn(children, ports, commands, init);
      assert (commands + more)[..|commands + more| - 1] == commands + init;
    }
  }

  lemma StartSinceOn(h: History, g: History)
    requires NeverRan(g)
    ensures StartSince(h + g) <==> StartSince(h) || StartsOf(g) != []
  {
    StartsArrived(g);
    if n :| 0 <= n < |h| && h[n].PushedStart? && NeverRan(h[n..]) {
      assert (h + g)[n] == h[n] && (h + g)[n..] == h[n..] + g;
    }
    if n :| 0 <= n < |g| && g[n].PushedStart? {
      assert (h + g)[|h| + n] == g[n] && (h + g)[|h| + n..] == g[n..];
      NeverRanSuffix(g, n);
    }
    if n :| 0 <= n < |h + g| && (h + g)[n].PushedStart? && NeverRan((h + g)[n..]) {
      if n < |h| {
        assert (h + g)[n..] == h[n..] + g;
        assert forall k :: 0 <= k < |h[n..]| ==> (h[n..] + g)[k] == h[n..][k];
      } else {
        assert g[n - |h|] == (h + g)[n];
      }
    }
  }

  /** A child that has not run since can compute exactly when it could before or was given a start. */
  lemma AwaitsSince(b: Behaviour, h: History, now: History)
    requires AwaitsStarts(b) && OnlyPushed(h, now)
    ensures b.can(now) <==> b.can(h) || StartsOf(now) != StartsOf(h)
  {
    var g := now[|h|..];
    assert now == h + g;
    StartSinceOn(h, g);
    InputsConcat(h, g);
  }

  /** In a container that gave up, a propagating child can compute for ever exactly when it could at
      that point or the container has fed a start since; no child runs again. */
  lemma GivenUpWaitsExactly(children: seq<Behaviour>, ports: Ports, commands: seq<Command>, more: seq<Command>)
    requires var b := Run(children, ports, commands); b.solutions == [] && b.current.None?
    ensures var b := Run(children, ports, commands);
            var r := PerformAll(children, ports, b, more);
            && r.solutions == [] && r.current.None? && InputsShared(ports, r)
            && forall j :: 0 <= j < |children| && AwaitsStarts(children[j]) ==>
                             (children[j].can(r.histories[j])
                              <==> children[j].can(b.histories[j]) || FedStarts(ports, r) != FedStarts(ports, b))
  {
    var b := Run(children, ports, commands);
    var r := PerformAll(children, ports, b, more);
    GivenUpForEver(children, ports, b, more);
    AlwaysGiven(children, ports, commands);
    PerformedOn(children, ports, commands, more);
    AlwaysGiven(children, ports, commands + more);
    forall j | 0 <= j < |children| && AwaitsStarts(children[j])
      ensures children[j].can(r.histories[j])
              <==> children[j].can(b.histories[j]) || FedStarts(ports, r) != FedStarts(ports, b)
    {
      AwaitsSince(children[j], b.histories[j], r.histories[j]);
    }
  }

  /** A propagating sibling behind the winner can compute for ever exactly when the container has fed
      any start before the winner was found: a loop that waits until no descendant can compute does
      not end. */
  lemma SiblingWaitsExactly(children: seq<Behaviour>, ports: Ports, commands: seq<Command>, more: seq<Command>)
    returns (k: nat)
    requires Run(children, ports, commands).solutions != [] && OnlyWork(more)
    ensures k < |children|
    ensures var b := Run(children, ports, commands);
            var r := PerformAll(children, ports, b, more);
            && FromChild(ports.own, r.solutions, Produced(children[k], r.histories[k]))
            && forall j :: k < j < |children| && AwaitsStarts(children[j]) ==>
                             (children[j].can(r.histories[j]) <==> FedStarts(ports, b) != [])
  {
    k := SolutionsFromOneChild(children, ports, commands);
    var b := Run(children, ports, commands);
    WinnerStopsWork(children, ports, b, more);
    AlwaysGiven(children, ports, commands);
    forall j | k < j < |children| && AwaitsStarts(children[j])
      ensures children[j].can(b.histories[j]) <==> FedStarts(ports, b) != []
    {
      var h := b.histories[j];
      StartsArrived(h);
      if n :| 0 <= n < |h| && h[n].PushedStart? {
        NeverRanSuffix(h, n);
      }
    }
  }

  lemma RunOne(children: seq<Behaviour>, ports: Ports, b: Bench, c: Command)
    requires WellShaped(children, b)
    ensures PerformAll(children, ports, b, [c]) == Perform(children, ports, b, c)
  {
    assert [c][..0] == [];
  }

  lemma OneStart(children: seq<Behaviour>, ports: Ports, s: InterfaceState)
    requires |children| == 2 && ports.start.read
    ensures var b := Run(children, ports, [GiveStart(s)]);
            && b.solutions == [] && b.keys == {} && b.current == Some(0)
            && Feed(ports, b).histories == [[PushedStart(s)], [PushedStart(s)]]
  {
    RunOne(children, ports, Fresh(2), GiveStart(s));
    var b := Run(children, ports, [GiveStart(s)]);
    assert b == Fresh(2).(startPull := Push([], s)) && Push([], s) == [] + [s] == [s];
    assert b.startPull[0..] == [s] && b.endPull[0..] == [];
    assert Pool(ports, b) == [PushedStart(s)] + if ports.end.read then EndEvents([]) else [];
    assert Pool(ports, b) == [PushedStart(s)];
    assert [] + [PushedStart(s)] == [PushedStart(s)];
  }

  /** The first of two children runs and wins. */
  lemma FirstWins(children: seq<Behaviour>, ports: Ports, b: Bench, h: History)
    requires |children| == 2 && WellShaped(children, b) && children[0].can(h)
    requires b.solutions == [] && b.keys == {} && b.current == Some(0) && Feed(ports, b).histories == [h, h]
    requires children[0].emits(h) != []
    ensures var r := Compute(children, ports, b);
            r.solutions != [] && r.histories == [h + [Ran], h] && !Unfed(ports, r)
  {
    var fed := Feed(ports, b);
    assert Next(children, fed.histories, 0) == 0;
    var ran := fed.(histories := RanAt(fed.histories, 0));
    LiftedAllFrom(ports.own, ran, children[0].emits(h), LiftedAll(ports.own, ran, children[0].emits(h)));
    LiftedAllShape(ports.own, ran, children[0].emits(h));
  }

  lemma OneStartAwaited(b: Behaviour, s: InterfaceState)
    requires AwaitsStarts(b)
    ensures b.can([PushedStart(s)])
  {
    var h := [PushedStart(s)];
    assert h[0].PushedStart? && NeverRan(h[0..]);
  }

  ghost predicate SecondWaits(children: seq<Behaviour>, ports: Ports, b: Bench) {
    |children| == 2 && WellShaped(children, b) && !Unfed(ports, b) && children[1].can(b.histories[1])
  }

  lemma WaitsForEver(children: seq<Behaviour>, ports: Ports, b: Bench, more: seq<Command>)
    requires SecondWaits(children, ports, b) && b.solutions != [] && OnlyWork(more)
    ensures SecondWaits(children, ports, PerformAll(children, ports, b, more))
  {
    WinnerStopsWork(children, ports, b, more);
  }

  lemma StartThenWork(children: seq<Behaviour>, ports: Ports, s: InterfaceState, commands: seq<Command>)
    requires |children| == 2 && ports.start.read
    requires children[0].can([PushedStart(s)]) && children[1].can([PushedStart(s)])
    requires children[0].emits([PushedStart(s)]) != [] && commands == [GiveStart(s), Work]
    ensures Run(children, ports, commands).solutions != []
    ensures SecondWaits(children, ports, Run(children, ports, commands))
  {
    assert commands[..1] == [GiveStart(s)];
    OneStart(children, ports, s);
    FirstWins(children, ports, Run(children, ports, [GiveStart(s)]), [PushedStart(s)]);
  }

  /** A run that gets there: one start, one pass, and the first of two propagating children wins. */
  lemma SecondChildWaits(children: seq<Behaviour>, ports: Ports, s: InterfaceState, commands: seq<Command>,
                         more: seq<Command>)
    requires |children| == 2 && ports.start.read && AwaitsStarts(children[0]) && AwaitsStarts(children[1])
    requires children[0].emits([PushedStart(s)]) != []
    requires commands == [GiveStart(s), Work] && OnlyWork(more)
    ensures var b := Run(children, ports, commands);
            b.solutions != [] && SecondWaits(children, ports, PerformAll(children, ports, b, more))
  {
    OneStartAwaited(children[0], s);
    OneStartAwaited(children[1], s);
    StartThenWork(children, ports, s, commands);
    WaitsForEver(children, ports, Run(children, ports, commands), more);
  }

  // ---- a start that comes too late ----

  /** One child, nothing found: what it has seen, what the container was given, and where it stands. */
  ghost predicate OneChild(b: Bench, pull: seq<InterfaceState>, fed: nat, h: History, current: Option<nat>) {
    && b.startPull == pull && b.endPull == [] && b.fedStart == fed && b.fedEnd == 0
    && b.histories == [h] && b.current == current && b.solutions == [] && (current.Some? ==> current.value <= 1)
  }

  lemma OneGiven(children: seq<Behaviour>, ports: Ports, b: Bench, pull: seq<InterfaceState>, h: History,
                 current: Option<nat>, s: InterfaceState)
    requires |children| == 1 && OneChild(b, pull, |pull|, h, current) && !HasKey(pull, s.key)
    ensures OneChild(Perform(children, ports, b, GiveStart(s)), pull + [s], |pull|, h, current)
  {
  }

  lemma OneFed(ports: Ports, b: Bench, pull: seq<InterfaceState>, h: History, current: Option<nat>, s: InterfaceState)
    requires ports.start.read && OneChild(b, pull + [s], |pull|, h, current)
    ensures OneChild(Feed(ports, b), pull + [s], |pull| + 1, h + [PushedStart(s)], current)
  {
    assert (pull + [s])[|pull|..] == [s];
    assert EndEvents(b.endPull[0..]) == [];
    assert Pool(ports, b) == [PushedStart(s)];
  }

  lemma OneTriedInVain(children: seq<Behaviour>, ports: Ports, b: Bench, s: InterfaceState)
    requires |children| == 1 && ports.start.read && OneChild(b, [] + [s], 0, [], Some(0))
    requires children[0].can([PushedStart(s)]) && !children[0].can([PushedStart(s), Ran])
    requires children[0].emits([PushedStart(s)]) == []
    ensures OneChild(Compute(children, ports, b), [s], 1, [PushedStart(s), Ran], Some(1))
  {
    OneFed(ports, b, [], [], Some(0), s);
    var fed, h := Feed(ports, b), [PushedStart(s)];
    assert [] + h == h && h + [Ran] == [PushedStart(s), Ran];
    assert Next(children, fed.histories, 0) == 0;
    ProducedNext(children[0], h);
    assert Produced(children[0], h) == Produced(children[0], []) + [];
  }

  lemma OneMovesPast(children: seq<Behaviour>, ports: Ports, b: Bench, s: InterfaceState, t: InterfaceState)
    requires |children| == 1 && ports.start.read && OneChild(b, [s] + [t], 1, [PushedStart(s), Ran], Some(1))
    ensures OneChild(Compute(children, ports, b), [s, t], 2, [PushedStart(s), Ran, PushedStart(t)], None)
  {
    OneFed(ports, b, [s], [PushedStart(s), Ran], Some(1), t);
    assert [PushedStart(s), Ran] + [PushedStart(t)] == [PushedStart(s), Ran, PushedStart(t)];
    assert [s] + [t] == [s, t];
  }

  lemma RunTo(children: seq<Behaviour>, ports: Ports, commands: seq<Command>, k: nat)
    requires k < |commands|
    ensures Run(children, ports, commands[..k + 1])
            == Perform(children, ports, Run(children, ports, commands[..k]), commands[k])
    ensures k == 0 ==> Run(children, ports, commands[..k]) == Fresh(|children|)
  {
    assert commands[..k + 1][..k] == commands[..k];
  }

  lemma FirstInVain(children: seq<Behaviour>, ports: Ports, s: InterfaceState, commands: seq<Command>)
    requires |children| == 1 && ports.start.read
    requires children[0].can([PushedStart(s)]) && !children[0].can([PushedStart(s), Ran])
    requires children[0].emits([PushedStart(s)]) == []
    requires |commands| > 1 && commands[0] == GiveStart(s) && commands[1] == Work
    ensures OneChild(Run(children, ports, commands[..2]), [s], 1, [PushedStart(s), Ran], Some(1))
  {
    RunTo(children, ports, commands, 0);
    OneGiven(children, ports, Fresh(1), [], [], Some(0), s);
    RunTo(children, ports, commands, 1);
    OneTriedInVain(children, ports, Run(children, ports, commands[..1]), s);
  }

  lemma TooLate(children: seq<Behaviour>, ports: Ports, s: InterfaceState, t: InterfaceState, commands: seq<Command>)
    requires |children| == 1 && ports.start.read && s.key != t.key
    requires |commands| > 3 && commands[2] == GiveStart(t) && commands[3] == Work
    requires OneChild(Run(children, ports, commands[..2]), [s], 1, [PushedStart(s), Ran], Some(1))
    ensures OneChild(Run(children, ports, commands[..4]), [s, t], 2, [PushedStart(s), Ran, PushedStart(t)], None)
  {
    RunTo(children, ports, commands, 2);
    OneGiven(children, ports, Run(children, ports, commands[..2]), [s], [PushedStart(s), Ran], Some(1), t);
    RunTo(children, ports, commands, 3);
    OneMovesPast(children, ports, Run(children, ports, commands[..3]), s, t);
  }

  lemma OneWaits(b: Behaviour, s: InterfaceState, t: InterfaceState)
    requires AwaitsStarts(b)
    ensures b.can([PushedStart(s)]) && !b.can([PushedStart(s), Ran]) && b.can([PushedStart(s), Ran, PushedStart(t)])
  {
    OneStartAwaited(b, s);
    var g, h := [PushedStart(s), Ran], [PushedStart(s), Ran, PushedStart(t)];
    assert g[0..][1] == Ran;
    assert h[2].PushedStart? && NeverRan(h[2..]);
  }

  /** A run that gets there: the only child is tried with one start in vain, and the start that comes
      next is fed to it and never tried, whatever is done from then on. */
  lemma LateStartWaits(children: seq<Behaviour>, ports: Ports, s: InterfaceState, t: InterfaceState,
                       commands: seq<Command>, more: seq<Command>)
    requires |children| == 1 && ports.start.read && s.key != t.key && AwaitsStarts(children[0])
    requires children[0].emits([PushedStart(s)]) == []
    requires commands == [GiveStart(s), Work, GiveStart(t), Work]
    ensures var r := PerformAll(children, ports, Run(children, ports, commands), more);
            && r.solutions == [] && r.current.None? && children[0].can(r.histories[0])
            && OnlyPushed([PushedStart(s), Ran, PushedStart(t)], r.histories[0])
  {
    OneWaits(children[0], s, t);
    FirstInVain(children, ports, s, commands);
    TooLate(children, ports, s, t, commands);
    assert commands[..4] == commands;
    GivenUpForEver(children, ports, Run(children, ports, commands), more);
    GivenUpWaitsExactly(children, ports, commands, more);
  }
}
