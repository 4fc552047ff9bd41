/** The event handlers and the two workers that carry out what they decide: a handler
    hands an operation over on a channel and waits for its result, unless the manager
    is stopping. Built on the lanes, step for step. */
module Workers {
  import opened Wrappers
  import L = Lanes

  datatype Kind = Creation | Deletion

  /** Where the handler of a lane's current event is. */
  datatype Stage = Deciding | Offering(kind: Kind) | Awaiting(kind: Kind, ticket: nat) | Over

  /** createRules and deleteRules; `lane` and `ev` say which handler handed the
      operation over. */
  datatype Worker = Receiving | Operating(ticket: nat, lane: nat, ev: L.Event) | Ended

  /** `core` is the owner with its lanes, `stages` the handler of each lane. Every
      operation has a ticket; `results` are those whose result was sent. */
  datatype System = System(core: L.State, stages: seq<Stage>, create: Worker, delete: Worker,
                           createClosed: bool, deleteClosed: bool, results: set<nat>, next: nat)

  const START := System(L.START, [], Receiving, Receiving, false, false, {}, 0)

  function WorkerOf(s: System, k: Kind): Worker { if k.Creation? then s.create else s.delete }

  function WithWorker(s: System, k: Kind, w: Worker): System
  {
    if k.Creation? then s.(create := w) else s.(delete := w)
  }

  predicate ChannelClosed(s: System, k: Kind) { if k.Creation? then s.createClosed else s.deleteClosed }

  datatype Act =
    | Core(a: L.Act)
    | Decide(l: nat, kind: Kind) | Ignore(l: nat) | HandOver(l: nat) | GiveUp(l: nat) | Collect(l: nat) | Return(l: nat)
    | Finish(k: Kind) | CloseDelete | CloseCreate | End(k: Kind)

  predicate Handles(s: System, l: nat)
  {
    l < |s.core.lanes| && l < |s.stages| && s.core.lanes[l].worker.Handling?
  }

  /** The lanes' own steps; a new event starts its handler. */
  function CoreStep(s: System, a: L.Act): Option<System>
  {
    var t := L.Step(s.core, a);
    if t.None? || a.Return? then None
    else if a.Take? && a.l < |s.stages| then Some(s.(core := t.value, stages := s.stages[a.l := Deciding]))
    else if |t.value.lanes| > |s.stages| then Some(s.(core := t.value, stages := s.stages + [Over]))
    else Some(s.(core := t.value))
  }

  /** handleDockerEvent and awaitContainerDelete: both selects give up when stopping. */
  function HandlerStep(s: System, act: Act): Option<System>
  {
    match act
    case Decide(l, k) => if Handles(s, l) && s.stages[l].Deciding? then Some(s.(stages := s.stages[l := Offering(k)])) else None
    case Ignore(l) => if Handles(s, l) && s.stages[l].Deciding? then Some(s.(stages := s.stages[l := Over])) else None
    case HandOver(l) =>
      if Handles(s, l) && s.stages[l].Offering? && WorkerOf(s, s.stages[l].kind).Receiving? && !ChannelClosed(s, s.stages[l].kind) then
        var k := s.stages[l].kind;
        Some(WithWorker(s, k, Operating(s.next, l, s.core.lanes[l].worker.ev))
             .(stages := s.stages[l := Awaiting(k, s.next)], next := s.next + 1))
      else None
    case GiveUp(l) =>
      if Handles(s, l) && s.core.stopping && (s.stages[l].Offering? || s.stages[l].Awaiting?)
      then Some(s.(stages := s.stages[l := Over])) else None
    case Collect(l) =>
      if Handles(s, l) && s.stages[l].Awaiting? && s.stages[l].ticket in s.results
      then Some(s.(stages := s.stages[l := Over])) else None
    case Return(l) =>
      if Handles(s, l) && s.stages[l].Over? && L.Step(s.core, L.Return(l)).Some?
      then Some(s.(core := L.Step(s.core, L.Return(l)).value)) else None
    case _ => None
  }

  /** The result channel has room for the one result, so sending it never blocks.
      The channels are closed after watchDocker returned, the later defer first. */
  function ServiceStep(s: System, act: Act): Option<System>
  {
    match act
    case Finish(k) =>
      if WorkerOf(s, k).Operating?
      then Some(WithWorker(s, k, Receiving).(results := s.results + {WorkerOf(s, k).ticket})) else None
    case CloseDelete => if s.core.owner.Gone? && !s.deleteClosed then Some(s.(deleteClosed := true)) else None
    case CloseCreate => if s.deleteClosed && !s.createClosed then Some(s.(createClosed := true)) else None
    case End(k) => if WorkerOf(s, k).Receiving? && ChannelClosed(s, k) then Some(WithWorker(s, k, Ended)) else None
    case _ => None
  }

  function Step(s: System, act: Act): Option<System>
  {
    match act
    case Core(a) => CoreStep(s, a)
    case Finish(_) => ServiceStep(s, act)
    case CloseDelete => ServiceStep(s, act)
    case CloseCreate => ServiceStep(s, act)
    case End(_) => ServiceStep(s, act)
    case _ => HandlerStep(s, act)
  }

  function Run(s: System, acts: seq<Act>): Option<System>
  {
    if acts == [] then Some(s)
    else
      var r := Run(s, acts[..|acts| - 1]);
      if r.None? then None else Step(r.value, acts[|acts| - 1])
  }

  // ----- the lanes inside -----

  /** What the lanes see of an act. */
  function LaneActs(act: Act): seq<L.Act>
  {
    if act.Core? then [act.a] else if act.Return? then [L.Return(act.l)] else []
  }

  function AllLaneActs(acts: seq<Act>): seq<L.Act>
  {
    if acts == [] then [] else AllLaneActs(acts[..|acts| - 1]) + LaneActs(acts[|acts| - 1])
  }

  lemma LanesRunSnoc(acts: seq<L.Act>, a: L.Act)
    ensures L.Run(L.START, acts + [a]) ==
            var r := L.Run(L.START, acts); if r.None? then None else L.Step(r.value, a)
  {
    assert (acts + [a])[..|acts|] == acts;
  }

  lemma StepIsLaneStep(s: System, act: Act)
    requires Step(s, act).Some?
    ensures var t := Step(s, act).value;
            if act.Core? then L.Step(s.core, act.a) == Some(t.core)
            else if act.Return? then L.Step(s.core, L.Return(act.l)) == Some(t.core)
            else t.core == s.core
  {
  }

  /** A run of the system is a run of the lanes, with handlers and workers beside it. */
  lemma {:induction false} RunsAreLaneRuns(acts: seq<Act>)
    requires Run(START, acts).Some?
    ensures L.Run(L.START, AllLaneActs(acts)) == Some(Run(START, acts).value.core)
  {
    if acts != [] {
      var n := |acts| - 1;
      RunsAreLaneRuns(acts[..n]);
      StepIsLaneStep(Run(START, acts[..n]).value, acts[n]);
      var before, more := AllLaneActs(acts[..n]), LaneActs(acts[n]);
      if more == [] { assert before + more == before; } else { LanesRunSnoc(before, more[0]); }
    }
  }

  // ----- the invariant -----

  /** Unless the manager is stopping, the handler that handed an operation over waits
      for it, on the event it was handed over for. */
  predicate Attended(s: System, k: Kind)
  {
    WorkerOf(s, k).Operating? ==>
      var op := WorkerOf(s, k);
      && op.ticket < s.next && op.ticket !in s.results
      && (!s.core.stopping ==>
            Handles(s, op.lane) && s.core.lanes[op.lane].worker.ev == op.ev && s.stages[op.lane] == Awaiting(k, op.ticket))
  }

  ghost predicate Inv(s: System)
  {
    && L.Inv(s.core) && |s.stages| == |s.core.lanes|
    && Attended(s, Creation) && Attended(s, Deletion)
    && (s.create.Operating? && s.delete.Operating? ==> s.create.ticket != s.delete.ticket)
    && (forall t :: t in s.results ==> t < s.next)
    && (s.createClosed ==> s.deleteClosed) && (s.deleteClosed ==> s.core.owner.Gone?)
    && (s.create.Ended? ==> s.createClosed) && (s.delete.Ended? ==> s.deleteClosed)
  }

  /** Apart from Return, the lanes' steps leave a handler in its event. */
  lemma HandlersStay(s: L.State, a: L.Act, l: nat)
    requires L.Step(s, a).Some? && !a.Return? && l < |s.lanes| && s.lanes[l].worker.Handling?
    ensures var t := L.Step(s, a).value; l < |t.lanes| && t.lanes[l].worker == s.lanes[l].worker
  {
  }

  lemma LanesGrow(s: L.State, a: L.Act)
    requires L.Step(s, a).Some?
    ensures var t := L.Step(s, a).value;
            && |s.lanes| <= |t.lanes| <= |s.lanes| + 1 && (a.Take? ==> a.l < |s.lanes| == |t.lanes| && s.lanes[a.l].worker.Ready?)
            && (s.stopping ==> t.stopping) && (s.owner.Gone? ==> t.owner.Gone?)
  {
  }

  lemma CoreKeepsAttended(s: System, a: L.Act, k: Kind)
    requires Inv(s) && CoreStep(s, a).Some?
    ensures Attended(CoreStep(s, a).value, k)
  {
    LanesGrow(s.core, a);
    assert Attended(s, k);
    if WorkerOf(s, k).Operating? && !s.core.stopping { HandlersStay(s.core, a, WorkerOf(s, k).lane); }
  }

  lemma CoreKeepsInv(s: System, a: L.Act)
    requires Inv(s) && CoreStep(s, a).Some?
    ensures Inv(CoreStep(s, a).value)
  {
    L.StepKeepsInv(s.core, a);
    LanesGrow(s.core, a);
    CoreKeepsAttended(s, a, Creation);
    CoreKeepsAttended(s, a, Deletion);
  }

  lemma HandlerKeepsInv(s: System, act: Act)
    requires Inv(s) && HandlerStep(s, act).Some?
    ensures Inv(HandlerStep(s, act).value)
  {
    if act.Return? {
      L.StepKeepsInv(s.core, L.Return(act.l));
      LanesGrow(s.core, L.Return(act.l));
    }
  }

  lemma StepKeepsInv(s: System, act: Act)
    requires Inv(s) && Step(s, act).Some?
    ensures Inv(Step(s, act).value)
  {
    match act
    case Core(a) => CoreKeepsInv(s, a);
    case Finish(_) =>
    case CloseDelete =>
    case CloseCreate =>
    case End(_) =>
    case _ => HandlerKeepsInv(s, act);
  }

  lemma {:induction false} RunsKeepInv(acts: seq<Act>)
    requires Run(START, acts).Some?
    ensures Inv(Run(START, acts).value)
  {
    if acts == [] {
      L.StartIsSound();
    } else {
      RunsKeepInv(acts[..|acts| - 1]);
      StepKeepsInv(Run(START, acts[..|acts| - 1]).value, acts[|acts| - 1]);
    }
  }

  // ----- what every interleaving guarantees -----

  /** While reconciliation runs, no event-driven creation or deletion does, unless
      the manager is stopping; and none begins in any case. */
  lemma ReconcileRunsAlone(acts: seq<Act>, l: nat)
    requires Run(START, acts).Some? && Run(START, acts).value.core.owner.Reconciling?
    ensures var s := Run(START, acts).value;
            && (s.create.Operating? || s.delete.Operating? ==> s.core.stopping)
            && Step(s, HandOver(l)).None?
  {
    RunsKeepInv(acts);
    var s := Run(START, acts).value;
    assert Attended(s, Creation) && Attended(s, Deletion);
    forall i | 0 <= i < |s.core.lanes| ensures !s.core.lanes[i].worker.Handling? { assert L.Resting(s.core.lanes[i]); }
  }

  /** The operations of both workers, while the manager is not stopping. */
  lemma OperationsAreApart(acts: seq<Act>, k: Kind, o: Kind)
    requires Run(START, acts).Some? && !Run(START, acts).value.core.stopping && k != o
    requires WorkerOf(Run(START, acts).value, k).Operating? && WorkerOf(Run(START, acts).value, o).Operating?
    ensures var s := Run(START, acts).value;
            var x, y := WorkerOf(s, k).lane, WorkerOf(s, o).lane;
            x < |s.core.lanes| && y < |s.core.lanes| && s.core.lanes[x].container != s.core.lanes[y].container
  {
    RunsKeepInv(acts);
    RunsAreLaneRuns(acts);
    var s := Run(START, acts).value;
    assert Attended(s, k) && Attended(s, o);
    var x, y := WorkerOf(s, k).lane, WorkerOf(s, o).lane;
    if s.core.lanes[x].container == s.core.lanes[y].container { L.OneInFlight(AllLaneActs(acts), x, y); }
  }

  /** The operation is for the event of its container that began last. */
  ghost predicate OnLatestEvent(s: System, op: Worker, delivered: seq<L.Event>)
    requires op.Operating? && op.lane < |s.core.lanes|
  {
    var c := s.core.lanes[op.lane].container;
    && L.Get(s.core.begun, c) != [] && L.Get(s.core.begun, c)[|L.Get(s.core.begun, c)| - 1] == op.ev
    && L.Get(s.core.begun, c) <= L.Get(s.core.accepted, c) <= delivered
  }

  lemma OperatesOnLatest(acts: seq<Act>, k: Kind)
    requires Run(START, acts).Some? && !Run(START, acts).value.core.stopping && WorkerOf(Run(START, acts).value, k).Operating?
    ensures var s := Run(START, acts).value;
            var op := WorkerOf(s, k);
            op.lane < |s.core.lanes| && OnLatestEvent(s, op, L.Delivered(AllLaneActs(acts), s.core.lanes[op.lane].container))
  {
    RunsKeepInv(acts);
    RunsAreLaneRuns(acts);
    var s := Run(START, acts).value;
    assert Attended(s, k);
    L.HandledInStreamOrder(AllLaneActs(acts), s.core.lanes[WorkerOf(s, k).lane].container);
  }

  /** Unless the manager is stopping, operations on one container run one at a time
      and in stream order: each is for the event of the container that began last. */
  lemma OneOperationPerContainer(acts: seq<Act>, k: Kind, o: Kind)
    requires Run(START, acts).Some? && !Run(START, acts).value.core.stopping && WorkerOf(Run(START, acts).value, k).Operating?
    ensures var s := Run(START, acts).value;
            var op := WorkerOf(s, k);
            && op.lane < |s.core.lanes|
            && var c := s.core.lanes[op.lane].container;
               && OnLatestEvent(s, op, L.Delivered(AllLaneActs(acts), c))
               && (o != k && WorkerOf(s, o).Operating? ==>
                     WorkerOf(s, o).lane < |s.core.lanes| && s.core.lanes[WorkerOf(s, o).lane].container != c)
  {
    OperatesOnLatest(acts, k);
    if o != k && WorkerOf(Run(START, acts).value, o).Operating? { OperationsAreApart(acts, k, o); }
  }

  /** A channel is closed only when every handler has returned for good and every
      accepted event was handled, so no handler ever sends on a closed channel. */
  lemma ChannelsCloseLast(acts: seq<Act>, k: Kind, l: nat, c: string)
    requires Run(START, acts).Some?
    ensures var s := Run(START, acts).value;
            && (Handles(s, l) && s.stages[l].Offering? ==> !ChannelClosed(s, s.stages[l].kind) && !WorkerOf(s, s.stages[l].kind).Ended?)
            && (ChannelClosed(s, k) ==> && L.Get(s.core.begun, c) == L.Get(s.core.accepted, c)
                                        && forall i :: 0 <= i < |s.core.lanes| ==> s.core.lanes[i].worker.Exited?)
            && (WorkerOf(s, k).Ended? ==> ChannelClosed(s, k))
  {
    RunsKeepInv(acts);
    RunsAreLaneRuns(acts);
    L.HandlersReturnFirst(AllLaneActs(acts), c);
  }

  // ----- no result is lost -----

  /** The operation that a handler waits for is under way, or its result is there. */
  predicate Answered(s: System, l: nat)
  {
    Handles(s, l) && s.stages[l].Awaiting? ==>
      var k, ticket := s.stages[l].kind, s.stages[l].ticket;
      ticket in s.results || (WorkerOf(s, k).Operating? && WorkerOf(s, k).ticket == ticket)
  }

  lemma StepKeepsAnswered(s: System, act: Act, l: nat)
    requires Inv(s) && (forall i :: Answered(s, i)) && Step(s, act).Some?
    ensures Answered(Step(s, act).value, l)
  {
    assert Answered(s, l);
    if act.Core? {
      LanesGrow(s.core, act.a);
      if l < |s.core.lanes| && !(act.a.Take? && act.a.l == l) { NoNewHandler(s.core, act.a, l); }
    } else if act.Return? {
      LanesGrow(s.core, L.Return(act.l));
    }
  }

  lemma NoNewHandler(s: L.State, a: L.Act, l: nat)
    requires L.Step(s, a).Some? && l < |s.lanes| && !(a.Take? && a.l == l)
    ensures var t := L.Step(s, a).value; l < |t.lanes| && (t.lanes[l].worker.Handling? ==> s.lanes[l].worker.Handling?)
  {
  }

  /** In every run, whoever waits for a result is owed one by a worker that is at it,
      or can collect it. */
  lemma {:induction false} NoResultIsLost(acts: seq<Act>, l: nat)
    requires Run(START, acts).Some?
    ensures Answered(Run(START, acts).value, l)
  {
    if acts != [] {
      var n := |acts| - 1;
      forall i ensures Answered(Run(START, acts[..n]).value, i) { NoResultIsLost(acts[..n], i); }
      RunsKeepInv(acts[..n]);
      StepKeepsAnswered(Run(START, acts[..n]).value, acts[n], l);
    }
  }

  lemma HandlerGoesOn(s: System, l: nat) returns (act: Act)
    requires Handles(s, l) && Answered(s, l) && L.Step(s.core, L.Return(l)).Some?
    requires s.stages[l].Offering? ==> !ChannelClosed(s, s.stages[l].kind) && !WorkerOf(s, s.stages[l].kind).Ended?
    ensures Step(s, act).Some? && (act in {Ignore(l), HandOver(l), Collect(l), Return(l)} || act.Finish?)
  {
    match s.stages[l]
    case Deciding => act := Ignore(l);
    case Offering(k) => act := if WorkerOf(s, k).Receiving? then HandOver(l) else Finish(k);
    case Awaiting(k, ticket) => act := if ticket in s.results then Collect(l) else Finish(k);
    case Over => act := Return(l);
  }

  /** So a handler can always be brought on, by itself or by the worker it needs. */
  lemma HandlersGoOn(acts: seq<Act>, l: nat) returns (act: Act)
    requires Run(START, acts).Some? && Handles(Run(START, acts).value, l)
    ensures Step(Run(START, acts).value, act).Some? && (act in {Ignore(l), HandOver(l), Collect(l), Return(l)} || act.Finish?)
  {
    NoResultIsLost(acts, l);
    ChannelsCloseLast(acts, Creation, l, "");
    act := HandlerGoesOn(Run(START, acts).value, l);
  }

  // ----- in shutdown -----

  /** The run may go on with this step. */
  lemma RunOn(acts: seq<Act>, act: Act) returns (longer: seq<Act>)
    requires Run(START, acts).Some? && Step(Run(START, acts).value, act).Some?
    ensures longer == acts + [act] && Run(START, longer) == Step(Run(START, acts).value, act)
  {
    longer := acts + [act];
    assert longer[..|acts|] == acts;
  }

  /** A system with one lane, open or closed, after a run. */
  ghost predicate Looks(acts: seq<Act>, lane: L.Lane, owner: L.Owner, activeN: int, stopping: bool, stage: Stage, operating: bool)
  {
    && Run(START, acts).Some?
    && var s := Run(START, acts).value;
       && |s.core.lanes| == 1 && s.core.lanes[0] == lane && s.core.open == (if lane.closed then map[] else map[lane.container := 0])
       && s.core.owner == owner && s.core.activeN == activeN && s.core.stopping == stopping
       && |s.stages| == 1 && s.stages[0] == stage && !s.createClosed && (if operating then s.create.Operating? else s.create.Receiving?)
  }

  function Lane1(queue: seq<L.Event>, closed: bool, pending: int, worker: L.Worker): L.Lane
  {
    L.Lane("c", queue, closed, pending, worker)
  }

  /** An event arrives, and its lane is opened. */
  lemma LaneOpens() returns (acts: seq<Act>)
    ensures Looks(acts, Lane1([], false, 0, L.Ready), L.Picked(0, 0), 0, false, Over, false)
  {
    acts := RunOn([], Core(L.Receive("c", 0)));
    acts := RunOn(acts, Core(L.Reaped));
  }

  /** The event is dispatched. */
  lemma Dispatched() returns (acts: seq<Act>)
    ensures Looks(acts, Lane1([0], false, 1, L.Ready), L.Idle, 1, false, Over, false)
  {
    acts := LaneOpens();
    acts := RunOn(acts, Core(L.IncPending));
    acts := RunOn(acts, Core(L.IncActive));
    acts := RunOn(acts, Core(L.Send));
  }

  /** Its handler hands a creation over. */
  lemma HandedOver() returns (acts: seq<Act>)
    ensures exists t :: Looks(acts, Lane1([], false, 1, L.Handling(0)), L.Idle, 1, false, Awaiting(Creation, t), true)
  {
    acts := Dispatched();
    acts := RunOn(acts, Core(L.Take(0)));
    assert Looks(acts, Lane1([], false, 1, L.Handling(0)), L.Idle, 1, false, Deciding, false);
    acts := RunOn(acts, Decide(0, Creation));
    acts := RunOn(acts, HandOver(0));
    var t := Run(START, acts).value.stages[0].ticket;
    assert Looks(acts, Lane1([], false, 1, L.Handling(0)), L.Idle, 1, false, Awaiting(Creation, t), true);
  }

  /** The manager is told to stop, and the handler gives up. */
  lemma GivenUp() returns (acts: seq<Act>)
    ensures Looks(acts, Lane1([], false, 1, L.Handling(0)), L.Idle, 1, true, Over, true)
  {
    acts := HandedOver();
    acts := RunOn(acts, Core(L.Stop));
    acts := RunOn(acts, GiveUp(0));
  }

  lemma Returned() returns (acts: seq<Act>)
    ensures Looks(acts, Lane1([], false, 1, L.Settling), L.Idle, 1, true, Over, true)
  {
    acts := GivenUp();
    acts := RunOn(acts, Return(0));
  }

  /** Its lane becomes idle. */
  lemma LaneIdle() returns (acts: seq<Act>)
    ensures Looks(acts, Lane1([], false, 0, L.Ready), L.Idle, 0, true, Over, true)
  {
    acts := Returned();
    acts := RunOn(acts, Core(L.DecPending(0)));
    acts := RunOn(acts, Core(L.DecActive(0)));
  }

  /** In shutdown they do overlap: a tick that the owner sees before the stop starts
      reconciliation while the creation still runs. */
  lemma OverlapInShutdown() returns (acts: seq<Act>)
    ensures Run(START, acts).Some?
    ensures var s := Run(START, acts).value; s.core.owner.Reconciling? && s.create.Operating? && s.core.stopping
  {
    acts := LaneIdle();
    acts := RunOn(acts, Core(L.Timer));
    assert Run(START, acts).value.core.owner.todo == {"c"};
    acts := RunOn(acts, Core(L.Visit("c")));
    assert Looks(acts, Lane1([], true, 0, L.Ready), L.Reaping({}, L.Tick), 0, true, Over, true);
    acts := RunOn(acts, Core(L.Reaped));
    acts := RunOn(acts, Core(L.Check));
  }

  /** What a lane's goroutine and handler can do next, unless it waits for events. */
  lemma LaneGoesOn(s: System, l: nat) returns (act: Act)
    requires Inv(s) && s.core.stopping && l < |s.core.lanes| && !s.core.lanes[l].worker.Exited?
    requires s.core.lanes[l].closed || !s.core.lanes[l].worker.Ready?
    ensures act != Core(L.Stop) && Step(s, act).Some?
  {
    var lane := s.core.lanes[l];
    assert L.LaneSound(s.core, l);
    match lane.worker
    case Ready => act := if lane.queue != [] then Core(L.Take(l)) else Core(L.Exit(l));
    case Handling(_) =>
      match s.stages[l] {
        case Deciding => act := Ignore(l);
        case Over => act := Return(l);
        case _ => act := GiveUp(l);
      }
    case Settling => act := Core(L.DecPending(l));
    case Settled => act := Core(L.DecActive(l));
  }

  lemma ClosingGoesOn(s: L.State) returns (a: L.Act)
    requires L.Inv(s) && s.owner.Closing?
    ensures (a.CloseLane? || a.AllClosed?) && L.Step(s, a).Some?
  {
    if c :| c in s.open {
      assert L.OpenSound(s, c) && L.HistorySound(s, c);
      a := L.CloseLane(c);
    } else {
      a := L.AllClosed;
    }
  }

  lemma OwnerActs(s: L.State) returns (a: L.Act)
    requires L.Inv(s) && s.stopping && !s.owner.Gone? && !s.owner.Draining?
    ensures !a.Stop? && !a.Return? && !a.Take? && L.Step(s, a).Some?
  {
    match s.owner
    case Idle => a := L.Leave;
    case Reaping(todo, _) => if c :| c in todo { a := L.Visit(c); } else { a := L.Reaped; }
    case Picked(_, _) => a := L.IncPending;
    case Counted(_, _) => a := L.IncActive;
    case Sending(_, _) => a := L.Abort;
    case Aborting => a := L.Aborted;
    case Checking => a := L.Check;
    case Reconciling => a := L.Reconciled;
    case Closing => a := ClosingGoesOn(s);
  }

  lemma OwnerGoesOn(s: System) returns (act: Act)
    requires Inv(s) && s.core.stopping && !s.core.owner.Gone?
    ensures act != Core(L.Stop) && Step(s, act).Some?
  {
    if s.core.owner.Draining? { act := DrainingGoesOn(s); } else {
      var a := OwnerActs(s.core);
      act := Core(a);
    }
  }

  lemma DrainingGoesOn(s: System) returns (act: Act)
    requires Inv(s) && s.core.stopping && s.core.owner.Draining?
    ensures act != Core(L.Stop) && Step(s, act).Some?
  {
    if l :| 0 <= l < |s.core.lanes| && !s.core.lanes[l].worker.Exited? {
      assert L.LaneSound(s.core, l);
      act := LaneGoesOn(s, l);
    } else {
      act := Core(L.Drained);
    }
  }

  /** Shutdown never gets stuck: until both workers have ended, something other
      than another stop can happen. */
  lemma ShutdownGoesOn(acts: seq<Act>) returns (act: Act)
    requires Run(START, acts).Some? && Run(START, acts).value.core.stopping
    requires var s := Run(START, acts).value; !s.create.Ended? || !s.delete.Ended?
    ensures act != Core(L.Stop) && Step(Run(START, acts).value, act).Some?
  {
    RunsKeepInv(acts);
    var s := Run(START, acts).value;
    if !s.core.owner.Gone? { act := OwnerGoesOn(s); }
    else if !s.deleteClosed { act := CloseDelete; }
    else if !s.createClosed { act := CloseCreate; }
    else {
      var k := if s.create.Ended? then Deletion else Creation;
      act := if WorkerOf(s, k).Operating? then Finish(k) else End(k);
    }
  }
}
