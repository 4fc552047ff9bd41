/** The event lanes: Docker's event stream is split by container, each lane is
    drained by one worker, idle lanes are closed and opened again, and periodic
    reconciliation waits until nothing is active. One owner, any number of workers. */
module Lanes {
  import opened Wrappers

  type Event = nat

  const DEPTH := 16

  /** Settling: the handler has returned. Settled: the lane's counter has been
      decremented, the aggregate counter not yet. */
  datatype Worker = Ready | Handling(ev: Event) | Settling | Settled | Exited

  datatype Lane = Lane(container: string, queue: seq<Event>, closed: bool, pending: int, worker: Worker)

  datatype Goal = Accept(container: string, ev: Event) | Tick

  /** What the watching goroutine is doing. Counted: the lane's counter includes the
      event, the aggregate does not. Aborting: the other way round. */
  datatype Owner =
    | Idle | Reaping(todo: set<string>, goal: Goal)
    | Picked(lane: nat, ev: Event) | Counted(lane: nat, ev: Event) | Sending(lane: nat, ev: Event) | Aborting
    | Checking | Reconciling
    | Closing | Draining | Gone

  /** `lanes` holds every lane ever opened; `open` is the dispatcher's map; `latest`
      the last lane of each container. `accepted` and `begun` record, by container,
      the events put into a lane and the events whose handling began. */
  datatype State = State(lanes: seq<Lane>, open: map<string, nat>, latest: map<string, nat>, activeN: int, owner: Owner,
                         stopping: bool, accepted: map<string, seq<Event>>, begun: map<string, seq<Event>>)

  const START := State([], map[], map[], 0, Idle, false, map[], map[])

  function Get(m: map<string, seq<Event>>, c: string): seq<Event>
  {
    if c in m then m[c] else []
  }

  datatype Act =
    | Receive(c: string, event: Event) | Timer | Visit(id: string) | Reaped
    | IncPending | IncActive | Send | Abort | Aborted | Check | Reconciled
    | Leave | CloseLane(name: string) | AllClosed | Drained | Stop
    | Take(l: nat) | Exit(l: nat) | Return(l: nat) | DecPending(l: nat) | DecActive(l: nat)

  function WithLane(s: State, l: nat, lane: Lane): State
    requires l < |s.lanes|
  {
    s.(lanes := s.lanes[l := lane])
  }

  // ----- the owner -----

  /** reapIdle looks at one lane after the other. */
  function VisitLane(s: State, c: string): State
    requires s.owner.Reaping?
  {
    var t := s.(owner := s.owner.(todo := s.owner.todo - {c}));
    if c in s.open && s.open[c] < |s.lanes| && s.lanes[s.open[c]].pending == 0
    then Close(t, c) else t
  }

  function Close(s: State, c: string): State
    requires c in s.open && s.open[c] < |s.lanes|
  {
    WithLane(s, s.open[c], s.lanes[s.open[c]].(closed := true)).(open := s.open - {c})
  }

  /** The lane of the container, opened if there is none. */
  function Pick(s: State, c: string, ev: Event): State
  {
    if c in s.open then s.(owner := Picked(s.open[c], ev))
    else
      var l := |s.lanes|;
      s.(lanes := s.lanes + [Lane(c, [], false, 0, Ready)], open := s.open[c := l], latest := s.latest[c := l],
         owner := Picked(l, ev))
  }

  function OwnerStep(s: State, a: Act): Option<State>
  {
    match a
    case Receive(c, ev) => if s.owner.Idle? then Some(s.(owner := Reaping(s.open.Keys, Accept(c, ev)))) else None
    case Timer => if s.owner.Idle? then Some(s.(owner := Reaping(s.open.Keys, Tick))) else None
    case Visit(c) => if s.owner.Reaping? && c in s.owner.todo then Some(VisitLane(s, c)) else None
    case Reaped =>
      if !s.owner.Reaping? || s.owner.todo != {} then None
      else if s.owner.goal.Tick? then Some(s.(owner := Checking))
      else Some(Pick(s, s.owner.goal.container, s.owner.goal.ev))
    case IncPending =>
      if s.owner.Picked? && s.owner.lane < |s.lanes|
      then Some(WithLane(s, s.owner.lane, s.lanes[s.owner.lane].(pending := s.lanes[s.owner.lane].pending + 1))
                .(owner := Counted(s.owner.lane, s.owner.ev)))
      else None
    case IncActive =>
      if s.owner.Counted? then Some(s.(activeN := s.activeN + 1, owner := Sending(s.owner.lane, s.owner.ev))) else None
    case Send =>
      if s.owner.Sending? && s.owner.lane < |s.lanes| && |s.lanes[s.owner.lane].queue| < DEPTH then
        var lane := s.lanes[s.owner.lane];
        Some(WithLane(s, s.owner.lane, lane.(queue := lane.queue + [s.owner.ev]))
             .(owner := Idle, accepted := s.accepted[lane.container := Get(s.accepted, lane.container) + [s.owner.ev]]))
      else None
    case Abort =>
      if s.owner.Sending? && s.owner.lane < |s.lanes| && s.stopping
      then Some(WithLane(s, s.owner.lane, s.lanes[s.owner.lane].(pending := s.lanes[s.owner.lane].pending - 1)).(owner := Aborting))
      else None
    case Aborted => if s.owner.Aborting? then Some(s.(activeN := s.activeN - 1, owner := Closing)) else None
    case Check => if s.owner.Checking? then Some(s.(owner := if s.activeN != 0 then Idle else Reconciling)) else None
    case Reconciled => if s.owner.Reconciling? then Some(s.(owner := Idle)) else None
    case Leave => if s.owner.Idle? && s.stopping then Some(s.(owner := Closing)) else None
    case CloseLane(c) => if s.owner.Closing? && c in s.open && s.open[c] < |s.lanes| then Some(Close(s, c)) else None
    case AllClosed => if s.owner.Closing? && s.open == map[] then Some(s.(owner := Draining)) else None
    case Drained =>
      if s.owner.Draining? && forall l :: 0 <= l < |s.lanes| ==> s.lanes[l].worker.Exited? then Some(s.(owner := Gone)) else None
    case Stop => Some(s.(stopping := true))
    case _ => None
  }

  // ----- the workers -----

  function WorkerStep(s: State, a: Act): Option<State>
  {
    match a
    case Take(l) =>
      if l < |s.lanes| && s.lanes[l].worker.Ready? && s.lanes[l].queue != [] then
        var lane := s.lanes[l];
        Some(WithLane(s, l, lane.(worker := Handling(lane.queue[0]), queue := lane.queue[1..]))
             .(begun := s.begun[lane.container := Get(s.begun, lane.container) + [lane.queue[0]]]))
      else None
    case Exit(l) =>
      if l < |s.lanes| && s.lanes[l].worker.Ready? && s.lanes[l].queue == [] && s.lanes[l].closed
      then Some(WithLane(s, l, s.lanes[l].(worker := Exited))) else None
    case Return(l) =>
      if l < |s.lanes| && s.lanes[l].worker.Handling? then Some(WithLane(s, l, s.lanes[l].(worker := Settling))) else None
    case DecPending(l) =>
      if l < |s.lanes| && s.lanes[l].worker.Settling?
      then Some(WithLane(s, l, s.lanes[l].(worker := Settled, pending := s.lanes[l].pending - 1))) else None
    case DecActive(l) =>
      if l < |s.lanes| && s.lanes[l].worker.Settled?
      then Some(WithLane(s, l, s.lanes[l].(worker := Ready)).(activeN := s.activeN - 1)) else None
    case _ => None
  }

  predicate IsWorkerAct(a: Act) { a.Take? || a.Exit? || a.Return? || a.DecPending? || a.DecActive? }

  function Step(s: State, a: Act): Option<State>
  {
    if IsWorkerAct(a) then WorkerStep(s, a) else OwnerStep(s, a)
  }

  function Run(s: State, acts: seq<Act>): Option<State>
  {
    if acts == [] then Some(s)
    else
      var r := Run(s, acts[..|acts| - 1]);
      if r.None? then None else Step(r.value, acts[|acts| - 1])
  }

  // ----- the invariant -----

  predicate InFlight(lane: Lane) { lane.worker.Handling? || lane.worker.Settling? }

  predicate Resting(lane: Lane) { lane.queue == [] && !InFlight(lane) }

  predicate Shutting(o: Owner) { o.Closing? || o.Draining? || o.Gone? }

  /** The owner is about to put an event it has counted into this lane. */
  predicate Offered(s: State, l: nat)
  {
    (s.owner.Counted? || s.owner.Sending?) && s.owner.lane == l
  }

  function One(b: bool): int { if b then 1 else 0 }

  predicate LaneSound(s: State, l: nat)
    requires l < |s.lanes|
  {
    var lane := s.lanes[l];
    && lane.pending == |lane.queue| + One(InFlight(lane)) + One(Offered(s, l))
    && lane.container in s.latest && l <= s.latest[lane.container]
    && (l < s.latest[lane.container] ==> lane.closed && Resting(lane))
    && (!lane.closed <==> lane.container in s.open && s.open[lane.container] == l)
    && (lane.closed && !Shutting(s.owner) ==> Resting(lane))
    && (lane.worker.Exited? ==> lane.closed && lane.queue == [])
  }

  /** What was accepted is what was begun, followed by what is queued, in order. */
  predicate HistorySound(s: State, c: string)
  {
    if c in s.latest
    then && s.latest[c] < |s.lanes| && s.lanes[s.latest[c]].container == c
         && Get(s.accepted, c) == Get(s.begun, c) + s.lanes[s.latest[c]].queue
         && (s.lanes[s.latest[c]].worker.Handling? ==>
               Get(s.begun, c) != [] && Get(s.begun, c)[|Get(s.begun, c)| - 1] == s.lanes[s.latest[c]].worker.ev)
    else Get(s.accepted, c) == [] && Get(s.begun, c) == []
  }

  predicate OpenSound(s: State, c: string)
    requires c in s.open
  {
    c in s.latest && s.open[c] == s.latest[c]
  }

  function Weight(lane: Lane): int { lane.pending + One(lane.worker.Settled?) }

  function Outstanding(lanes: seq<Lane>): int
  {
    if lanes == [] then 0 else Outstanding(lanes[..|lanes| - 1]) + Weight(lanes[|lanes| - 1])
  }

  /** The aggregate counter is the sum of the lanes', up to the step the owner is in. */
  predicate CountSound(s: State)
  {
    s.activeN == Outstanding(s.lanes) - One(s.owner.Counted?) + One(s.owner.Aborting?)
  }

  predicate OwnerSound(s: State)
  {
    && (s.owner.Picked? || s.owner.Counted? || s.owner.Sending? ==> s.owner.lane < |s.lanes| && !s.lanes[s.owner.lane].closed)
    && (s.owner.Draining? || s.owner.Gone? ==> s.open == map[])
  }

  predicate Quiet(s: State)
  {
    forall l :: 0 <= l < |s.lanes| ==> Resting(s.lanes[l])
  }

  ghost predicate Inv(s: State)
  {
    && (forall l {:trigger LaneSound(s, l)} :: 0 <= l < |s.lanes| ==> LaneSound(s, l))
    && (forall c {:trigger HistorySound(s, c)} :: HistorySound(s, c))
    && (forall c {:trigger OpenSound(s, c)} :: c in s.open ==> OpenSound(s, c))
    && CountSound(s) && OwnerSound(s)
    && (s.owner.Reconciling? ==> Quiet(s))
    && (s.owner.Gone? ==> forall l :: 0 <= l < |s.lanes| ==> s.lanes[l].worker.Exited?)
  }

  lemma StartIsSound()
    ensures Inv(START)
  {
  }

  lemma {:induction false} OutstandingUpdate(lanes: seq<Lane>, l: nat, lane: Lane)
    requires l < |lanes|
    ensures Outstanding(lanes[l := lane]) == Outstanding(lanes) - Weight(lanes[l]) + Weight(lane)
  {
    var n := |lanes| - 1;
    if l < n {
      OutstandingUpdate(lanes[..n], l, lane);
      assert lanes[l := lane][..n] == lanes[..n][l := lane];
    } else {
      assert lanes[l := lane][..n] == lanes[..n];
    }
  }

  lemma OutstandingAppend(lanes: seq<Lane>, lane: Lane)
    ensures Outstanding(lanes + [lane]) == Outstanding(lanes) + Weight(lane)
  {
    assert (lanes + [lane])[..|lanes|] == lanes;
  }

  /** Sums of non-negative weights are zero only if every weight is. */
  lemma {:induction false} NothingOutstanding(lanes: seq<Lane>)
    requires forall l :: 0 <= l < |lanes| ==> lanes[l].pending >= 0
    ensures Outstanding(lanes) >= 0
    ensures Outstanding(lanes) <= 0 ==> forall l :: 0 <= l < |lanes| ==> lanes[l].pending == 0
  {
    if lanes != [] { NothingOutstanding(lanes[..|lanes| - 1]); }
  }

  // ----- every step keeps the invariant -----

  /** A step that changes one lane, and what was accepted and begun for its
      container at most. */
  ghost predicate OnlyLane(s: State, t: State, l: nat)
  {
    && l < |s.lanes| && t.open == s.open && t.latest == s.latest
    && |t.lanes| == |s.lanes| && t.lanes == s.lanes[l := t.lanes[l]] && t.lanes[l].container == s.lanes[l].container
    && (forall c :: c != s.lanes[l].container ==> Get(t.accepted, c) == Get(s.accepted, c) && Get(t.begun, c) == Get(s.begun, c))
    && (forall k {:trigger Offered(t, k)} :: k != l ==> (Offered(t, k) <==> Offered(s, k)))
    && (Shutting(t.owner) <==> Shutting(s.owner))
  }

  lemma OnlyLaneKeepsInv(s: State, t: State, l: nat)
    requires Inv(s) && OnlyLane(s, t, l) && LaneSound(t, l) && HistorySound(t, s.lanes[l].container) && OwnerSound(t)
    requires t.activeN - s.activeN == Weight(t.lanes[l]) - Weight(s.lanes[l]) - One(t.owner.Counted?) + One(s.owner.Counted?)
                                      + One(t.owner.Aborting?) - One(s.owner.Aborting?)
    requires t.owner.Reconciling? ==> s.owner.Reconciling? && Resting(t.lanes[l])
    requires t.owner.Gone? ==> s.owner.Gone? && t.lanes[l].worker.Exited?
    ensures Inv(t)
  {
    OutstandingUpdate(s.lanes, l, t.lanes[l]);
    forall k | 0 <= k < |t.lanes| ensures LaneSound(t, k) { if k != l { assert LaneSound(s, k); } }
    forall c ensures HistorySound(t, c) { if c != s.lanes[l].container { assert HistorySound(s, c); } }
    forall c | c in t.open ensures OpenSound(t, c) { assert OpenSound(s, c); }
  }

  /** A worker takes an event, or ends. */
  lemma TakingKeepsInv(s: State, a: Act)
    requires Inv(s) && (a.Take? || a.Exit?) && Step(s, a).Some?
    ensures Inv(Step(s, a).value)
  {
    assert LaneSound(s, a.l) && HistorySound(s, s.lanes[a.l].container);
    OnlyLaneKeepsInv(s, Step(s, a).value, a.l);
  }

  /** A handler returns, and the counters follow. */
  lemma SettlingKeepsInv(s: State, a: Act)
    requires Inv(s) && (a.Return? || a.DecPending? || a.DecActive?) && Step(s, a).Some?
    ensures Inv(Step(s, a).value)
  {
    assert LaneSound(s, a.l) && HistorySound(s, s.lanes[a.l].container);
    OnlyLaneKeepsInv(s, Step(s, a).value, a.l);
  }

  /** A step that changes the lane the owner is handing an event to. */
  lemma HandingKeepsInv(s: State, a: Act)
    requires Inv(s) && (a.IncPending? || a.Send? || a.Abort?) && Step(s, a).Some?
    ensures Inv(Step(s, a).value)
  {
    assert LaneSound(s, s.owner.lane) && HistorySound(s, s.lanes[s.owner.lane].container);
    OnlyLaneKeepsInv(s, Step(s, a).value, s.owner.lane);
  }

  /** A step that changes no lane. */
  lemma NoLaneKeepsInv(s: State, t: State)
    requires Inv(s) && t.lanes == s.lanes && t.open == s.open && t.latest == s.latest && t.accepted == s.accepted && t.begun == s.begun
    requires (forall k {:trigger Offered(t, k)} :: Offered(t, k) <==> Offered(s, k)) && (Shutting(s.owner) ==> Shutting(t.owner))
    requires CountSound(t) && OwnerSound(t)
    requires (t.owner.Reconciling? ==> Quiet(t)) && (t.owner.Gone? ==> forall l :: 0 <= l < |t.lanes| ==> t.lanes[l].worker.Exited?)
    ensures Inv(t)
  {
    forall k | 0 <= k < |t.lanes| ensures LaneSound(t, k) { assert LaneSound(s, k); }
    forall c ensures HistorySound(t, c) { assert HistorySound(s, c); }
    forall c | c in t.open ensures OpenSound(t, c) { assert OpenSound(s, c); }
  }

  lemma OwnerKeepsInv(s: State, a: Act)
    requires Inv(s) && Step(s, a).Some?
    requires a.Receive? || a.Timer? || a.IncActive? || a.Aborted? || a.Reconciled? || a.Leave? || a.AllClosed? || a.Drained? || a.Stop?
    ensures Inv(Step(s, a).value)
  {
    NoLaneKeepsInv(s, Step(s, a).value);
  }

  /** With the counter at zero, every lane is at rest. */
  lemma CheckKeepsInv(s: State, a: Act)
    requires Inv(s) && a.Check? && Step(s, a).Some?
    ensures Inv(Step(s, a).value)
  {
    forall l | 0 <= l < |s.lanes| ensures s.lanes[l].pending == |s.lanes[l].queue| + One(InFlight(s.lanes[l])) { assert LaneSound(s, l); }
    NothingOutstanding(s.lanes);
    NoLaneKeepsInv(s, Step(s, a).value);
  }

  /** Closing a lane that is at rest, or closing any lane while shutting down. */
  lemma CloseKeepsInv(s: State, c: string, o: Owner)
    requires Inv(s) && c in s.open && s.open[c] < |s.lanes|
    requires (s.owner.Reaping? && o.Reaping? && s.lanes[s.open[c]].pending == 0) || (s.owner.Closing? && o.Closing?)
    ensures Inv(Close(s, c).(owner := o))
  {
    var t := Close(s, c).(owner := o);
    assert OpenSound(s, c) && HistorySound(s, c) && LaneSound(s, s.open[c]);
    OutstandingUpdate(s.lanes, s.open[c], t.lanes[s.open[c]]);
    forall k | 0 <= k < |t.lanes| ensures LaneSound(t, k) { assert LaneSound(s, k); }
    forall x ensures HistorySound(t, x) { assert HistorySound(s, x); }
    forall x | x in t.open ensures OpenSound(t, x) { assert OpenSound(s, x); }
  }

  lemma VisitKeepsInv(s: State, a: Act)
    requires Inv(s) && a.Visit? && Step(s, a).Some?
    ensures Inv(Step(s, a).value)
  {
    var o := s.owner.(todo := s.owner.todo - {a.id});
    if a.id in s.open && s.open[a.id] < |s.lanes| && s.lanes[s.open[a.id]].pending == 0 {
      CloseKeepsInv(s, a.id, o);
      assert Step(s, a).value == Close(s, a.id).(owner := o);
    } else {
      NoLaneKeepsInv(s, s.(owner := o));
    }
  }

  lemma CloseLaneKeepsInv(s: State, a: Act)
    requires Inv(s) && a.CloseLane? && Step(s, a).Some?
    ensures Inv(Step(s, a).value)
  {
    CloseKeepsInv(s, a.name, s.owner);
    assert Step(s, a).value == Close(s, a.name).(owner := s.owner);
  }

  lemma PickOpenLane(s: State, c: string, ev: Event)
    requires Inv(s) && s.owner.Reaping? && c in s.open
    ensures Inv(Pick(s, c, ev))
  {
    assert OpenSound(s, c) && HistorySound(s, c) && LaneSound(s, s.open[c]);
    NoLaneKeepsInv(s, Pick(s, c, ev));
  }

  /** A new lane follows one that was at rest when it was closed, so order is kept. */
  lemma PickNewLane(s: State, c: string, ev: Event)
    requires Inv(s) && s.owner.Reaping? && c !in s.open
    ensures Inv(Pick(s, c, ev))
  {
    var t := Pick(s, c, ev);
    assert HistorySound(s, c);
    if c in s.latest { assert LaneSound(s, s.latest[c]); }
    OutstandingAppend(s.lanes, Lane(c, [], false, 0, Ready));
    forall k | 0 <= k < |t.lanes| ensures LaneSound(t, k) { if k < |s.lanes| { assert LaneSound(s, k); } }
    forall x ensures HistorySound(t, x) { assert HistorySound(s, x); }
    forall x | x in t.open ensures OpenSound(t, x) { if x != c { assert OpenSound(s, x); } }
  }

  lemma ReapedKeepsInv(s: State, a: Act)
    requires Inv(s) && a.Reaped? && Step(s, a).Some?
    ensures Inv(Step(s, a).value)
  {
    match s.owner.goal
    case Tick => NoLaneKeepsInv(s, s.(owner := Checking));
    case Accept(c, ev) => if c in s.open { PickOpenLane(s, c, ev); } else { PickNewLane(s, c, ev); }
  }

  lemma StepKeepsInv(s: State, a: Act)
    requires Inv(s) && Step(s, a).Some?
    ensures Inv(Step(s, a).value)
  {
    match a
    case Visit(_) => VisitKeepsInv(s, a);
    case Reaped => ReapedKeepsInv(s, a);
    case Check => CheckKeepsInv(s, a);
    case CloseLane(_) => CloseLaneKeepsInv(s, a);
    case _ =>
      if a.Take? || a.Exit? { TakingKeepsInv(s, a); }
      else if IsWorkerAct(a) { SettlingKeepsInv(s, a); }
      else if a.IncPending? || a.Send? || a.Abort? { HandingKeepsInv(s, a); }
      else { OwnerKeepsInv(s, a); }
  }

  lemma {:induction false} RunsKeepInv(s: State, acts: seq<Act>)
    requires Inv(s) && Run(s, acts).Some?
    ensures Inv(Run(s, acts).value)
  {
    if acts != [] {
      RunsKeepInv(s, acts[..|acts| - 1]);
      StepKeepsInv(Run(s, acts[..|acts| - 1]).value, acts[|acts| - 1]);
    }
  }

  // ----- what every interleaving guarantees -----

  /** The events of container `c` that the stream delivered, in order. */
  function Delivered(acts: seq<Act>, c: string): seq<Event>
  {
    if acts == [] then []
    else
      var last := acts[|acts| - 1];
      Delivered(acts[..|acts| - 1], c) + if last.Receive? && last.c == c then [last.event] else []
  }

  /** The event the owner has received and not yet put into a lane. */
  function InHand(s: State, c: string): seq<Event>
  {
    match s.owner
    case Reaping(_, Accept(x, ev)) => if x == c then [ev] else []
    case Picked(l, ev) => if l < |s.lanes| && s.lanes[l].container == c then [ev] else []
    case Counted(l, ev) => if l < |s.lanes| && s.lanes[l].container == c then [ev] else []
    case Sending(l, ev) => if l < |s.lanes| && s.lanes[l].container == c then [ev] else []
    case _ => []
  }

  predicate Stopped(o: Owner) { o.Aborting? || Shutting(o) }

  /** What was delivered is accepted or in hand; once the owner gives up, no more is accepted. */
  predicate DeliverySound(s: State, c: string, delivered: seq<Event>)
  {
    if Stopped(s.owner) then Get(s.accepted, c) <= delivered else Get(s.accepted, c) + InHand(s, c) == delivered
  }

  lemma WorkersKeepDeliveries(s: State, a: Act, c: string, delivered: seq<Event>)
    requires WorkerStep(s, a).Some? && DeliverySound(s, c, delivered)
    ensures DeliverySound(WorkerStep(s, a).value, c, delivered)
  {
    var t := WorkerStep(s, a).value;
    assert t.owner == s.owner && t.accepted == s.accepted && |t.lanes| == |s.lanes|;
    assert forall l :: 0 <= l < |s.lanes| ==> t.lanes[l].container == s.lanes[l].container;
  }

  lemma ReapedKeepsDeliveries(s: State, c: string, delivered: seq<Event>)
    requires Inv(s) && OwnerStep(s, Reaped).Some? && DeliverySound(s, c, delivered)
    ensures DeliverySound(OwnerStep(s, Reaped).value, c, delivered)
  {
    if s.owner.goal.Accept? && s.owner.goal.container in s.open {
      assert OpenSound(s, s.owner.goal.container) && HistorySound(s, s.owner.goal.container);
    }
  }

  /** The remaining steps with an event in hand move it along or drop it for good. */
  lemma HandingKeepsDeliveries(s: State, a: Act, c: string, delivered: seq<Event>)
    requires (a.IncPending? || a.IncActive? || a.Send? || a.Abort? || a.Aborted?) && OwnerStep(s, a).Some?
    requires DeliverySound(s, c, delivered)
    ensures DeliverySound(OwnerStep(s, a).value, c, delivered)
  {
  }

  lemma RestKeepsDeliveries(s: State, a: Act, c: string, delivered: seq<Event>)
    requires !IsWorkerAct(a) && !a.Reaped? && !a.IncPending? && !a.IncActive? && !a.Send? && !a.Abort? && !a.Aborted?
    requires OwnerStep(s, a).Some? && DeliverySound(s, c, delivered)
    ensures DeliverySound(OwnerStep(s, a).value, c, delivered + if a.Receive? && a.c == c then [a.event] else [])
  {
    assert delivered + [] == delivered;
    var t := OwnerStep(s, a).value;
    assert t.accepted == s.accepted;
    if !a.Receive? { assert Stopped(t.owner) || InHand(t, c) == InHand(s, c); }
  }

  lemma {:induction false} AcceptedInOrder(acts: seq<Act>, c: string)
    requires Run(START, acts).Some?
    ensures DeliverySound(Run(START, acts).value, c, Delivered(acts, c))
  {
    if acts != [] {
      var n := |acts| - 1;
      AcceptedInOrder(acts[..n], c);
      StartIsSound();
      RunsKeepInv(START, acts[..n]);
      var s, a, delivered := Run(START, acts[..n]).value, acts[n], Delivered(acts[..n], c);
      assert delivered + [] == delivered;
      if IsWorkerAct(a) { WorkersKeepDeliveries(s, a, c, delivered); }
      else if a.Reaped? { ReapedKeepsDeliveries(s, c, delivered); }
      else if a.IncPending? || a.IncActive? || a.Send? || a.Abort? || a.Aborted? { HandingKeepsDeliveries(s, a, c, delivered); }
      else { RestKeepsDeliveries(s, a, c, delivered); }
    }
  }

  /** For each container, the events whose handling began are a prefix of those
      accepted, which are a prefix of those the stream delivered; the event in
      hand is the last one begun. This holds across lanes that were closed and
      opened again. */
  lemma HandledInStreamOrder(acts: seq<Act>, c: string)
    requires Run(START, acts).Some?
    ensures var s := Run(START, acts).value;
            && Get(s.begun, c) <= Get(s.accepted, c) <= Delivered(acts, c)
            && forall l :: 0 <= l < |s.lanes| && s.lanes[l].container == c && s.lanes[l].worker.Handling? ==>
                 Get(s.begun, c) != [] && Get(s.begun, c)[|Get(s.begun, c)| - 1] == s.lanes[l].worker.ev
  {
    StartIsSound();
    RunsKeepInv(START, acts);
    AcceptedInOrder(acts, c);
    var s := Run(START, acts).value;
    assert DeliverySound(s, c, Delivered(acts, c)) ==> Get(s.accepted, c) <= Delivered(acts, c);
    BegunBelowAccepted(s, c);
  }

  lemma BegunBelowAccepted(s: State, c: string)
    requires Inv(s)
    ensures Get(s.begun, c) <= Get(s.accepted, c)
    ensures forall l :: 0 <= l < |s.lanes| && s.lanes[l].container == c && s.lanes[l].worker.Handling? ==>
              Get(s.begun, c) != [] && Get(s.begun, c)[|Get(s.begun, c)| - 1] == s.lanes[l].worker.ev
  {
    assert HistorySound(s, c);
    forall l | 0 <= l < |s.lanes| && s.lanes[l].container == c && s.lanes[l].worker.Handling?
      ensures Get(s.begun, c) != [] && Get(s.begun, c)[|Get(s.begun, c)| - 1] == s.lanes[l].worker.ev
    {
      assert LaneSound(s, l);
    }
  }

  /** At most one event of a container is being handled, whichever lanes it had. */
  lemma OneInFlight(acts: seq<Act>, k: nat, l: nat)
    requires Run(START, acts).Some?
    requires var s := Run(START, acts).value;
             && k < |s.lanes| && l < |s.lanes| && s.lanes[k].container == s.lanes[l].container
             && InFlight(s.lanes[k]) && InFlight(s.lanes[l])
    ensures k == l
  {
    StartIsSound();
    RunsKeepInv(START, acts);
    var s := Run(START, acts).value;
    assert LaneSound(s, k) && LaneSound(s, l);
  }

  function Pending(lanes: seq<Lane>): int
  {
    if lanes == [] then 0 else Pending(lanes[..|lanes| - 1]) + lanes[|lanes| - 1].pending
  }

  lemma {:induction false} PendingBelowOutstanding(lanes: seq<Lane>)
    ensures Pending(lanes) <= Outstanding(lanes)
  {
    if lanes != [] { PendingBelowOutstanding(lanes[..|lanes| - 1]); }
  }

  /** Whenever the owner looks, the aggregate counter covers the lanes' counters,
      so a zero means that every lane can be reaped and nothing is in flight. */
  lemma InactiveMeansReapable(acts: seq<Act>)
    requires Run(START, acts).Some?
    requires var s := Run(START, acts).value; s.owner.Idle? || s.owner.Reaping? || s.owner.Checking?
    ensures var s := Run(START, acts).value;
            && s.activeN >= Pending(s.lanes)
            && (s.activeN == 0 ==> Quiet(s) && forall l :: 0 <= l < |s.lanes| ==> s.lanes[l].pending == 0)
  {
    StartIsSound();
    RunsKeepInv(START, acts);
    var s := Run(START, acts).value;
    PendingBelowOutstanding(s.lanes);
    forall l | 0 <= l < |s.lanes| ensures s.lanes[l].pending == |s.lanes[l].queue| + One(InFlight(s.lanes[l])) { assert LaneSound(s, l); }
    NothingOutstanding(s.lanes);
  }

  lemma QuietStays(s: State, a: Act)
    requires s.owner.Reconciling? && Quiet(s) && Step(s, a).Some?
    ensures !a.Take? && !a.Receive? && !a.Send?
  {
    forall l | 0 <= l < |s.lanes| ensures s.lanes[l].queue == [] { assert Resting(s.lanes[l]); }
  }

  /** While reconciliation runs no handler does, and none can begin. */
  lemma ReconcileRunsAlone(acts: seq<Act>, a: Act)
    requires Run(START, acts).Some? && Run(START, acts).value.owner.Reconciling?
    ensures var s := Run(START, acts).value;
            && (forall l :: 0 <= l < |s.lanes| ==> !InFlight(s.lanes[l]))
            && (Step(s, a).Some? ==> !a.Take? && !a.Receive? && !a.Send?)
  {
    StartIsSound();
    RunsKeepInv(START, acts);
    var s := Run(START, acts).value;
    forall l | 0 <= l < |s.lanes| ensures !InFlight(s.lanes[l]) { assert Resting(s.lanes[l]); }
    if Step(s, a).Some? { QuietStays(s, a); }
  }

  /** The worker channels close only when every handler has returned for good, and
      by then every accepted event has been handled. Until then, the owner never
      puts an event into a closed lane. */
  lemma HandlersReturnFirst(acts: seq<Act>, c: string)
    requires Run(START, acts).Some?
    ensures var s := Run(START, acts).value;
            && (s.owner.Gone? ==> Get(s.begun, c) == Get(s.accepted, c) && forall l :: 0 <= l < |s.lanes| ==> s.lanes[l].worker.Exited?)
            && (s.owner.Sending? ==> s.owner.lane < |s.lanes| && !s.lanes[s.owner.lane].closed)
  {
    StartIsSound();
    RunsKeepInv(START, acts);
    var s := Run(START, acts).value;
    assert HistorySound(s, c);
    if s.owner.Gone? && c in s.latest { assert LaneSound(s, s.latest[c]); }
  }

  // ----- bounds, and what the owner does when -----

  predicate Bounded(s: State)
  {
    (forall l :: 0 <= l < |s.lanes| ==> |s.lanes[l].queue| <= DEPTH) && (Stopped(s.owner) ==> s.stopping)
  }

  lemma StepStaysBounded(s: State, a: Act)
    requires Bounded(s) && Step(s, a).Some?
    ensures Bounded(Step(s, a).value)
  {
  }

  /** No lane holds more than its sixteen events, whatever the stream delivers; and
      events are given up only when the manager is stopping. */
  lemma {:induction false} LanesAreBounded(acts: seq<Act>)
    requires Run(START, acts).Some?
    ensures var s := Run(START, acts).value;
            (forall l :: 0 <= l < |s.lanes| ==> |s.lanes[l].queue| <= 16) && (s.owner.Aborting? || Shutting(s.owner) ==> s.stopping)
  {
    if acts != [] {
      LanesAreBounded(acts[..|acts| - 1]);
      StepStaysBounded(Run(START, acts[..|acts| - 1]).value, acts[|acts| - 1]);
    }
  }

  /** At rest, and its worker through with the counters. */
  predicate Unoccupied(lane: Lane) { Resting(lane) && !lane.worker.Settled? }

  /** The check lets reconciliation begin exactly if every lane is at rest: no event
      waits or is handled, and no worker is still counting. */
  lemma ReconcilesExactlyAtRest(acts: seq<Act>)
    requires Run(START, acts).Some? && Run(START, acts).value.owner.Checking?
    ensures var s := Run(START, acts).value;
            var t := Step(s, Check);
            && t.Some? && (t.value.owner.Reconciling? || t.value.owner.Idle?)
            && (t.value.owner.Reconciling? <==> forall l :: 0 <= l < |s.lanes| ==> Unoccupied(s.lanes[l]))
  {
    StartIsSound();
    RunsKeepInv(START, acts);
    var s := Run(START, acts).value;
    forall l | 0 <= l < |s.lanes|
      ensures s.lanes[l].pending == |s.lanes[l].queue| + One(InFlight(s.lanes[l])) && (Weight(s.lanes[l]) == 0 <==> Unoccupied(s.lanes[l]))
    {
      assert LaneSound(s, l);
    }
    ZeroExactly(s.lanes);
  }

  lemma {:induction false} ZeroExactly(lanes: seq<Lane>)
    requires forall l :: 0 <= l < |lanes| ==> lanes[l].pending >= 0
    ensures Outstanding(lanes) >= 0
    ensures Outstanding(lanes) == 0 <==> forall l :: 0 <= l < |lanes| ==> Weight(lanes[l]) == 0
  {
    if lanes != [] { ZeroExactly(lanes[..|lanes| - 1]); }
  }

  // ----- idle lanes are given back -----

  /** Everything is at rest, and whatever lane is open is still to be visited. */
  predicate ToGiveBack(s: State)
  {
    s.owner.Reaping? && Quiet(s) && s.open.Keys <= s.owner.todo
  }

  lemma ReapingGoesOn(s: State, a: Act)
    requires Inv(s) && ToGiveBack(s) && !a.Reaped? && Step(s, a).Some?
    ensures ToGiveBack(Step(s, a).value)
  {
    if a.Visit? && a.id in s.open { assert OpenSound(s, a.id) && HistorySound(s, a.id) && LaneSound(s, s.open[a.id]); }
  }

  lemma {:induction false} ReapingLeavesNone(s: State, acts: seq<Act>)
    requires Inv(s) && ToGiveBack(s) && Run(s, acts).Some? && Reaped !in acts
    ensures ToGiveBack(Run(s, acts).value)
  {
    if acts != [] {
      var n := |acts| - 1;
      ReapingLeavesNone(s, acts[..n]);
      RunsKeepInv(s, acts[..n]);
      assert acts[n] in acts;
      ReapingGoesOn(Run(s, acts[..n]).value, acts[n]);
    }
  }

  /** If everything is at rest when an event or the timer comes, no lane is open when
      the owner has looked at them all, however the workers' steps fall in between. */
  lemma IdleLanesAreGivenBack(before: seq<Act>, a: Act, acts: seq<Act>)
    requires Run(START, before).Some? && (a.Receive? || a.Timer?) && Step(Run(START, before).value, a).Some?
    requires Quiet(Run(START, before).value)
    requires var s := Step(Run(START, before).value, a).value; Run(s, acts).Some? && Reaped !in acts
    ensures var t := Run(Step(Run(START, before).value, a).value, acts).value;
            Step(t, Reaped).Some? ==> t.open == map[]
  {
    StartIsSound();
    RunsKeepInv(START, before);
    StepKeepsInv(Run(START, before).value, a);
    ReapingLeavesNone(Step(Run(START, before).value, a).value, acts);
  }
}
