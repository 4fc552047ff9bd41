/** The per-container concurrency protocol as interleaved steps: the tracker that
    waits for a running operation while it holds its mutex, and the two locks
    taken inside an operation. Unboundedly many operations and containers. */
module Tracker {
  import opened Wrappers

  type OpId = nat

  /** Enter to Register: inside addContainer (Waiting for the done channel of an
      earlier operation). WantPolicy to Closing: the operation proper. WantClean
      and Cleaning: the cleanup function, after it closed done. A base repair only
      takes the address map lock. */
  datatype Pc =
    | Enter | Looking | Waiting(on: OpId) | Register
    | WantPolicy | HasPolicy | HasAddr | Closing
    | WantClean | Cleaning | Finished
    | RepairWants | RepairHas

  /** `early` operations fail before they take a lock; `rounds` counts the times
      the operation still takes the address map lock. */
  datatype Op = Op(id: string, creating: bool, early: bool, rounds: nat, pc: Pc, cancelled: bool, noCleanup: bool)

  datatype State = State(ops: map<OpId, Op>, entries: map<string, OpId>,
                         mtx: Option<OpId>, policyMu: Option<OpId>, addrMu: Option<OpId>)

  /** The operation has closed its done channel. */
  predicate Done(op: Op)
  {
    op.pc.WantClean? || op.pc.Cleaning? || op.pc.Finished?
  }

  predicate HoldsMtx(pc: Pc) { pc.Looking? || pc.Waiting? || pc.Register? || pc.Cleaning? }

  predicate HoldsPolicy(pc: Pc) { pc.HasPolicy? || pc.HasAddr? }

  predicate HoldsAddr(pc: Pc) { pc.HasAddr? || pc.RepairHas? }

  /** What the operation cannot get at the moment: a lock, or the end of another. */
  predicate Blocked(s: State, o: OpId)
    requires o in s.ops
  {
    var op := s.ops[o];
    match op.pc
    case Enter => s.mtx.Some?
    case Waiting(e) => e !in s.ops || !Done(s.ops[e])
    case WantPolicy => !op.early && s.policyMu.Some?
    case HasPolicy => op.rounds > 0 && s.addrMu.Some?
    case WantClean => s.mtx.Some?
    case RepairWants => s.addrMu.Some?
    case Finished => true
    case _ => false
  }

  /** Where the operation itself goes next, once it has looked for another. */
  function Next(op: Op): Op
  {
    match op.pc
    case Enter => op.(pc := Looking)
    case Waiting(_) => op.(pc := Register)
    case Register => op.(pc := WantPolicy)
    case WantPolicy => op.(pc := if op.early then Closing else HasPolicy)
    case HasPolicy => if op.rounds == 0 then op.(pc := Closing) else op.(pc := HasAddr, rounds := op.rounds - 1)
    case HasAddr => op.(pc := HasPolicy)
    case Closing => op.(pc := WantClean)
    case WantClean => op.(pc := Cleaning)
    case Cleaning => op.(pc := Finished)
    case RepairWants => op.(pc := RepairHas)
    case RepairHas => op.(pc := Finished)
    case _ => op
  }

  function EntriesAfter(s: State, o: OpId): map<string, OpId>
    requires o in s.ops
  {
    var op := s.ops[o];
    if op.pc.Register? then s.entries[op.id := o]
    else if op.pc.Cleaning? && !op.noCleanup then s.entries - {op.id}
    else s.entries
  }

  /** addContainer's look at the entry of the container: the operation found is
      told to leave the entry alone, and a creation is cancelled by a deletion. */
  function LookUp(s: State, o: OpId): State
    requires o in s.ops
  {
    var op := s.ops[o];
    if op.id !in s.entries || s.entries[op.id] !in s.ops then s.(ops := s.ops[o := op.(pc := Register)])
    else
      var e := s.entries[op.id];
      var waiting := s.ops[o := op.(pc := Waiting(e))];
      var cont := waiting[e].(noCleanup := true);
      if cont.creating && !op.creating
      then s.(ops := waiting[e := cont.(cancelled := true)], entries := s.entries - {op.id})
      else s.(ops := waiting[e := cont])
  }

  /** The next step of operation `o`; None while it is blocked or finished. */
  function Step(s: State, o: OpId): Option<State>
    requires o in s.ops
  {
    var pc, next := s.ops[o].pc, Next(s.ops[o]);
    if Blocked(s, o) then None
    else if pc.Looking? then Some(LookUp(s, o))
    else Some(State(s.ops[o := next], EntriesAfter(s, o),
                    if HoldsMtx(next.pc) then Some(o) else if HoldsMtx(pc) then None else s.mtx,
                    if HoldsPolicy(next.pc) then Some(o) else if HoldsPolicy(pc) then None else s.policyMu,
                    if HoldsAddr(next.pc) then Some(o) else if HoldsAddr(pc) then None else s.addrMu))
  }

  /** A new operation begins. */
  predicate Arrives(s: State, o: OpId, op: Op)
  {
    o !in s.ops && (op.pc.Enter? || op.pc.RepairWants?) && !op.cancelled && !op.noCleanup
  }

  const START := State(map[], map[], None, None, None)

  // ----- the invariant -----

  /** Registered, and its done channel is still open. */
  predicate Live(op: Op)
  {
    op.pc.WantPolicy? || op.pc.HasPolicy? || op.pc.HasAddr? || op.pc.Closing?
  }

  /** Registered and not yet cleaned up. */
  predicate Tracked(op: Op) { Live(op) || op.pc.WantClean? || op.pc.Cleaning? }

  /** The operation that waits for `o`, if any, is the one that holds the mutex. */
  predicate WaitedFor(s: State, o: OpId)
  {
    s.mtx.Some? && s.mtx.value in s.ops && s.ops[s.mtx.value].pc == Waiting(o)
  }

  /** The operation that sets noCleanup keeps the mutex until it has replaced the entry. */
  predicate Superseding(s: State, id: string)
  {
    && s.mtx.Some? && s.mtx.value in s.ops && s.ops[s.mtx.value].id == id
    && (s.ops[s.mtx.value].pc.Waiting? || s.ops[s.mtx.value].pc.Register?)
  }

  predicate LocksAgree(s: State, o: OpId)
    requires o in s.ops
  {
    && (HoldsMtx(s.ops[o].pc) <==> s.mtx == Some(o))
    && (HoldsPolicy(s.ops[o].pc) <==> s.policyMu == Some(o))
    && (HoldsAddr(s.ops[o].pc) <==> s.addrMu == Some(o))
  }

  /** Whoever waits, waits for an operation on the same ID that will not remove
      the entry; nobody else can take the entry over before it registers itself. */
  predicate WaiterSound(s: State, w: OpId)
    requires w in s.ops
  {
    var id := s.ops[w].id;
    match s.ops[w].pc
    case Waiting(e) =>
      && e in s.ops && e != w && s.ops[e].id == id && (Tracked(s.ops[e]) || s.ops[e].pc.Finished?) && s.ops[e].noCleanup
      && (id in s.entries ==> s.entries[id] == e)
    case Register =>
      id in s.entries ==> s.entries[id] in s.ops && !Live(s.ops[s.entries[id]]) && s.ops[s.entries[id]].noCleanup
    case _ => true
  }

  predicate CleanupSound(s: State, o: OpId)
    requires o in s.ops
  {
    var op := s.ops[o];
    var own := op.id in s.entries && s.entries[op.id] == o;
    Tracked(op) ==> if op.noCleanup then (Live(op) ==> WaitedFor(s, o)) && (own ==> Superseding(s, op.id)) else own
  }

  predicate OpSound(s: State, o: OpId)
    requires o in s.ops
  {
    && LocksAgree(s, o) && WaiterSound(s, o) && CleanupSound(s, o)
    && (s.ops[o].cancelled ==> s.ops[o].creating && s.ops[o].noCleanup)
    && (s.ops[o].noCleanup ==> Tracked(s.ops[o]) || s.ops[o].pc.Finished?)
  }

  /** An entry belongs to a tracked operation on its ID. */
  predicate EntrySound(s: State, id: string)
    requires id in s.entries
  {
    s.entries[id] in s.ops && s.ops[s.entries[id]].id == id && Tracked(s.ops[s.entries[id]])
  }

  ghost predicate Inv(s: State)
  {
    && (s.mtx.Some? ==> s.mtx.value in s.ops) && (s.policyMu.Some? ==> s.policyMu.value in s.ops)
    && (s.addrMu.Some? ==> s.addrMu.value in s.ops)
    && (forall o {:trigger OpSound(s, o)} :: o in s.ops ==> OpSound(s, o))
    && forall id {:trigger EntrySound(s, id)} :: id in s.entries ==> EntrySound(s, id)
  }

  lemma StartIsSound()
    ensures Inv(START)
  {
  }

  /** The facts about one operation, its entry, and the holder of the mutex. */
  lemma Facts(s: State, x: OpId)
    requires Inv(s) && x in s.ops
    ensures OpSound(s, x) && (s.mtx.Some? ==> OpSound(s, s.mtx.value))
    ensures s.ops[x].id in s.entries ==> EntrySound(s, s.ops[x].id) && OpSound(s, s.entries[s.ops[x].id])
  {
    if s.ops[x].id in s.entries { assert EntrySound(s, s.ops[x].id); }
  }

  lemma ArrivalKeepsInv(s: State, o: OpId, op: Op)
    requires Inv(s) && Arrives(s, o, op)
    ensures Inv(s.(ops := s.ops[o := op]))
  {
    var t := s.(ops := s.ops[o := op]);
    forall x | x in t.ops ensures OpSound(t, x) { if x != o { Facts(s, x); } }
    forall id | id in t.entries ensures EntrySound(t, id) { assert EntrySound(s, id); }
  }

  /** Any step but the one that finds another operation. */
  predicate Unobstructed(s: State, o: OpId)
  {
    o in s.ops && Step(s, o).Some? && (s.ops[o].pc.Looking? ==> s.ops[o].id !in s.entries)
  }

  lemma OthersKeepLocks(s: State, o: OpId, x: OpId)
    requires Inv(s) && Unobstructed(s, o) && x in s.ops && x != o
    ensures LocksAgree(Step(s, o).value, x)
  {
    Facts(s, o);
    Facts(s, x);
  }

  lemma OthersKeepWaiting(s: State, o: OpId, x: OpId)
    requires Inv(s) && Unobstructed(s, o) && x in s.ops && x != o
    ensures WaiterSound(Step(s, o).value, x)
  {
    Facts(s, o);
    Facts(s, x);
  }

  lemma OthersKeepEntries(s: State, o: OpId, x: OpId)
    requires Inv(s) && Unobstructed(s, o) && x in s.ops && x != o
    ensures CleanupSound(Step(s, o).value, x)
  {
    Facts(s, o);
    Facts(s, x);
  }

  lemma OwnKeepsLocks(s: State, o: OpId)
    requires Inv(s) && Unobstructed(s, o)
    ensures LocksAgree(Step(s, o).value, o)
  {
    Facts(s, o);
  }

  lemma OwnKeepsWaiting(s: State, o: OpId)
    requires Inv(s) && Unobstructed(s, o)
    ensures WaiterSound(Step(s, o).value, o)
  {
    Facts(s, o);
  }

  lemma OwnKeepsEntry(s: State, o: OpId)
    requires Inv(s) && Unobstructed(s, o)
    ensures CleanupSound(Step(s, o).value, o)
  {
    Facts(s, o);
  }

  lemma FlagsStay(s: State, o: OpId, x: OpId)
    requires Inv(s) && Unobstructed(s, o) && x in s.ops
    ensures var p, q := s.ops[x], Step(s, o).value.ops[x];
            && q.cancelled == p.cancelled && q.creating == p.creating && q.noCleanup == p.noCleanup
            && (q.noCleanup ==> Tracked(q) || q.pc.Finished?)
  {
    Facts(s, x);
  }

  lemma OpStaysSound(s: State, o: OpId, x: OpId)
    requires Inv(s) && Unobstructed(s, o) && x in s.ops
    ensures OpSound(Step(s, o).value, x)
  {
    assert OpSound(s, x);
    FlagsStay(s, o, x);
    if x == o {
      OwnKeepsLocks(s, o);
      OwnKeepsWaiting(s, o);
      OwnKeepsEntry(s, o);
    } else {
      OthersKeepLocks(s, o, x);
      OthersKeepWaiting(s, o, x);
      OthersKeepEntries(s, o, x);
    }
  }

  lemma EntriesStaySound(s: State, o: OpId, id: string)
    requires Inv(s) && Unobstructed(s, o) && id in Step(s, o).value.entries
    ensures EntrySound(Step(s, o).value, id)
  {
    Facts(s, o);
    if id in s.entries { assert EntrySound(s, id); }
  }

  lemma UnobstructedKeepsInv(s: State, o: OpId)
    requires Inv(s) && Unobstructed(s, o)
    ensures Inv(Step(s, o).value)
  {
    var t := Step(s, o).value;
    forall x | x in t.ops ensures OpSound(t, x) { OpStaysSound(s, o, x); }
    forall id | id in t.entries ensures EntrySound(t, id) { EntriesStaySound(s, o, id); }
  }

  /** An operation found one before it: it marks that one, and keeps the mutex. */
  lemma WaitingBegins(s: State, o: OpId)
    requires Inv(s) && o in s.ops && s.ops[o].pc.Looking? && s.ops[o].id in s.entries
    ensures Inv(Step(s, o).value)
  {
    var t := Step(s, o).value;
    Facts(s, o);
    var e := s.entries[s.ops[o].id];
    assert e != o && t.ops.Keys == s.ops.Keys && t.ops[o] == s.ops[o].(pc := Waiting(e));
    forall x | x in t.ops ensures OpSound(t, x) {
      Facts(s, x);
      assert x != o && x != e ==> t.ops[x] == s.ops[x];
    }
    forall id | id in t.entries ensures EntrySound(t, id) { assert EntrySound(s, id); }
  }

  lemma StepKeepsInv(s: State, o: OpId)
    requires Inv(s) && o in s.ops && Step(s, o).Some?
    ensures Inv(Step(s, o).value)
  {
    if s.ops[o].pc.Looking? && s.ops[o].id in s.entries { WaitingBegins(s, o); } else { UnobstructedKeepsInv(s, o); }
  }

  // ----- runs -----

  datatype Event = Arrive(o: OpId, op: Op) | Do(o: OpId)

  function Happen(s: State, e: Event): Option<State>
  {
    match e
    case Arrive(o, op) => if Arrives(s, o, op) then Some(s.(ops := s.ops[o := op])) else None
    case Do(o) => if o in s.ops then Step(s, o) else None
  }

  function Run(s: State, events: seq<Event>): Option<State>
  {
    if events == [] then Some(s)
    else
      var r := Run(s, events[..|events| - 1]);
      if r.None? then None else Happen(r.value, events[|events| - 1])
  }

  /** Every state of every interleaving satisfies the invariant. */
  lemma {:induction false} RunsKeepInv(s: State, events: seq<Event>)
    requires Inv(s) && Run(s, events).Some?
    ensures Inv(Run(s, events).value)
  {
    if events != [] {
      var n := |events| - 1;
      RunsKeepInv(s, events[..n]);
      var mid := Run(s, events[..n]).value;
      match events[n]
      case Arrive(o, op) => ArrivalKeepsInv(mid, o, op);
      case Do(o) => StepKeepsInv(mid, o);
    }
  }

  // ----- safety -----

  /** Two operations on one container are never live at the same time. */
  lemma AtMostOneLive(events: seq<Event>, a: OpId, b: OpId)
    requires Run(START, events).Some?
    requires var s := Run(START, events).value;
             a in s.ops && b in s.ops && s.ops[a].id == s.ops[b].id && Live(s.ops[a]) && Live(s.ops[b])
    ensures a == b
  {
    StartIsSound();
    RunsKeepInv(START, events);
    var s := Run(START, events).value;
    Facts(s, a);
    Facts(s, b);
  }

  /** The policy sections of all operations exclude each other; only a base repair,
      which takes the address map lock alone, runs beside one. */
  lemma OnePolicySection(events: seq<Event>, a: OpId, b: OpId)
    requires Run(START, events).Some?
    requires var s := Run(START, events).value;
             a in s.ops && b in s.ops && HoldsPolicy(s.ops[a].pc) && HoldsPolicy(s.ops[b].pc)
    ensures a == b
  {
    StartIsSound();
    RunsKeepInv(START, events);
    var s := Run(START, events).value;
    Facts(s, a);
    Facts(s, b);
  }

  /** A cleanup takes away its own operation's entry or none at all. */
  lemma CleanupSparesNewerEntries(events: seq<Event>, o: OpId)
    requires Run(START, events).Some?
    requires var s := Run(START, events).value; o in s.ops && s.ops[o].pc.Cleaning?
    ensures var s := Run(START, events).value;
            var t := Step(s, o).value;
            && (forall id :: id in t.entries ==> id in s.entries && t.entries[id] == s.entries[id])
            && (forall id :: id in s.entries && s.entries[id] != o ==> id in t.entries)
            && (forall id :: id in t.entries ==> t.entries[id] != o)
  {
    StartIsSound();
    RunsKeepInv(START, events);
    var s := Run(START, events).value;
    Facts(s, o);
    forall id | id in s.entries ensures EntrySound(s, id) {}
  }

  /** When an operation begins its work, every other operation on its container
      that began before has closed its done channel: in particular a deletion
      begins only after the creation it cancelled is through its own rollback. */
  lemma BeginsAfterPredecessor(events: seq<Event>, o: OpId, x: OpId)
    requires Run(START, events).Some?
    requires var s := Run(START, events).value;
             o in s.ops && s.ops[o].pc.Register? && x in s.ops && s.ops[x].id == s.ops[o].id
    ensures !Live(Run(START, events).value.ops[x])
  {
    StartIsSound();
    RunsKeepInv(START, events);
    var s := Run(START, events).value;
    Facts(s, o);
    Facts(s, x);
  }

  /** Only a deletion cancels, and only a creation on the same container. */
  lemma OnlyDeletionsCancel(s: State, o: OpId, x: OpId)
    requires Inv(s) && o in s.ops && x in s.ops && Step(s, o).Some?
    requires x in Step(s, o).value.ops && Step(s, o).value.ops[x].cancelled && !s.ops[x].cancelled
    ensures !s.ops[o].creating && s.ops[x].creating && s.ops[x].id == s.ops[o].id && Tracked(s.ops[x])
  {
    Facts(s, o);
    if s.ops[o].pc.Looking? { LookingStep(s, o); } else { NextLowersRank(s.ops[o]); }
  }

  // ----- cancellation -----

  /** A waiting operation has cancelled the one it waits for, or left it alone. */
  predicate CancelSound(s: State, w: OpId)
    requires w in s.ops
  {
    s.ops[w].pc.Waiting? ==>
      var e := s.ops[w].pc.on;
      e in s.ops && (s.ops[e].cancelled <==> s.ops[e].creating && !s.ops[w].creating)
  }

  ghost predicate Cancels(s: State)
  {
    forall w {:trigger CancelSound(s, w)} :: w in s.ops ==> CancelSound(s, w)
  }

  /** A step cancels no operation but the one that a deletion finds, and leaves
      what kind of operation each is. */
  lemma CancelledByStep(s: State, o: OpId, x: OpId)
    requires Inv(s) && o in s.ops && Step(s, o).Some? && x in s.ops
    ensures var t := Step(s, o).value;
            && x in t.ops && t.ops[x].creating == s.ops[x].creating && t.ops[x].id == s.ops[x].id
            && (t.ops[x].cancelled <==> s.ops[x].cancelled || DeletionFinds(s, o, x))
  {
    Facts(s, o);
    if s.ops[o].pc.Looking? { LookingStep(s, o); } else { NextLowersRank(s.ops[o]); }
  }

  /** The deletion `o` looks for its container and finds the creation `x` of it. */
  predicate DeletionFinds(s: State, o: OpId, x: OpId)
  {
    && o in s.ops && s.ops[o].pc.Looking? && !s.ops[o].creating
    && s.ops[o].id in s.entries && s.entries[s.ops[o].id] == x && x in s.ops && s.ops[x].creating
  }

  /** Whoever waits has the mutex, so nothing is looked up meanwhile. */
  lemma WaiterStaysSound(s: State, o: OpId, w: OpId)
    requires Inv(s) && Cancels(s) && o in s.ops && Step(s, o).Some? && w in s.ops && w != o
    ensures CancelSound(Step(s, o).value, w)
  {
    Facts(s, w);
    Facts(s, o);
    assert CancelSound(s, w);
    CancelledByStep(s, o, w);
    if s.ops[w].pc.Waiting? { CancelledByStep(s, o, s.ops[w].pc.on); }
  }

  lemma StepCancels(s: State, o: OpId)
    requires Inv(s) && Cancels(s) && o in s.ops && Step(s, o).Some?
    ensures Cancels(Step(s, o).value)
  {
    var t := Step(s, o).value;
    forall w | w in t.ops ensures CancelSound(t, w) {
      if w != o {
        WaiterStaysSound(s, o, w);
      } else if s.ops[o].pc.Looking? && s.ops[o].id in s.entries {
        Facts(s, o);
        CancelledByStep(s, o, s.entries[s.ops[o].id]);
      }
    }
  }

  lemma {:induction false} RunsCancel(events: seq<Event>)
    requires Run(START, events).Some?
    ensures Cancels(Run(START, events).value)
  {
    if events != [] {
      var n := |events| - 1;
      RunsCancel(events[..n]);
      StartIsSound();
      RunsKeepInv(START, events[..n]);
      var s := Run(START, events[..n]).value;
      if events[n].Do? {
        StepCancels(s, events[n].o);
      } else {
        var t := Run(START, events).value;
        forall w | w in t.ops ensures CancelSound(t, w) {
          if w in s.ops { Facts(s, w); assert CancelSound(s, w); }
        }
      }
    }
  }

  /** In every interleaving, an operation that waits has cancelled the one it waits
      for if it is itself a deletion and the other a creation, and only then. */
  lemma DeletionsCancelCreations(events: seq<Event>, w: OpId)
    requires Run(START, events).Some?
    requires w in Run(START, events).value.ops && Run(START, events).value.ops[w].pc.Waiting?
    ensures var s := Run(START, events).value;
            var e := s.ops[w].pc.on;
            && e in s.ops && s.ops[e].id == s.ops[w].id
            && (s.ops[e].cancelled <==> s.ops[e].creating && !s.ops[w].creating)
  {
    StartIsSound();
    RunsKeepInv(START, events);
    RunsCancel(events);
    var s := Run(START, events).value;
    Facts(s, w);
    assert CancelSound(s, w);
  }

  ghost predicate FoundByDeletion(events: seq<Event>, x: OpId)
  {
    exists k :: 0 <= k < |events| && Finds(events, k, x)
  }

  predicate Finds(events: seq<Event>, k: nat, x: OpId)
    requires k < |events|
  {
    events[k].Do? && Run(START, events[..k]).Some? && DeletionFinds(Run(START, events[..k]).value, events[k].o, x)
  }

  /** And for good: an operation is cancelled exactly if it is a creation and a
      deletion of its container found it at work. */
  lemma {:induction false} CancelledExactly(events: seq<Event>, x: OpId)
    requires Run(START, events).Some? && x in Run(START, events).value.ops
    ensures Run(START, events).value.ops[x].cancelled <==> FoundByDeletion(events, x)
  {
    if events != [] {
      var n := |events| - 1;
      var s := Run(START, events[..n]).value;
      if x in s.ops { CancelledExactly(events[..n], x); } else { NotYetFound(events[..n], x); }
      FoundSnoc(events, x);
      StartIsSound();
      RunsKeepInv(START, events[..n]);
      if events[n].Do? && x in s.ops { CancelledByStep(s, events[n].o, x); }
    }
  }

  lemma FoundSnoc(events: seq<Event>, x: OpId)
    requires events != []
    ensures FoundByDeletion(events, x) <==> FoundByDeletion(events[..|events| - 1], x) || Finds(events, |events| - 1, x)
  {
    var n := |events| - 1;
    forall k | 0 <= k < n ensures Finds(events, k, x) <==> Finds(events[..n], k, x) {
      assert events[..n][..k] == events[..k];
    }
  }

  /** An operation that has not arrived was not found. */
  lemma {:induction false} NotYetFound(events: seq<Event>, x: OpId)
    requires Run(START, events).Some? && x !in Run(START, events).value.ops
    ensures !FoundByDeletion(events, x)
  {
    if events != [] {
      var n := |events| - 1;
      var s := Run(START, events[..n]).value;
      if events[n].Do? { StepLowersRank(s, events[n].o); }
      NotYetFound(events[..n], x);
      FoundSnoc(events, x);
    }
  }

  // ----- progress -----

  predicate CanStep(s: State, o: OpId)
    requires o in s.ops
  {
    Step(s, o).Some?
  }

  /** Whoever holds the innermost lock can go on; a waiting operation waits for a
      live one, and live operations never need the mutex. */
  lemma NoDeadlock(s: State, o: OpId)
    requires Inv(s) && o in s.ops && !s.ops[o].pc.Finished?
    ensures exists x :: x in s.ops && CanStep(s, x)
  {
    Facts(s, o);
    if s.addrMu.Some? {
      Facts(s, s.addrMu.value);
      assert CanStep(s, s.addrMu.value);
    } else if s.policyMu.Some? {
      Facts(s, s.policyMu.value);
      assert CanStep(s, s.policyMu.value);
    } else if s.mtx.Some? {
      var w := s.mtx.value;
      Facts(s, w);
      if s.ops[w].pc.Waiting? {
        var e := s.ops[w].pc.on;
        Facts(s, e);
        assert CanStep(s, if Done(s.ops[e]) then w else e);
      } else {
        assert CanStep(s, w);
      }
    } else {
      assert CanStep(s, o);
    }
  }

  /** What an operation has still to do. */
  function Rank(op: Op): nat
  {
    match op.pc
    case Enter => 9 + 2 * op.rounds
    case Looking => 8 + 2 * op.rounds
    case Waiting(_) => 7 + 2 * op.rounds
    case Register => 6 + 2 * op.rounds
    case WantPolicy => 5 + 2 * op.rounds
    case HasPolicy => 4 + 2 * op.rounds
    case HasAddr => 5 + 2 * op.rounds
    case Closing => 3
    case WantClean => 2
    case Cleaning => 1
    case Finished => 0
    case RepairWants => 2
    case RepairHas => 1
  }

  lemma LookingStep(s: State, o: OpId)
    requires o in s.ops && s.ops[o].pc.Looking?
    ensures var t := Step(s, o).value;
            && t.ops.Keys == s.ops.Keys && (t.ops[o].pc.Waiting? || t.ops[o].pc.Register?) && t.ops[o].rounds == s.ops[o].rounds
            && forall x :: x in s.ops && x != o ==>
                 && t.ops[x] == s.ops[x].(cancelled := t.ops[x].cancelled, noCleanup := t.ops[x].noCleanup)
                 && (t.ops[x].cancelled && !s.ops[x].cancelled ==>
                       s.ops[o].id in s.entries && s.entries[s.ops[o].id] == x && s.ops[x].creating && !s.ops[o].creating)
  {
  }

  lemma NextLowersRank(op: Op)
    requires !op.pc.Looking? && !op.pc.Finished?
    ensures Rank(Next(op)) < Rank(op) && Next(op).cancelled == op.cancelled
  {
  }

  lemma StepLowersRank(s: State, o: OpId)
    requires o in s.ops && Step(s, o).Some?
    ensures var t := Step(s, o).value;
            && t.ops.Keys == s.ops.Keys && Rank(t.ops[o]) < Rank(s.ops[o])
            && forall x :: x in s.ops && x != o ==> Rank(t.ops[x]) == Rank(s.ops[x])
  {
    if s.ops[o].pc.Looking? {
      LookingStep(s, o);
    } else {
      NextLowersRank(s.ops[o]);
    }
  }

  function Total(s: State, order: seq<OpId>): nat
    requires forall i :: 0 <= i < |order| ==> order[i] in s.ops
  {
    if order == [] then 0 else Total(s, order[..|order| - 1]) + Rank(s.ops[order[|order| - 1]])
  }

  lemma {:induction false} TotalFalls(s: State, t: State, order: seq<OpId>, o: OpId)
    requires forall i :: 0 <= i < |order| ==> order[i] in s.ops && order[i] in t.ops
    requires o in s.ops && o in t.ops && Rank(t.ops[o]) < Rank(s.ops[o])
    requires forall x :: x in s.ops && x in t.ops && x != o ==> Rank(t.ops[x]) == Rank(s.ops[x])
    ensures Total(t, order) <= Total(s, order) && (o in order ==> Total(t, order) < Total(s, order))
  {
    if order != [] {
      TotalFalls(s, t, order[..|order| - 1], o);
      assert order == order[..|order| - 1] + [order[|order| - 1]];
    }
  }

  function Steps(s: State, schedule: seq<OpId>): (r: Option<State>)
    ensures r.Some? ==> r.value.ops.Keys == s.ops.Keys
    decreases |schedule|
  {
    if schedule == [] then Some(s)
    else
      var r := Steps(s, schedule[..|schedule| - 1]);
      var o := schedule[|schedule| - 1];
      if r.None? || o !in r.value.ops || Step(r.value, o).None? then None
      else
        StepLowersRank(r.value, o);
        Step(r.value, o)
  }

  /** No schedule is longer than the work there is; and wherever a schedule can no
      longer be continued, every operation has finished. However the steps are
      interleaved, everything that began ends. */
  lemma {:induction false} EverythingFinishes(s: State, order: seq<OpId>, schedule: seq<OpId>)
    requires Inv(s) && (forall o :: o in s.ops <==> o in order) && Steps(s, schedule).Some?
    ensures var t := Steps(s, schedule).value;
            && Inv(t) && |schedule| + Total(t, order) <= Total(s, order)
            && ((forall o :: o in t.ops ==> !CanStep(t, o)) ==> forall o :: o in t.ops ==> t.ops[o].pc.Finished?)
    decreases |schedule|
  {
    var t := Steps(s, schedule).value;
    if schedule != [] {
      var n := |schedule| - 1;
      EverythingFinishes(s, order, schedule[..n]);
      var mid := Steps(s, schedule[..n]).value;
      StepKeepsInv(mid, schedule[n]);
      StepLowersRank(mid, schedule[n]);
      TotalFalls(mid, t, order, schedule[n]);
    }
    if (forall o :: o in t.ops ==> !CanStep(t, o)) && exists o :: o in t.ops && !t.ops[o].pc.Finished? {
      var o :| o in t.ops && !t.ops[o].pc.Finished?;
      NoDeadlock(t, o);
    }
  }
}
