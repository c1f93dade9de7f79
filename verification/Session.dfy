/** The engine's session: the command gate, the run loop, termination of runs, and recovery.  Every
    method is one critical section of the session's lock, or a sequence of them. */
module Engine {
  import opened Wrappers
  import opened Transcript
  import opened Shape
  import opened Durable
  import opened Store
  import opened Lives
  import opened Validate
  import opened Recovery
  import opened CrashSafety
  import opened CrashTheorems
  import opened Protocol
  import opened Observer
  import opened Projection
  import opened LinePass
  import opened Stream
  import opened KeyBlocks
  import opened Agreement
  import opened Turns
  import opened Broker
  import opened Conversations
  import opened Loading
  import opened Messages
  import Retry
  import opened Reassembly

  datatype State = Idle | Running | Closed | Faulted

  datatype CommandKind = SubmitCommand(prompt: string) | CancelCommand | ResumeCommand | CloseCommand

  datatype Command = Command(id: CommandId, session: string, kind: CommandKind)

  datatype Refusal =
    | CallerGone
    | InvalidCommand
    | WrongSession
    | AlreadyFaulted
    | AlreadySeen
    | AlreadyClosed
    | RunIsActive
    | SensitivePrompt
    | NoInstructions
    | NotDurable

  function FailureCause(e: CallError): Cause {
    match e
    case NoBudget => BudgetExhausted
    case ProviderFailure(failure, _) =>
      (match failure
       case Permanent => ProviderPermanent
       case Protocol => ProviderProtocol
       case ContextOverflow => ContextLimit
       case OutputLimit => ProviderOutput
       case ClassCancelled => EngineInvariant
       case _ => ProviderTransient)
    case OtherError => EngineInvariant
  }

  const MAX_PROMPT: nat := 262144

  /** Command.Validate. */
  predicate WellFormed(c: Command) {
    c.id != "" && (c.kind.SubmitCommand? ==> 0 < |c.kind.prompt| <= MAX_PROMPT)
  }

  /** The refusals of the commands themselves, by the state they met, whether their ID had been consumed,
      and whether a credential was detected. */
  predicate Refuses(kind: CommandKind, before: State, known: bool, detected: bool, e: Refusal) {
    || e.NotDurable?
    || (e.AlreadySeen? && known)
    || (e.AlreadyClosed? && before.Closed? && (kind.SubmitCommand? || kind.ResumeCommand?))
    || (e.RunIsActive? && before.Running? && !kind.CancelCommand?)
    || (e.SensitivePrompt? && before.Idle? && kind.SubmitCommand? && detected)
    || (e.NoInstructions? && before.Idle? && kind.SubmitCommand?)
  }

  predicate GateRefuses(c: Command, callerGone: bool, session: string, before: State, e: Refusal) {
    || (e.CallerGone? && callerGone)
    || (e.InvalidCommand? &&
        (c.id == "" || (c.kind.SubmitCommand? && (c.kind.prompt == "" || |c.kind.prompt| > 262144))))
    || (e.WrongSession? && c.session != "" && c.session != session)
    || (e.AlreadyFaulted? && before.Faulted?)
  }

  /** What a run's goroutine may rely on between two of its steps: the life so far, the log, the run, and
      its cancel flag with the number of times it has been raised. */
  datatype Moment = Moment(trail: seq<World>, log: seq<Record>, run: RunId, flag: bool, count: nat)

  /** The life has gone on, nothing has been logged, and the flag is up if it was or has been raised. */
  ghost predicate GoneOn(a: Moment, b: Moment) {
    && b.trail != [] && a.trail <= b.trail && b.log == a.log && b.run == a.run
    && a.count <= b.count && (b.flag <==> a.flag || a.count < b.count)
  }

  lemma GoneOnStill(a: Moment, b: Moment, c: Moment)
    requires GoneOn(a, b) && GoneOn(b, c)
    ensures GoneOn(a, c) && (a.flag ==> b.flag) && (b.flag ==> c.flag)
  {
  }

  class Session {
    const id: string
    const detector: Detector
    const broker: ActionBroker
    const store: Store
    /** The published history and the live observers. */
    const hub: Hub
    var state: State
    var seen: set<CommandId>
    var cursor: nat
    var records: seq<Record>
    var docs: seq<InstructionSource>
    /** The latest run, whether its done channel is still open, and whether it was cancelled. */
    var running: RunId
    var waiting: bool
    var cancelled: bool
    /** How often a running run has been asked to stop so far. */
    ghost var raised: nat

    /** The process keeps what the disk holds. */
    ghost predicate InStepWithDisk()
      reads this, store, hub, hub.all
    {
      && store.Valid()
      && hub.Valid()
      && Linked(store.trail, store.manifest, hub.history, cursor, seen)
      && Lags(records, store.transcript)
    }

    /** A run is active: its goroutine goes on, if only to record a fault. */
    ghost predicate Alive()
      reads this, store, hub, hub.all
    {
      && store.Valid()
      && hub.Valid()
      && Linked(store.trail, store.manifest, hub.history, cursor, seen)
      && state.Running?
      && waiting
      && store.manifest.active == Some(running)
    }

    /** It has not recorded its outcome, and the log in memory is fit for the next step. */
    ghost predicate InRun()
      reads this, store, hub, hub.all
    {
      && Alive()
      && Lags(records, store.transcript)
      && Outcomes(store.transcript, running) == 0
    }

    ghost predicate Valid()
      reads this, store, hub, hub.all
    {
      match state
      case Running => Alive()
      case Idle =>
        && InStepWithDisk() && !waiting && cursor == |store.events|
        && store.manifest.active.None? && !store.manifest.closed && !HasClose(store.transcript)
      case Closed =>
        && InStepWithDisk() && !waiting && cursor == |store.events|
        && store.manifest.active.None? && store.manifest.closed && HasClose(store.transcript)
        && CloseEvents(store.events) == 1
      case Faulted =>
        && store.Valid() && hub.Valid() && !waiting
        && Consistent(store.trail, hub.history)
    }

    /** The volatile state of a session loaded from an opened store, before any repair. */
    constructor Load(id: string, detector: Detector, broker: ActionBroker, store: Store)
      requires store.Valid() && CursorsInOrder(store.events)
      ensures this.id == id && this.detector == detector && this.broker == broker && this.store == store
      ensures fresh(hub) && hub.Valid() && hub.history == store.events && hub.subs == map[] && hub.all == {}
      ensures state == Idle && seen == store.manifest.seen && cursor == |store.events| && records == store.transcript
      ensures !waiting
    {
      this.id, this.detector, this.broker, this.store := id, detector, broker, store;
      hub := new Hub(store.events);
      state := Idle;
      seen := store.manifest.seen;
      cursor := store.manifest.eventCursor;
      records := store.transcript;
      docs := [];
      running, waiting, cancelled := 0, false, false;
      raised := 0;
    }

    // ---- Durable steps ----------------------------------------------------------------

    /** appendPayloadLocked: the log in memory follows only a fully successful append. */
    method AppendPayload(run: RunId, payload: Payload) returns (ok: bool)
      requires store.Valid()
      modifies this`records, store
      ensures store.Valid() && store.events == old(store.events)
      ensures store.manifest == old(store.manifest).(transcriptSeq := |store.transcript|)
      ensures ok ==> store.transcript != old(store.transcript)
      ensures var rec := Record(|old(store.transcript)| + 1, run, payload);
              (store.transcript == old(store.transcript) && store.trail == old(store.trail)) ||
              (&& ValidRecord(rec)
               && store.transcript == old(store.transcript) + [rec]
               && LoggedAll(old(store.trail), store.trail, [rec], store.manifest, ok))
      ensures records == if ok then old(records) + [Record(|old(store.transcript)| + 1, run, payload)] else old(records)
    {
      var rec := Record(|store.transcript| + 1, run, payload);
      if !ValidRecord(rec) { return false; }
      var appended := store.AppendTranscript([rec]);
      assert Numbered([rec], |old(store.transcript)|) == [rec];
      if appended.Failure? { return false; }
      records := records + appended.value;
      return true;
    }

    /** persistEventLocked: the cursor moves only with a fully successful append. */
    method PersistEvent(run: RunId, kind: EventKind) returns (ok: bool, e: Event)
      requires store.Valid()
      modifies this`cursor, store
      ensures e == Event(old(cursor) + 1, run, kind)
      ensures store.Valid() && store.transcript == old(store.transcript)
      ensures store.manifest == old(store.manifest).(eventCursor := |store.events|)
      ensures cursor == if ok then old(cursor) + 1 else old(cursor)
      ensures ok ==> old(cursor) == |old(store.events)| && store.events != old(store.events)
      ensures (store.events == old(store.events) && store.trail == old(store.trail)) ||
              (&& ValidKind(run, kind) && old(cursor) == |old(store.events)|
               && store.events == old(store.events) + [e]
               && Replaced(old(store.trail) + [WithEvent(Now(old(store.trail)), e)], store.trail, store.manifest, ok))
    {
      cursor := cursor + 1;
      e := Event(cursor, run, kind);
      if !ValidKind(run, kind) {
        cursor := cursor - 1;
        return false, e;
      }
      var appended := store.AppendEvent(e);
      if appended.Failure? {
        cursor := cursor - 1;
        return false, e;
      }
      return true, e;
    }

    /** A record the protocol allows is logged, and whatever happens the life goes on. */
    method Log(run: RunId, payload: Payload) returns (ok: bool)
      requires InStepWithDisk()
      requires ValidPayload(run, payload) ==>
                 MayLog(Now(store.trail).disk, NextRecord(Now(store.trail).disk, run, payload))
      modifies this`records, store
      ensures store.Valid() && hub.Valid()
      ensures Linked(store.trail, store.manifest, hub.history, cursor, seen)
      ensures ok || payload.AssistantBlock? ==> Lags(records, store.transcript)
      ensures old(store.trail) <= store.trail && Now(store.trail).spent == old(Now(store.trail).spent)
      ensures store.events == old(store.events)
      ensures store.manifest == old(store.manifest).(transcriptSeq := |store.transcript|)
      ensures store.transcript == old(store.transcript) ||
              (ValidPayload(run, payload)
                && store.transcript == old(store.transcript) + [Record(|old(store.transcript)| + 1, run, payload)])
      ensures ok ==> store.transcript != old(store.transcript)
      ensures |records| == |old(records)| + if ok then 1 else 0
    {
      hide Path, InStep, TerminalsHeld, Hub.Valid, Lags, Outcomes, Terminals, HasClose, CloseEvents, ShapeOf,
           MayLog, MayEmit, OwnIdFirst, Covered;
      ghost var before, m := store.trail, store.manifest;
      ghost var rec := NextRecord(Now(before).disk, run, payload);
      ok := AppendPayload(run, payload);
      LagsAppend(old(records), old(store.transcript), rec);
      if store.transcript != old(store.transcript) {
        MayLogOne(Now(before).disk, rec);
        LogLinked(before, store.trail, [rec], m, store.manifest, ok, hub.history, cursor, seen);
      }
    }

    /** emitLocked for an event the protocol allows, other than a terminal one. */
    method Emit(run: RunId, kind: EventKind) returns (ok: bool)
      requires store.Valid() && hub.Valid()
      requires Linked(store.trail, store.manifest, hub.history, cursor, seen)
      requires !Terminal(kind)
      requires ValidKind(run, kind) ==> MayEmit(Now(store.trail).disk, NextEvent(Now(store.trail).disk, run, kind))
      modifies this`cursor, store, hub`history, hub.all
      ensures store.Valid() && hub.Valid()
      ensures Linked(store.trail, store.manifest, hub.history, cursor, seen)
      ensures old(store.trail) <= store.trail && Now(store.trail).spent == old(Now(store.trail).spent)
      ensures store.transcript == old(store.transcript)
      ensures store.manifest == old(store.manifest).(eventCursor := |store.events|)
      ensures store.events == old(store.events) ||
              store.events == old(store.events) + [Event(|old(store.events)| + 1, run, kind)]
      ensures ok ==> cursor == |store.events| && store.events != old(store.events) && ValidKind(run, kind)
    {
      hide Path, InStep, TerminalsHeld, Hub.Valid, Lags, Outcomes, Terminals, HasClose, CloseEvents, ShapeOf,
           MayLog, MayEmit, OwnIdFirst, Covered;
      ghost var before, m := store.trail, store.manifest;
      var e;
      ok, e := PersistEvent(run, kind);
      if store.events != old(store.events) {
        EmitLinked(before, store.trail, e, m, store.manifest, ok, hub.history, old(cursor), seen);
      }
      if ok { hub.Publish(e); }
    }

    // ---- Faults and the end of a run --------------------------------------------------------

    /** faultSessionLocked: nothing durable changes any more, and every observation ends. */
    method Fault()
      requires hub.Valid()
      modifies this`state, this`cancelled, hub`subs, hub.all
      ensures hub.Valid() && hub.history == old(hub.history)
      ensures state.Faulted? && hub.subs == map[] && !cancelled
      ensures forall id <- old(hub.subs) :: old(hub.subs)[id].closed
    {
      state := Faulted;
      hub.CloseAll();
      cancelled := false;
    }

    /** faultRunLocked: the run's waiters are released once. */
    method FaultRun()
      requires store.Valid() && hub.Valid() && Consistent(store.trail, hub.history) && waiting
      modifies this`state, this`cancelled, this`waiting, hub`subs, hub.all
      ensures Valid() && state.Faulted? && hub.subs == map[]
    {
      hide Path, InStep, TerminalsHeld, Hub.Valid, Lags, Outcomes, Terminals, HasClose, CloseEvents, ShapeOf,
           MayLog, MayEmit, OwnIdFirst, Covered;
      Fault();
      CloseDone();
    }

    /** faultRun: the lock is taken once more, to give the run up. */
    method AbandonRun()
      requires Alive()
      modifies this, store, hub, hub.all
      ensures old(store.trail) <= store.trail && store.transcript == old(store.transcript) && running == old(running)
      ensures fresh(hub.all - old(hub.all))
      ensures Valid() && state.Faulted? && hub.subs == map[]
    {
      hide Path, InStep, TerminalsHeld, Hub.Valid, Lags, Outcomes, Terminals, HasClose, CloseEvents, ShapeOf,
           MayLog, MayEmit, OwnIdFirst, Covered;
      Interfere();
      LinkedIsConsistent(store.trail, store.manifest, hub.history, cursor, seen);
      FaultRun();
    }

    /** Closing a closed channel would panic. */
    method CloseDone()
      requires waiting
      modifies this`waiting
      ensures !waiting
    {
      waiting := false;
    }

    /** The three facts of a run's end, in order: its outcome is logged, its terminal event is
        logged, the run is cleared; only then is the event published.  Any failure is a fault. */
    method FinishRun(result: RunResult, cause: Cause)
      requires InRun() && ShapeOf(store.transcript).Settled?
      modifies this, store, hub, hub.all
      ensures Valid() && (state.Idle? || state.Faulted?)
      ensures old(store.trail) <= store.trail && Now(store.trail).spent == old(Now(store.trail).spent)
      ensures store.manifest.seen == old(store.manifest.seen) && seen == old(seen) && running == old(running)
      ensures state.Idle? ==>
                && store.transcript ==
                     old(store.transcript) + EndOfRun(|old(store.transcript)|, running, Ending(result, cause))
                && store.events ==
                     old(store.events) + [Event(|old(store.events)| + 1, running, TerminalKind(result, cause))]
                && hub.history == store.events
      ensures hub.all == old(hub.all) && (hub.subs == old(hub.subs) || hub.subs == map[])
      ensures state.Idle? ==> Matched(store.transcript, store.events, running)
      ensures state.Idle? ==> EndsLog(old(store.transcript), result, cause)
      ensures state.Idle? ==> EndsEvents(old(store.events), result, cause)
      ensures raised == old(raised)
    {
      hide Path, InStep, TerminalsHeld, Hub.Valid, Lags, Outcomes, Terminals, HasClose, CloseEvents, ShapeOf,
           MayLog, MayEmit, OwnIdFirst, Covered, Verdict;
      hide EndOfRun, Matched;
      var ok := LogEnd(result, cause);
      if !ok {
        LinkedIsConsistent(store.trail, store.manifest, hub.history, cursor, seen);
        FaultRun();
        return;
      }
      PublishEnd(result, cause);
      EndMatches(old(store.transcript), old(store.events), running, Ending(result, cause));
    }

    /** Behind the given records: the cancellation boundary of a cancelled run, and the outcome. */
    ghost predicate EndsLog(log: seq<Record>, result: RunResult, cause: Cause)
      reads this`running, store
    {
      && log <= store.transcript
      && |store.transcript| == |log| + (if result == RunCancelled then 2 else 1)
      && (result == RunCancelled ==>
            store.transcript[|log|].run == running && store.transcript[|log|].payload == CancellationBoundary)
      && var last := store.transcript[|store.transcript| - 1];
         last.run == running && last.payload == RunOutcome(result, cause)
    }

    /** Behind the given events: the one that tells the end, completed, cancelled or failed. */
    ghost predicate EndsEvents(events: seq<Event>, result: RunResult, cause: Cause)
      reads this`running, store
    {
      && events <= store.events && |store.events| == |events| + 1
      && var last := store.events[|events|];
         && last.run == running
         && (result == RunCompleted <==> last.kind == RunCompletedEvent)
         && (result == RunCancelled <==> last.kind == RunCancelledEvent)
         && (result == RunFailed || result == RunInterrupted <==> last.kind == RunFailedEvent(cause))
    }

    /** The cancellation boundary, if any, and the outcome. */
    method LogEnd(result: RunResult, cause: Cause) returns (ok: bool)
      requires InRun() && ShapeOf(store.transcript).Settled?
      modifies this`records, store
      ensures store.Valid() && hub.Valid() && Linked(store.trail, store.manifest, hub.history, cursor, seen)
      ensures old(store.trail) <= store.trail && Now(store.trail).spent == old(Now(store.trail).spent)
      ensures store.manifest == old(store.manifest).(transcriptSeq := |store.transcript|)
              && store.events == old(store.events)
      ensures ok ==>
                && Lags(records, store.transcript)
                && Outcomes(store.transcript, running) == 1 && Terminals(store.events, running) == 0
                && Verdict(store.transcript, running) == Some(TerminalKind(result, cause))
                && store.transcript ==
                     old(store.transcript) + EndOfRun(|old(store.transcript)|, running, Ending(result, cause))
      ensures ok ==> EndsLog(old(store.transcript), result, cause)
    {
      hide Path, InStep, TerminalsHeld, Hub.Valid, Lags, Outcomes, Terminals, HasClose, CloseEvents, ShapeOf,
           MayLog, MayEmit, OwnIdFirst, Covered, Verdict;
      ok := true;
      LoggableInRun(store.trail, store.manifest, running, CancellationBoundary);
      if result == RunCancelled {
        ok := Log(running, CancellationBoundary);
      }
      if ok {
        LoggableInRun(store.trail, store.manifest, running, RunOutcome(result, cause));
        ok := Log(running, RunOutcome(result, cause));
      }
    }

    /** From the logged outcome to the published terminal event. */
    method PublishEnd(result: RunResult, cause: Cause)
      requires InStepWithDisk() && state.Running? && waiting && store.manifest.active == Some(running)
      requires Outcomes(store.transcript, running) == 1 && Terminals(store.events, running) == 0
      requires Verdict(store.transcript, running) == Some(TerminalKind(result, cause))
      modifies this, store, hub, hub.all
      ensures Valid() && (state.Idle? || state.Faulted?)
      ensures old(store.trail) <= store.trail && Now(store.trail).spent == old(Now(store.trail).spent)
      ensures store.manifest.seen == old(store.manifest.seen) && seen == old(seen) && running == old(running)
      ensures store.transcript == old(store.transcript)
      ensures state.Idle? ==>
                && store.events ==
                     old(store.events) + [Event(|old(store.events)| + 1, running, TerminalKind(result, cause))]
                && hub.history == store.events
      ensures hub.all == old(hub.all) && (hub.subs == old(hub.subs) || hub.subs == map[])
      ensures state.Idle? ==> EndsEvents(old(store.events), result, cause)
      ensures raised == old(raised)
    {
      hide Path, InStep, TerminalsHeld, Hub.Valid, Lags, Outcomes, Terminals, HasClose, CloseEvents, ShapeOf,
           MayLog, MayEmit, OwnIdFirst, Covered, Verdict;
      var ok, e := PersistEnd(TerminalKind(result, cause));
      if !ok {
        FaultRun();
        return;
      }
      hub.Publish(e);
      state := Idle;
      cancelled := false;
      CloseDone();
    }

    /** The terminal event is durable and the run is cleared before anyone sees the event. */
    method PersistEnd(kind: EventKind) returns (ok: bool, e: Event)
      requires InStepWithDisk() && store.manifest.active == Some(running) && Terminal(kind)
      requires Outcomes(store.transcript, running) == 1 && Terminals(store.events, running) == 0
      requires Verdict(store.transcript, running) == Some(kind)
      modifies this`cursor, store
      ensures store.Valid() && hub.Valid() && Consistent(store.trail, hub.history)
      ensures old(store.trail) <= store.trail && Now(store.trail).spent == old(Now(store.trail).spent)
      ensures store.manifest.seen == old(store.manifest.seen) && store.transcript == old(store.transcript)
      ensures ok ==>
                && e == Event(|old(store.events)| + 1, running, kind)
                && store.events == old(store.events) + [e] == hub.history + [e]
                && cursor == |store.events|
                && Linked(store.trail, store.manifest, store.events, cursor, seen)
                && store.manifest.active.None? && !store.manifest.closed && !HasClose(store.transcript)
    {
      hide Path, InStep, TerminalsHeld, Hub.Valid, Lags, Outcomes, Terminals, HasClose, CloseEvents, ShapeOf,
           MayLog, MayEmit, OwnIdFirst, Covered, Verdict;
      ghost var before, m := store.trail, store.manifest;
      TerminalMayFollow(before, m, running, kind);
      ok, e := PersistEvent(running, kind);
      if store.events != old(store.events) {
        EmitLinked(before, store.trail, e, m, store.manifest, ok, hub.history, old(cursor), seen);
      }
      if !ok {
        LinkedIsConsistent(store.trail, store.manifest, hub.history, cursor, seen);
        return;
      }
      ghost var mid, m1 := store.trail, store.manifest;
      var finished := store.FinishRun(running);
      FinishLinked(mid, store.trail, running, m1, store.manifest, finished.Success?, hub.history, old(cursor), seen);
      ok := finished.Success?;
    }

    // ---- Commands -----------------------------------------------------------------------

    /** recordCommandLocked: an ID the store already knows is refused and changes nothing. */
    method RecordCommand(id: CommandId) returns (r: Result<(), Refusal>)
      requires store.Valid() && hub.Valid() && Linked(store.trail, store.manifest, hub.history, cursor, seen)
      modifies this`seen, store
      ensures store.Valid() && hub.Valid() && Linked(store.trail, store.manifest, hub.history, cursor, seen)
      ensures store.transcript == old(store.transcript) && store.events == old(store.events)
      ensures OwnIdFirst(old(store.trail), store.trail, id) && Now(store.trail).spent == old(Now(store.trail).spent)
      ensures store.manifest == old(store.manifest).(seen := old(store.manifest).seen + {id})
      ensures id in old(store.manifest).seen ==>
                r == Failure(AlreadySeen) && store.trail == old(store.trail) && seen == old(seen)
      ensures r.Success? ==> id in Now(store.trail).disk.manifest.seen && |old(store.trail)| < |store.trail|
      ensures r.Failure? ==> seen == old(seen) && (r.error.AlreadySeen? || r.error.NotDurable?)
      ensures r.Failure? ==> (r.error.AlreadySeen? <==> id in old(store.manifest).seen)
    {
      hide Path, InStep, TerminalsHeld, Hub.Valid, Lags, Outcomes, Terminals, HasClose, CloseEvents, ShapeOf,
           MayLog, MayEmit, OwnIdFirst, Covered;
      ghost var before, m := store.trail, store.manifest;
      var recorded := store.RecordCommand(id);
      if recorded == Failure(DuplicateCommand) {
        assert m.seen + {id} == m.seen;
        OwnIdUnused(before, id);
        return Failure(AlreadySeen);
      }
      OwnIdNow(before, store.trail, id, store.manifest, recorded.Success?);
      CatchUpLinked(before, store.trail, m, store.manifest, recorded.Success?, hub.history, cursor, seen);
      if recorded.Failure? { return Failure(NotDurable); }
      seen := seen + {id};
      return Success(());
    }

    /** A submitted prompt: refused, or the start of the next run. */
    method Submit(id: CommandId, prompt: string) returns (r: Result<(), Refusal>)
      requires Valid() && !state.Faulted? && id !in seen && prompt != ""
      modifies this, store, hub, hub.all
      ensures Valid()
      ensures OwnIdFirst(old(store.trail), store.trail, id)
      ensures old(state).Closed? ==> r == Failure(AlreadyClosed)
      ensures old(state).Running? ==> r == Failure(RunIsActive)
      ensures !old(state).Idle? ==> store.trail == old(store.trail) && state == old(state) && records == old(records)
      ensures !old(state).Idle? ==> raised == old(raised) && Flagged(old(cancelled), old(raised))
      ensures id in old(store.manifest).seen ==> r.Failure? && store.trail == old(store.trail)
      ensures r.Success? ==> id in Now(store.trail).disk.manifest.seen
      ensures r.Success? ==> Started(old(store.transcript), old(store.events), old(store.manifest).nextRun + 1, prompt)
      ensures r.Failure? && !r.error.SensitivePrompt? && !r.error.NotDurable? ==>
                store.trail == old(store.trail) && store.manifest == old(store.manifest) && state == old(state)
      ensures r.Failure? && r.error.SensitivePrompt? ==>
                && id in Now(store.trail).disk.manifest.seen && state.Idle?
                && store.transcript == old(store.transcript)
                && store.events == old(store.events) + [Event(|old(store.events)| + 1, 0, Warning(CREDENTIAL_WARNING))]
      ensures hub.all == old(hub.all) && (hub.subs == old(hub.subs) || hub.subs == map[])
      ensures state.Running? ==> r.Success? || old(state).Running?
      ensures old(state).Idle? && Detects(detector.rules, prompt) ==>
                r.Failure? && (r.error.SensitivePrompt? || r.error.AlreadySeen? || r.error.NotDurable?)
      ensures r == Failure(SensitivePrompt) ==> Detects(detector.rules, prompt)
      ensures r.Success? ==> !Detects(detector.rules, prompt)
      ensures r.Failure? ==> 
                Refuses(SubmitCommand(prompt), old(state), id in old(store.manifest).seen,
                        Detects(detector.rules, prompt), r.error)
    {
      hide Path, InStep, TerminalsHeld, Hub.Valid, Lags, Outcomes, Terminals, HasClose, CloseEvents, ShapeOf,
           MayLog, MayEmit, OwnIdFirst, Covered, Session.Started, Detects, Matches;
      OwnIdUnused(store.trail, id);
      MatchesDetect(detector.rules, prompt);
      if state.Closed? { return Failure(AlreadyClosed); }
      if state.Running? { return Failure(RunIsActive); }
      var found := FindMatches(detector.rules, prompt);
      if |found| != 0 {
        r := RefuseSensitive(id);
        return;
      }
      var refreshed: bool := *;
      if !refreshed { return Failure(NoInstructions); }
      docs := *;
      r := StartRun(id, prompt);
    }

    /** What a started run has logged and published. */
    ghost predicate Started(log: seq<Record>, events: seq<Event>, run: RunId, prompt: string)
      reads this, store, hub
    {
      && state.Running? && running == run && !cancelled
      && Lags(records, store.transcript) && Outcomes(store.transcript, run) == 0
      && store.transcript ==
           log + [Record(|log| + 1, run, UserMessage(prompt))]
             + (if docs == [] then [] else [Record(|log| + 2, run, InstructionsLoaded(docs))])
      && store.events == events + [Event(|events| + 1, run, RunStarted(prompt))]
      && ShapeOf(store.transcript).Settled?
      && store.manifest.nextRun == run
    }

    /** A prompt with a detected credential consumes its ID and leaves a warning, nothing else. */
    method RefuseSensitive(id: CommandId) returns (r: Result<(), Refusal>)
      requires Valid() && state.Idle?
      modifies this, store, hub, hub.all
      ensures Valid() && OwnIdFirst(old(store.trail), store.trail, id)
      ensures r.Failure? && (r.error.SensitivePrompt? || r.error.NotDurable? || r.error.AlreadySeen?)
      ensures id in old(store.manifest).seen ==> store.trail == old(store.trail)
      ensures r.error.AlreadySeen? <==> id in old(store.manifest).seen
      ensures r.error.AlreadySeen? ==>
                store.trail == old(store.trail) && store.manifest == old(store.manifest) && state.Idle?
      ensures r.error.SensitivePrompt? ==>
                && id in Now(store.trail).disk.manifest.seen && state.Idle?
                && store.transcript == old(store.transcript)
                && store.events == old(store.events) + [Event(|old(store.events)| + 1, 0, Warning(CREDENTIAL_WARNING))]
      ensures hub.all == old(hub.all) && (hub.subs == old(hub.subs) || hub.subs == map[])
      ensures !state.Running?
    {
      hide Path, InStep, TerminalsHeld, Hub.Valid, Lags, Outcomes, Terminals, HasClose, CloseEvents, ShapeOf,
           MayLog, MayEmit, OwnIdFirst, Covered;
      var recorded := RecordCommand(id);
      if recorded.Failure? { return Failure(recorded.error); }
      ghost var mid := store.trail;
      FactEmittable(store.trail, store.manifest, Warning(CREDENTIAL_WARNING));
      var told := Emit(0, Warning(CREDENTIAL_WARNING));
      OwnIdStays(old(store.trail), mid, store.trail, id);
      if !told {
        LinkedIsConsistent(store.trail, store.manifest, hub.history, cursor, seen);
        Fault();
        return Failure(NotDurable);
      }
      return Failure(SensitivePrompt);
    }

    method StartRun(id: CommandId, prompt: string) returns (r: Result<(), Refusal>)
      requires Valid() && state.Idle? && id !in seen && prompt != ""
      modifies this, store, hub, hub.all
      ensures Valid() && OwnIdFirst(old(store.trail), store.trail, id)
      ensures id in old(store.manifest).seen ==> r.Failure? && store.trail == old(store.trail)
      ensures r.Success? ==> id in Now(store.trail).disk.manifest.seen
      ensures r.Success? ==> Started(old(store.transcript), old(store.events), old(store.manifest).nextRun + 1, prompt)
      ensures r.Failure? ==> r.error.AlreadySeen? || r.error.NotDurable?
      ensures r.Failure? && !r.error.NotDurable? ==>
                store.trail == old(store.trail) && store.manifest == old(store.manifest) && state == old(state)
      ensures r == Failure(AlreadySeen) <==> id in old(store.manifest).seen
      ensures hub.all == old(hub.all) && (hub.subs == old(hub.subs) || hub.subs == map[])
      ensures state.Running? ==> r.Success?
    {
      hide Path, InStep, TerminalsHeld, Hub.Valid, Lags, Outcomes, Terminals, HasClose, CloseEvents, ShapeOf,
           MayLog, MayEmit, OwnIdFirst, Covered;
      OwnIdUnused(store.trail, id);
      var begun := BeginRun(id);
      if begun.Failure? { return Failure(begun.error); }
      ghost var mid := store.trail;
      var ok := RecordStart(begun.value, prompt);
      OwnIdStays(old(store.trail), mid, store.trail, id);
      if !ok {
        LinkedIsConsistent(store.trail, store.manifest, hub.history, cursor, seen);
        Fault();
        return Failure(NotDurable);
      }
      state, running, cancelled, waiting := Running, begun.value, false, true;
      return Success(());
    }

    /** beginRunLocked, and the fault when the run may or may not have begun on disk. */
    method BeginRun(id: CommandId) returns (r: Result<RunId, Refusal>)
      requires Valid() && state.Idle?
      modifies this`state, this`cancelled, this`seen, store, hub`subs, hub.all
      ensures store.Valid() && hub.Valid() && OwnIdFirst(old(store.trail), store.trail, id)
      ensures store.transcript == old(store.transcript) && store.events == old(store.events) && records == old(records)
      ensures hub.history == old(hub.history)
      ensures id in old(store.manifest).seen ==> r.Failure? && store.trail == old(store.trail)
      ensures r.Failure? ==> Valid() && (r.error.AlreadySeen? || r.error.NotDurable?)
      ensures r == Failure(AlreadySeen) <==> id in old(store.manifest).seen
      ensures r.Failure? && !r.error.NotDurable? ==>
                store.trail == old(store.trail) && store.manifest == old(store.manifest) && state.Idle?
      ensures r.Success? ==>
                && r.value == old(store.manifest).nextRun + 1 == store.manifest.nextRun
                && |old(store.trail)| < |store.trail|
                && Linked(store.trail, store.manifest, hub.history, cursor, seen)
                && store.manifest.active == Some(r.value)
                && Outcomes(store.transcript, r.value) == 0 && ShapeOf(store.transcript).Settled?
                && state.Idle? && hub.subs == old(hub.subs)
      ensures hub.all == old(hub.all) && (hub.subs == old(hub.subs) || hub.subs == map[])
      ensures !state.Running?
    {
      hide Path, InStep, TerminalsHeld, Hub.Valid, Lags, Outcomes, Terminals, HasClose, CloseEvents, ShapeOf,
           MayLog, MayEmit, OwnIdFirst, Covered;
      ghost var before, m := store.trail, store.manifest;
      OwnIdUnused(before, id);
      var begun := store.BeginRun(id);
      if begun == Failure(DuplicateCommand) { return Failure(AlreadySeen); }
      if begun == Failure(SessionIsClosed) { return Failure(AlreadyClosed); }
      OwnIdNow(before, store.trail, id, store.manifest, begun.Success?);
      BeginLinked(before, store.trail, m, store.manifest, begun.Success?, hub.history, cursor, seen, id);
      if begun.Failure? {
        Fault();
        return Failure(NotDurable);
      }
      seen := seen + {id};
      return Success(begun.value);
    }

    /** The facts a run starts with: the prompt, the instructions in force, and the start event. */
    method RecordStart(run: RunId, prompt: string) returns (ok: bool)
      requires InStepWithDisk() && store.manifest.active == Some(run)
      requires Outcomes(store.transcript, run) == 0 && ShapeOf(store.transcript).Settled?
      modifies this`records, this`cursor, store, hub`history, hub.all
      ensures store.Valid() && hub.Valid() && Linked(store.trail, store.manifest, hub.history, cursor, seen)
      ensures old(store.trail) <= store.trail
      ensures store.manifest.active == Some(run) && store.manifest.nextRun == old(store.manifest).nextRun
      ensures ok ==>
                && Lags(records, store.transcript) && cursor == |store.events|
                && Outcomes(store.transcript, run) == 0 && ShapeOf(store.transcript).Settled?
                && store.transcript == old(store.transcript)
                     + [Record(|old(store.transcript)| + 1, run, UserMessage(prompt))]
                     + (if docs == [] then [] else [Record(|old(store.transcript)| + 2, run, InstructionsLoaded(docs))])
                && store.events == old(store.events) + [Event(|old(store.events)| + 1, run, RunStarted(prompt))]
    {
      hide Path, InStep, TerminalsHeld, Hub.Valid, Lags, Outcomes, Terminals, HasClose, CloseEvents, ShapeOf,
           MayLog, MayEmit, OwnIdFirst, Covered;
      LoggableInRun(store.trail, store.manifest, run, UserMessage(prompt));
      ok := Log(run, UserMessage(prompt));
      if ok && |docs| > 0 {
        LoggableInRun(store.trail, store.manifest, run, InstructionsLoaded(docs));
        ok := Log(run, InstructionsLoaded(docs));
      }
      if ok {
        EmittableInRun(store.trail, store.manifest, run, RunStarted(prompt));
        ok := Emit(run, RunStarted(prompt));
      }
    }

    /** Cancelling only raises a flag; in a session without a run it merely consumes the ID. */
    method Cancel(id: CommandId) returns (r: Result<(), Refusal>)
      requires Valid() && !state.Faulted?
      modifies this`seen, this`cancelled, this`raised, store
      ensures Valid()
      ensures OwnIdFirst(old(store.trail), store.trail, id) && Now(store.trail).spent == old(Now(store.trail).spent)
      ensures store.transcript == old(store.transcript) && store.events == old(store.events)
      ensures store.manifest == old(store.manifest).(seen := old(store.manifest).seen + {id})
      ensures id in old(store.manifest).seen ==> r == Failure(AlreadySeen) && store.trail == old(store.trail)
      ensures r.Success? ==>
                id in Now(store.trail).disk.manifest.seen && (cancelled <==> old(cancelled) || state.Running?)
      ensures r.Failure? ==> r.error.AlreadySeen? || r.error.NotDurable?
      ensures r.Failure? && r.error.AlreadySeen? ==>
                store.trail == old(store.trail) && store.manifest == old(store.manifest)
      ensures r.Failure? ==> cancelled == old(cancelled)
      ensures r.Failure? ==> Refuses(CancelCommand, old(state), id in old(store.manifest).seen, false, r.error)
      ensures raised == old(raised) + if r.Success? && state.Running? then 1 else 0
      ensures state.Running? ==> Flagged(old(cancelled), old(raised))
    {
      hide Path, InStep, TerminalsHeld, Hub.Valid, Lags, Outcomes, Terminals, HasClose, CloseEvents, ShapeOf,
           MayLog, MayEmit, OwnIdFirst, Covered, Detects;
      r := RecordCommand(id);
      if r.Success? && state.Running? { cancelled, raised := true, raised + 1; }
    }

    method Resume(id: CommandId) returns (r: Result<(), Refusal>)
      requires Valid() && !state.Faulted?
      modifies this, store, hub, hub.all
      ensures Valid()
      ensures OwnIdFirst(old(store.trail), store.trail, id)
      ensures old(state).Closed? ==> r == Failure(AlreadyClosed)
      ensures old(state).Running? ==> r == Failure(RunIsActive)
      ensures !old(state).Idle? ==> store.trail == old(store.trail) && state == old(state) && records == old(records)
      ensures !old(state).Idle? ==> raised == old(raised) && Flagged(old(cancelled), old(raised))
      ensures id in old(store.manifest).seen ==> r.Failure? && store.trail == old(store.trail)
      ensures r.Success? ==>
                && id in Now(store.trail).disk.manifest.seen && state.Idle?
                && store.transcript == old(store.transcript)
                && store.events == old(store.events) + [Event(|old(store.events)| + 1, 0, SessionResumed)]
      ensures r.Failure? && !r.error.NotDurable? ==>
                store.trail == old(store.trail) && store.manifest == old(store.manifest) && state == old(state)
      ensures hub.all == old(hub.all) && (hub.subs == old(hub.subs) || hub.subs == map[])
      ensures state.Running? ==> old(state).Running?
      ensures r.Failure? ==> Refuses(ResumeCommand, old(state), id in old(store.manifest).seen, false, r.error)
    {
      hide Path, InStep, TerminalsHeld, Hub.Valid, Lags, Outcomes, Terminals, HasClose, CloseEvents, ShapeOf,
           MayLog, MayEmit, OwnIdFirst, Covered, Detects;
      OwnIdUnused(store.trail, id);
      if state.Closed? { return Failure(AlreadyClosed); }
      if state.Running? { return Failure(RunIsActive); }
      r := RecordCommand(id);
      if r.Failure? { return; }
      ghost var mid := store.trail;
      FactEmittable(store.trail, store.manifest, SessionResumed);
      var told := Emit(0, SessionResumed);
      OwnIdStays(old(store.trail), mid, store.trail, id);
      if !told {
        LinkedIsConsistent(store.trail, store.manifest, hub.history, cursor, seen);
        Fault();
        return Failure(NotDurable);
      }
    }

    /** Closing: the close fact, then the manifest, then the close event. */
    method Close(id: CommandId) returns (r: Result<(), Refusal>)
      requires Valid() && !state.Faulted?
      modifies this, store, hub, hub.all
      ensures Valid()
      ensures OwnIdFirst(old(store.trail), store.trail, id)
      ensures old(state).Running? ==>
                r == Failure(RunIsActive) && store.trail == old(store.trail) && state == old(state)
                  && records == old(records) && raised == old(raised) && Flagged(old(cancelled), old(raised))
      ensures id in old(store.manifest).seen ==> r.Failure? && store.trail == old(store.trail)
      ensures r.Success? ==> id in Now(store.trail).disk.manifest.seen && state.Closed?
      ensures old(state).Closed? ==>
                store.transcript == old(store.transcript) && store.events == old(store.events) && state.Closed?
      ensures r.Success? && old(state).Idle? ==>
                && store.transcript == old(store.transcript) + [Record(|old(store.transcript)| + 1, 0, SessionClosed)]
                && store.events == old(store.events) + [Event(|old(store.events)| + 1, 0, SessionClosedEvent)]
      ensures r.Failure? && !r.error.NotDurable? ==>
                store.trail == old(store.trail) && store.manifest == old(store.manifest) && state == old(state)
      ensures hub.all == old(hub.all) && (hub.subs == old(hub.subs) || hub.subs == map[])
      ensures state.Running? ==> old(state).Running?
      ensures r.Failure? ==> Refuses(CloseCommand, old(state), id in old(store.manifest).seen, false, r.error)
    {
      hide Path, InStep, TerminalsHeld, Hub.Valid, Lags, Outcomes, Terminals, HasClose, CloseEvents, ShapeOf,
           MayLog, MayEmit, OwnIdFirst, Covered, Detects;
      OwnIdUnused(store.trail, id);
      if state.Running? { return Failure(RunIsActive); }
      r := RecordCommand(id);
      if r.Failure? || state.Closed? { return; }
      ghost var mid := store.trail;
      var ok := WriteClose();
      OwnIdStays(old(store.trail), mid, store.trail, id);
      if !ok {
        Fault();
        return Failure(NotDurable);
      }
      state := State.Closed;
    }

    method WriteClose() returns (ok: bool)
      requires Valid() && state.Idle?
      modifies this`records, this`cursor, store, hub`history, hub.all
      ensures store.Valid() && hub.Valid() && Consistent(store.trail, hub.history) && old(store.trail) <= store.trail
      ensures ok ==>
                && InStepWithDisk() && cursor == |store.events| && store.manifest.active.None? && store.manifest.closed
                && HasClose(store.transcript) && CloseEvents(store.events) == 1
                && store.transcript == old(store.transcript) + [Record(|old(store.transcript)| + 1, 0, SessionClosed)]
                && store.events == old(store.events) + [Event(|old(store.events)| + 1, 0, SessionClosedEvent)]
    {
      hide Path, InStep, TerminalsHeld, Hub.Valid, Lags, Outcomes, Terminals, HasClose, CloseEvents, ShapeOf,
           MayLog, MayEmit, OwnIdFirst, Covered;
      CloseMayFollow(store.trail, store.manifest);
      ok := Log(0, SessionClosed);
      LinkedIsConsistent(store.trail, store.manifest, hub.history, cursor, seen);
      if !ok { return; }
      ghost var before, m := store.trail, store.manifest;
      var closed := store.Close();
      CloseLinked(before, store.trail, m, store.manifest, closed.Success?, hub.history, cursor, seen);
      if closed.Failure? { return false; }
      CloseEventMayFollow(store.trail, store.manifest);
      ok := Emit(0, SessionClosedEvent);
      LinkedIsConsistent(store.trail, store.manifest, hub.history, cursor, seen);
    }

    /** What is checked before the kind of the command matters, in this order. */
    method Gate(c: Command, callerGone: bool) returns (refused: Option<Refusal>)
      requires Valid()
      ensures if callerGone then refused == Some(CallerGone)
              else if c.id == "" || (c.kind.SubmitCommand? && (c.kind.prompt == "" || |c.kind.prompt| > 262144)) then
                refused == Some(InvalidCommand)
              else if c.session != "" && c.session != this.id then refused == Some(WrongSession)
              else if state.Faulted? then refused == Some(AlreadyFaulted)
              else refused == if c.id in seen then Some(AlreadySeen) else None
      ensures refused == Some(AlreadySeen) ==> c.id in store.manifest.seen
      ensures refused.Some? ==>
                refused.value.AlreadySeen? || GateRefuses(c, callerGone, this.id, state, refused.value)
    {
      if callerGone { return Some(CallerGone); }
      if !WellFormed(c) { return Some(InvalidCommand); }
      if c.session != "" && c.session != this.id { return Some(WrongSession); }
      if state.Faulted? { return Some(AlreadyFaulted); }
      KnownIsConsumed();
      if c.id in seen { return Some(AlreadySeen); }
      return None;
    }

    lemma FlagUnchanged()
      ensures Flagged(cancelled, raised)
    {
    }

    lemma KnownIsConsumed()
      requires Valid() && !state.Faulted?
      ensures seen <= store.manifest.seen
    {
      SeenIsConsumed(store.trail, store.manifest, hub.history, cursor, seen);
    }

    /** The command gate.  Whatever the command and the outcome: the first durable effect is the
        command's own ID; an ID the store has consumed is refused without effect; a refusal for any
        reason but a failed write or a detected credential consumes nothing; a faulted session
        stays faulted; and a command that meets a running run cannot touch its facts. */
    method Apply(c: Command, callerGone: bool) returns (r: Result<(), Refusal>)
      requires Valid()
      modifies this, store, hub, hub.all
      ensures Valid()
      ensures OwnIdFirst(old(store.trail), store.trail, c.id) && old(store.trail) <= store.trail
      ensures r.Success? ==> c.id in Now(store.trail).disk.manifest.seen
      ensures c.id in old(store.manifest).seen ==> r.Failure? && store.trail == old(store.trail)
      ensures r.Failure? && !r.error.SensitivePrompt? && !r.error.NotDurable? ==>
                store.trail == old(store.trail) && store.manifest == old(store.manifest) && state == old(state)
      ensures old(state).Faulted? ==> r.Failure? && state.Faulted? && store.trail == old(store.trail)
      ensures old(state).Running? ==>
                RunUntouched(old(store.transcript), old(store.events), old(store.manifest), old(running))
      ensures old(state).Running? ==> records == old(records) && Now(store.trail).spent == old(Now(store.trail).spent)
      ensures old(state).Idle? && r.Success? && c.kind.SubmitCommand? ==>
                Started(old(store.transcript), old(store.events), old(store.manifest).nextRun + 1, c.kind.prompt)
      ensures old(state).Idle? && r.Success? && c.kind.CloseCommand? ==> state.Closed?
      ensures old(state).Closed? ==>
                store.transcript == old(store.transcript) && store.events == old(store.events) && state.Closed?
      ensures hub.all == old(hub.all) && (hub.subs == old(hub.subs) || hub.subs == map[])
      ensures state.Running? && !old(state).Running? ==> r.Success? && c.kind.SubmitCommand? && old(state).Idle?
      ensures callerGone || !WellFormed(c) || (c.session != "" && c.session != this.id) ==>
                r.Failure? && store.trail == old(store.trail)
      ensures r.Success? && c.kind.CancelCommand? ==> (cancelled <==> old(cancelled) || old(state).Running?)
      ensures r.Success? && c.kind.CancelCommand? ==>
                store.transcript == old(store.transcript) && store.events == old(store.events)
      ensures old(state).Idle? && r.Success? && c.kind.ResumeCommand? ==>
                store.events == old(store.events) + [Event(|old(store.events)| + 1, 0, SessionResumed)]
      ensures r.Success? && c.kind.SubmitCommand? ==>
                0 < |c.kind.prompt| <= 262144 && !Detects(detector.rules, c.kind.prompt)
      ensures old(state).Idle? && c.kind.SubmitCommand? && Detects(detector.rules, c.kind.prompt) ==>
                r.Failure? && !r.error.NoInstructions?
      ensures r.Failure? ==>
                || GateRefuses(c, callerGone, this.id, old(state), r.error)
                || Refuses(c.kind, old(state), c.id in old(store.manifest).seen,
                           c.kind.SubmitCommand? && Detects(detector.rules, c.kind.prompt), r.error)
      ensures old(state).Running? ==>
                && raised == old(raised) + (if r.Success? && c.kind.CancelCommand? then 1 else 0)
                && Flagged(old(cancelled), old(raised))
    {
      hide Path, InStep, TerminalsHeld, Hub.Valid, Lags, Outcomes, Terminals, HasClose, CloseEvents, ShapeOf,
           MayLog, MayEmit, OwnIdFirst, Covered, Session.Started, Detects, Linked, Consistent, WellFormedEvents,
           Session.Flagged, GateRefuses;
      OwnIdUnused(store.trail, c.id);
      var refused := Gate(c, callerGone);
      FlagUnchanged();
      if refused.Some? { return Failure(refused.value); }
      match c.kind {
        case SubmitCommand(prompt) => r := Submit(c.id, prompt);
        case CancelCommand => r := Cancel(c.id);
        case ResumeCommand => r := Resume(c.id);
        case CloseCommand => r := Close(c.id);
      }
      OwnIdGrows(old(store.trail), store.trail, c.id);
    }

    /** Other goroutines may consume commands while a run is active, and nothing else. */
    ghost predicate RunUntouched(log: seq<Record>, events: seq<Event>, m: Manifest, run: RunId)
      reads this, store
    {
      && state.Running? && running == run
      && store.transcript == log && store.events == events
      && store.manifest == m.(seen := store.manifest.seen)
    }

    /** The cancel flag of the running run is up exactly if it was, or has been raised since. */
    ghost predicate Flagged(flag: bool, count: nat)
      reads this
    {
      count <= raised && (cancelled <==> flag || count < raised)
    }

    // ---- The run loop ------------------------------------------------------------------------

    /** What other goroutines may do while the run's goroutine does not hold the lock: apply
        commands, observe, unsubscribe, let the pumps deliver, and shut the process down. */
    method Interfere()
      requires Alive()
      modifies this, store, hub, hub.all
      ensures fresh(hub.all - old(hub.all))
      ensures old(store.trail) <= store.trail && Work() == old(Work())
      ensures RunUntouched(old(store.transcript), old(store.events), old(store.manifest), old(running))
      ensures records == old(records) && Flagged(old(cancelled), old(raised))
      ensures Alive()
    {
      hide Path, InStep, TerminalsHeld, Hub.Valid, Lags, Outcomes, Terminals, HasClose, CloseEvents, ShapeOf,
           MayLog, MayEmit, OwnIdFirst, Covered;
      var n: nat :| n >= 0;
      while n > 0
        invariant Alive() && fresh(hub.all - old(hub.all))
        invariant old(store.trail) <= store.trail && Work() == old(Work())
        invariant RunUntouched(old(store.transcript), old(store.events), old(store.manifest), old(running))
        invariant records == old(records) && Flagged(old(cancelled), old(raised))
      {
        Meddle();
        n := n - 1;
      }
    }

    method Meddle()
      requires Alive()
      modifies this, store, hub, hub.all
      ensures fresh(hub.all - old(hub.all))
      ensures old(store.trail) <= store.trail && Work() == old(Work())
      ensures RunUntouched(old(store.transcript), old(store.events), old(store.manifest), old(running))
      ensures records == old(records) && Flagged(old(cancelled), old(raised))
      ensures Alive()
    {
      hide Path, InStep, TerminalsHeld, Hub.Valid, Lags, Outcomes, Terminals, HasClose, CloseEvents, ShapeOf,
           MayLog, MayEmit, OwnIdFirst, Covered;
      var choice: nat := *;
      match choice {
        case 0 =>
          var c: Command := *;
          var gone: bool := *;
          var _ := Apply(c, gone);
        case 1 => Watch();
        case _ => cancelled, raised := true, raised + 1; // Shutdown begins with the run's context
      }
    }

    /** An observer joins, leaves, or is handed its next event, or Shutdown ends with closing them
        all, whatever the session's state. */
    method Watch()
      requires Valid()
      modifies hub`subs, hub`nextSub, hub`all, hub.all
      ensures hub.history == old(hub.history)
      ensures fresh(hub.all - old(hub.all)) && old(hub.all) <= hub.all
      ensures Valid()
    {
      hide Path, InStep, TerminalsHeld, Hub.Valid, Lags, Outcomes, Terminals, HasClose, CloseEvents, ShapeOf,
           Linked, Consistent;
      var choice: nat := *;
      var k: nat := *;
      match choice {
        case 0 => var _ := hub.Observe(k);
        case 1 => hub.Unsubscribe(k);
        case 2 => hub.CloseAll();
        case _ =>
          if hub.all != {} {
            var s :| s in hub.all;
            hub.Pump(s);
          }
      }
    }

    /** Work reserved before others took their turn stays covered. */
    method KeepReserved(counter: Counter, amount: nat)
      requires InRun() && Covered(Now(store.trail), running, counter, amount)
      modifies this, store, hub, hub.all
      ensures InRun() && Continues(old(Here()))
      ensures fresh(hub.all - old(hub.all)) && CallsReserved() == old(CallsReserved())
      ensures Work() == old(Work()) && store.events == old(store.events)
      ensures store.manifest.budgets == old(store.manifest).budgets
      ensures Covered(Now(store.trail), running, counter, amount) && records == old(records)
    {
      hide Path, InStep, TerminalsHeld, Hub.Valid, Lags, Outcomes, Terminals, HasClose, CloseEvents, ShapeOf,
           MayLog, MayEmit, OwnIdFirst, Covered;
      ghost var before := store.trail;
      Interfere();
      CoveredStays(before, store.trail, running, counter, amount);
    }

    /** The run's goroutine is alive and between two batches of tool calls. */
    ghost predicate Between()
      reads this, store, hub, hub.all
    {
      InRun() && ShapeOf(store.transcript).Settled?
    }

    ghost function Here(): Moment
      reads this, store
    {
      Moment(store.trail, store.transcript, running, cancelled, raised)
    }

    /** The same run goes on and has logged nothing more. */
    ghost predicate Continues(since: Moment)
      reads this, store
    {
      GoneOn(since, Here())
    }

    /** Others take their turn, and the run goes on where it stands. */
    method Yield()
      requires InRun()
      modifies this, store, hub, hub.all
      ensures InRun() && Continues(old(Here())) && running == old(running)
      ensures fresh(hub.all - old(hub.all)) && records == old(records)
      ensures Work() == old(Work()) && store.events == old(store.events) && store.transcript == old(store.transcript)
      ensures store.manifest.budgets == old(store.manifest).budgets
    {
      hide Path, InStep, TerminalsHeld, Hub.Valid, Lags, Outcomes, Terminals, HasClose, CloseEvents, ShapeOf,
           MayLog, MayEmit, OwnIdFirst, Covered;
      Interfere();
    }

    /** The logical calls reserved for the active run. */
    function CallsReserved(): nat
      reads this, store
    {
      if running in store.manifest.budgets then store.manifest.budgets[running].calls else 0
    }

    /** The work started so far. */
    ghost function Work(): map<RunId, Budget>
      reads store
    {
      if store.trail == [] then map[] else Now(store.trail).spent
    }

    /** The logical calls, the attempts and the waits the active run has started. */
    ghost function CallsStarted(): nat
      reads this, store
    {
      if running in Work() then Work()[running].calls else 0
    }

    ghost function AttemptsStarted(): nat
      reads this, store
    {
      if running in Work() then Work()[running].attempts else 0
    }

    ghost function DelayStarted(): nat
      reads this, store
    {
      if running in Work() then Work()[running].delay else 0
    }

    /** The delay reserved for the active run. */
    function DelayReserved(): nat
      reads this, store
    {
      if running in store.manifest.budgets then store.manifest.budgets[running].delay else 0
    }

    /** The attempts reserved for the active run. */
    function AttemptsReserved(): nat
      reads this, store
    {
      if running in store.manifest.budgets then store.manifest.budgets[running].attempts else 0
    }

    /** The whole history fits the provider's window. */
    ghost predicate Admitted(stable: string, dynamic: string, log: seq<Record>, tools: seq<ToolDefinition>, window: nat,
                             maxOutput: nat)
    {
      EstimateTokens(stable) + EstimateTokens(dynamic) + MessagesCost(ToMessages(log)) + ToolsCost(tools) + maxOutput
        <= window
    }

    /** The context of every request a run makes is ready for a provider. */
    method BuildRequest(stable: string, dynamic: string, tools: seq<ToolDefinition>, window: nat, maxOutput: nat)
      returns (r: Option<Request>)
      requires Between()
      ensures r.Some? ==> r.value == Request(stable, dynamic, ToMessages(records), tools, maxOutput)
      ensures r.Some? ==> Ready(r.value.messages)
      ensures r.Some? <==> Admitted(stable, dynamic, records, tools, window, maxOutput)
    {
      hide Path, InStep, TerminalsHeld, Hub.Valid, Ready, ToMessages, MessagesCost, ToolsCost, EstimateTokens;
      LagsShape(records, store.transcript);
      SettledIsReady(records);
      r := Messages.Build(stable, dynamic, records, tools, window, maxOutput);
    }

    method Reserve(counter: Counter, amount: nat) returns (r: Result<(), StoreError>)
      requires InRun()
      modifies store
      ensures InRun() && Continues(old(Here()))
      ensures Work() == old(Work()) && store.events == old(store.events)
      ensures r.Success? ==> Covered(Now(store.trail), running, counter, amount)
      ensures r.Success? && counter.LogicalCall? ==> old(CallsReserved()) < CallsReserved() <= MAX_CALLS
      ensures counter.LogicalCall? || CallsReserved() == old(CallsReserved())
      ensures counter.TransportAttempt? || AttemptsReserved() == old(AttemptsReserved())
      ensures old(running) in old(store.manifest).budgets
      ensures var m := old(store.manifest);
              match Reserved(m.budgets[old(running)], counter, amount)
              case None => r == Failure(OverBudget) && store.manifest == m && store.trail == old(store.trail)
              case Some(b) =>
                && store.manifest == m.(budgets := m.budgets[old(running) := b])
                && (r.Success? || r == Failure(WriteFailed))
    {
      hide Path, InStep, TerminalsHeld, Hub.Valid, Lags, Outcomes, Terminals, HasClose, CloseEvents, ShapeOf,
           MayLog, MayEmit, OwnIdFirst, Covered;
      ghost var before, m := store.trail, store.manifest;
      BudgetKnown(before, m, running);
      var reserved := store.ReserveBudget(running, counter, amount);
      if Reserved(m.budgets[running], counter, amount).Some? {
        ReserveLinked(before, store.trail, running, counter, amount, m, store.manifest, reserved.Success?,
          hub.history, cursor, seen);
      }
      if reserved.Failure? { return Failure(reserved.error); }
      return Success(());
    }

    /** The reserved work starts. */
    method Begin(counter: Counter, amount: nat)
      requires InRun() && Covered(Now(store.trail), running, counter, amount)
      modifies store`trail
      ensures InRun() && Continues(old(Here()))
      ensures Spent(Now(store.trail), running) == Counted(Spent(Now(old(store.trail)), running), counter, amount)
      ensures CallsReserved() == old(CallsReserved())
    {
      hide Path, InStep, TerminalsHeld, Hub.Valid, Lags, Outcomes, Terminals, HasClose, CloseEvents, ShapeOf,
           MayLog, MayEmit, OwnIdFirst, Covered;
      StartLinked(store.trail, store.manifest, running, counter, amount, hub.history, cursor, seen);
      store.NoteStart(running, counter, amount);
    }

    /** An event of the run itself, non-terminal. */
    method Tell(kind: EventKind) returns (ok: bool)
      requires InRun() && !Terminal(kind) && !SessionFact(kind)
      modifies this`cursor, store, hub`history, hub.all
      ensures InRun() && Continues(old(Here())) && running == old(running)
      ensures Work() == old(Work()) && CallsReserved() == old(CallsReserved())
      ensures store.manifest.budgets == old(store.manifest).budgets
      ensures ok ==> store.events == old(store.events) + [Event(|old(store.events)| + 1, running, kind)]
      ensures store.events == old(store.events) ||
              store.events == old(store.events) + [Event(|old(store.events)| + 1, running, kind)]
    {
      hide Path, InStep, TerminalsHeld, Hub.Valid, Lags, Outcomes, Terminals, HasClose, CloseEvents, ShapeOf,
           MayLog, MayEmit, OwnIdFirst, Covered;
      EmittableInRun(store.trail, store.manifest, running, kind);
      ok := Emit(running, kind);
    }

    /** onText: what of the chunk may be shown is published as a delta. */
    method OnText(turn: Turn, raw: string, ghost fed: string) returns (ok: bool, ghost shown: string)
      requires InRun() && turn.Fed(fed)
      modifies this`cursor, store, hub`history, hub.all, turn`streamed, turn.Own()
      ensures InRun() && Continues(old(Here())) && running == old(running)
      ensures Work() == old(Work())
      ensures store.manifest.budgets == old(store.manifest).budgets
      ensures Announced(store.events, running) == Announced(old(store.events), running)
      ensures turn.streamed == old(turn.streamed) + shown
      ensures turn.Fed(fed + raw)
      ensures ok ==> ShownAs(old(store.events), store.events, running, shown)
    {
      hide Path, InStep, TerminalsHeld, Hub.Valid, Lags, Outcomes, Terminals, HasClose, CloseEvents, ShapeOf,
           MayLog, MayEmit, OwnIdFirst, Covered, Turn.Fed, Announced;
      var safe := turn.Write(raw, fed);
      shown := safe;
      if safe == "" { return true, shown; }
      AnnouncedAppend(store.events, Event(|store.events| + 1, running, AssistantDelta(safe)), running);
      ok := Tell(AssistantDelta(safe));
    }

    /** The provider's next chunk, whatever it is. */
    method NextChunk(turn: Turn, ghost fed: string) returns (ok: bool, ghost raw: string)
      requires InRun() && turn.Fed(fed)
      modifies this, store, hub, hub.all, turn`streamed, turn.Own()
      ensures InRun() && Continues(old(Here())) && running == old(running)
      ensures fresh(hub.all - old(hub.all))
      ensures Work() == old(Work())
      ensures store.manifest.budgets == old(store.manifest).budgets
      ensures Announced(store.events, running) == Announced(old(store.events), running)
      ensures turn.Fed(fed + raw)
    {
      hide Path, InStep, TerminalsHeld, Hub.Valid, Lags, Outcomes, Terminals, HasClose, CloseEvents, ShapeOf,
           MayLog, MayEmit, OwnIdFirst, Covered, Turn.Fed, Announced, Session.InRun, GoneOn, Session.Work;
      Yield();
      var chunk: string := *;
      raw := chunk;
      ghost var here := Here();
      ghost var shown;
      ok, shown := OnText(turn, chunk, fed);
      GoneOnStill(old(Here()), here, Here());
    }

    /** One attempt.  The provider is arbitrary: it streams any chunks, heeds or ignores the
        callback's errors, and answers anything. */
    method CallProvider(turn: Turn, request: Request)
      returns (r: Result<Response, CallError>, ghost chunks: seq<string>)
      requires InRun() && turn.Fed("") && Ready(request.messages)
      modifies this, store, hub, hub.all, turn`streamed, turn`asked, turn`replies, turn.Own()
      ensures InRun() && Continues(old(Here()))
      ensures fresh(hub.all - old(hub.all))
      ensures Work() == old(Work())
      ensures store.manifest.budgets == old(store.manifest).budgets
      ensures Announced(store.events, running) == Announced(old(store.events), running)
      ensures turn.Fed(Concat(chunks))
      ensures turn.asked == old(turn.asked) + [request] && turn.replies == old(turn.replies) + [r]
    {
      hide Path, InStep, TerminalsHeld, Hub.Valid, Lags, Outcomes, Terminals, HasClose, CloseEvents, ShapeOf,
           MayLog, MayEmit, OwnIdFirst, Covered, Turn.Fed, Announced, Ready, Session.InRun, GoneOn, Session.Work;
      GoingOn();
      chunks := [];
      turn.asked := turn.asked + [request];
      var n: nat :| n >= 0;
      while n > 0
        invariant InRun() && Continues(old(Here())) && running == old(running)
        invariant fresh(hub.all - old(hub.all))
        invariant Announced(store.events, running) == Announced(old(store.events), running)
        invariant Work() == old(Work())
        invariant store.manifest.budgets == old(store.manifest).budgets
        invariant turn.Fed(Concat(chunks))
        invariant turn.asked == old(turn.asked) + [request] && turn.replies == old(turn.replies)
      {
        ghost var here := Here();
        var ok, raw := NextChunk(turn, Concat(chunks));
        GoneOnStill(old(Here()), here, Here());
        ConcatAppend(chunks, raw);
        chunks := chunks + [raw];
        var heeded: bool := *;
        if !ok && heeded {
          turn.replies := turn.replies + [Failure(OtherError)];
          return Failure(OtherError), chunks;
        }
        n := n - 1;
      }
      ghost var here := Here();
      Yield();
      GoneOnStill(old(Here()), here, Here());
      r := *;
      turn.replies := turn.replies + [r];
    }

    /** The next attempt is reserved, and then it starts. */
    method StartAttempt() returns (r: Result<(), StoreError>)
      requires InRun()
      modifies this, store, hub, hub.all
      ensures InRun() && Continues(old(Here())) && running == old(running)
      ensures fresh(hub.all - old(hub.all)) && store.events == old(store.events)
      ensures CallsReserved() == old(CallsReserved()) && CallsStarted() == old(CallsStarted())
      ensures AttemptsStarted() == old(AttemptsStarted()) + if r.Success? then 1 else 0
      ensures AttemptsReserved() == old(AttemptsReserved()) + if r == Failure(OverBudget) then 0 else 1
      ensures r == Failure(OverBudget) ==> AttemptsReserved() >= 96
    {
      hide Path, InStep, TerminalsHeld, Hub.Valid, Lags, Outcomes, Terminals, HasClose, CloseEvents, ShapeOf,
           MayLog, MayEmit, OwnIdFirst, Covered, Linked;
      Interfere();
      r := Reserve(TransportAttempt, 0);
      if r.Failure? { return; }
      KeepReserved(TransportAttempt, 0);
      Begin(TransportAttempt, 0);
    }

    /** A reserved attempt. */
    method Attempt(turn: Turn, request: Request)
      returns (r: Result<Response, CallError>, ghost chunks: seq<string>, ghost made: bool)
      requires InRun() && turn.Fed("") && Ready(request.messages)
      modifies this, store, hub, hub.all, turn`streamed, turn`asked, turn`replies, turn.Own()
      ensures InRun() && Continues(old(Here()))
      ensures running == old(running) && fresh(hub.all - old(hub.all))
      ensures CallsReserved() == old(CallsReserved())
      ensures CallsStarted() == old(CallsStarted())
      ensures AttemptsStarted() == old(AttemptsStarted()) + if made then 1 else 0
      ensures Announced(store.events, running) == Announced(old(store.events), running)
      ensures turn.Fed(Concat(chunks))
      ensures made ==> turn.asked == old(turn.asked) + [request] && turn.replies == old(turn.replies) + [r]
      ensures made ==> AttemptsReserved() == old(AttemptsReserved()) + 1
      ensures !made ==> turn.asked == old(turn.asked) && turn.replies == old(turn.replies)
      ensures !made ==> r == Failure(NoBudget) || r == Failure(OtherError)
      ensures r == Failure(NoBudget) && !made ==> AttemptsReserved() == old(AttemptsReserved()) >= 96
      ensures r == Failure(OtherError) && !made ==> AttemptsReserved() == old(AttemptsReserved()) + 1
    {
      hide Path, InStep, TerminalsHeld, Hub.Valid, Lags, Outcomes, Terminals, HasClose, CloseEvents, ShapeOf,
           MayLog, MayEmit, OwnIdFirst, Covered, Turn.Fed, Announced, Ready, Session.InRun, GoneOn, Linked;
      var reserved := StartAttempt();
      made := reserved.Success?;
      if reserved.Failure? {
        return Failure(if reserved.error.OverBudget? then NoBudget else OtherError), [], made;
      }
      ghost var here := Here();
      r, chunks := CallProvider(turn, request);
      GoneOnStill(old(Here()), here, Here());
    }

    /** One logical call: at most nine attempts and eight announced waits between them, one for every
        attempt but the first.  What is tried again, what is returned, and what was announced, reserved
        and started on the way is fixed by the provider's replies and by how the waits ended. */
    method CompleteWithRetry(turn: Turn, request: Request)
      returns (r: Result<Response, CallError>, ghost chunks: seq<string>)
      requires InRun() && turn.Fed("") && Ready(request.messages)
      requires turn.asked == [] && turn.replies == [] && turn.waits == []
      modifies this, store, hub, hub.all, turn`redactor, turn`streamed, turn`asked, turn`replies, turn`waits, turn.Own()
      ensures fresh(turn.Own() - old(turn.Own()))
      ensures InRun() && Continues(old(Here()))
      ensures fresh(hub.all - old(hub.all))
      ensures CallsReserved() == old(CallsReserved()) && CallsStarted() == old(CallsStarted())
      ensures RetriedCall(turn.replies, turn.waits, r, cancelled) && Asked(turn, request, |turn.replies|)
      ensures AttemptsStarted() == old(AttemptsStarted()) + |turn.replies|
      ensures Accounted(turn, r, Announced(store.events, running) - Announced(old(store.events), old(running)))
      ensures Unreserved(turn, r, AttemptsReserved() - old(AttemptsReserved()), AttemptsReserved())
      ensures r.Success? ==> turn.Fed(Concat(chunks))
    {
      hide Path, InStep, TerminalsHeld, Hub.Valid, Lags, Outcomes, Terminals, HasClose, CloseEvents, ShapeOf,
           MayLog, MayEmit, OwnIdFirst, Covered, Turn.Fed, Announced, Linked, Ready, RetriedCall, Session.InRun,
           Session.Work, WaitFailed, NotReserved, Session.Accounted, Session.Unreserved, Session.Asked, GoneOn;
      chunks := [];
      NothingTried(turn, request);
      GoingOn();
      var retry: nat := 0;
      while true
        invariant InRun()
        invariant Continues(old(Here())) && running == old(running)
        invariant fresh(hub.all - old(hub.all)) && fresh(turn.Own() - old(turn.Own()))
        invariant CallsReserved() == old(CallsReserved()) && CallsStarted() == old(CallsStarted())
        invariant Retrying(turn, request, retry) && turn.Fed("")
        invariant AttemptsReserved() == old(AttemptsReserved()) + retry
        invariant Announced(store.events, running) == Announced(old(store.events), running) + retry
        invariant AttemptsStarted() == old(AttemptsStarted()) + retry
        decreases Retry.MAX_RETRIES - retry
      {
        ghost var here := Here();
        var again;
        again, r, chunks := TryOnce(turn, request, retry);
        GoneOnStill(old(Here()), here, Here());
        if !again { return; }
        retry := retry + 1;
      }
    }

    /** The next attempt, and the wait behind it when it is to be tried again. */
    method TryOnce(turn: Turn, request: Request, retry: nat)
      returns (again: bool, r: Result<Response, CallError>, ghost chunks: seq<string>)
      requires InRun() && turn.Fed("") && Ready(request.messages) && Retrying(turn, request, retry)
      modifies this, store, hub, hub.all, turn`redactor, turn`streamed, turn`asked, turn`replies, turn`waits, turn.Own()
      ensures fresh(turn.Own() - old(turn.Own()))
      ensures InRun() && Continues(old(Here())) && running == old(running)
      ensures fresh(hub.all - old(hub.all))
      ensures CallsReserved() == old(CallsReserved()) && CallsStarted() == old(CallsStarted())
      ensures AttemptsStarted() == old(AttemptsStarted()) + |turn.replies| - retry
      ensures Tried(turn, request, retry, again, r,
                    Announced(store.events, running) - Announced(old(store.events), running),
                    AttemptsReserved() - old(AttemptsReserved()), AttemptsReserved())
      ensures again ==> turn.Fed("")
      ensures r.Success? ==> turn.Fed(Concat(chunks))
    {
      hide Path, InStep, TerminalsHeld, Hub.Valid, Lags, Outcomes, Terminals, HasClose, CloseEvents, ShapeOf,
           MayLog, MayEmit, OwnIdFirst, Covered, Turn.Fed, Announced, Retry.DelayOf, Reserved, Linked, Ready,
           RetriedCall, Session.InRun, Session.Work, WaitFailed, NotReserved, GoneOn, Session.Tried;
      ghost var here, reserved := Here(), AttemptsReserved();
      ghost var made;
      r, chunks, made := Attempt(turn, request);
      again := false;
      if r.Success? || cancelled || !r.error.ProviderFailure? || !Retry.Retryable(r.error.failure)
         || retry >= Retry.MAX_RETRIES
      {
        EndsWithReply(turn, request, retry, made, r, AttemptsReserved() - reserved, AttemptsReserved());
        return;
      }
      ghost var between := Here();
      again, r := RetryLater(turn, request, retry, r);
      chunks := [];
      GoneOnStill(here, between, Here());
    }

    /** The wait behind a failed attempt. */
    method RetryLater(turn: Turn, request: Request, retry: nat, failed: Result<Response, CallError>)
      returns (again: bool, r: Result<Response, CallError>)
      requires InRun() && retry < 8 && TryAgain(failed) && Failed(turn, request, retry, failed)
      modifies this, store, hub, hub.all, turn`redactor, turn`streamed, turn`waits
      ensures fresh(turn.Own() - old(turn.Own())) && (again ==> turn.Fed(""))
      ensures InRun() && Continues(old(Here())) && running == old(running)
      ensures fresh(hub.all - old(hub.all))
      ensures CallsReserved() == old(CallsReserved()) && CallsStarted() == old(CallsStarted())
      ensures AttemptsReserved() == old(AttemptsReserved()) && AttemptsStarted() == old(AttemptsStarted())
      ensures Tried(turn, request, retry, again, r,
                    Announced(store.events, running) - Announced(old(store.events), running), 1, AttemptsReserved())
      ensures r.Failure?
    {
      hide Path, InStep, TerminalsHeld, Hub.Valid, Lags, Outcomes, Terminals, HasClose, CloseEvents, ShapeOf,
           MayLog, MayEmit, OwnIdFirst, Covered, Turn.Fed, Announced, Retry.DelayOf, Reserved, Linked, Ready,
           RetriedCall, Session.InRun, Session.Work, WaitFailed, NotReserved, GoneOn, Session.Tried;
      ghost var told := Announced(store.events, running);
      var waited, _, _ := Backoff(turn, retry, failed.error.retryAfter);
      EndsWithWait(turn, request, retry, failed, waited, Announced(store.events, running) - told, AttemptsReserved());
      again := waited.Success?;
      r := if again then failed else Failure(waited.error);
    }

    /** The attempts so far, the last of which failed like this. */
    ghost predicate Failed(turn: Turn, request: Request, retry: nat, failed: Result<Response, CallError>)
      reads turn`asked, turn`replies, turn`waits
    {
      && |turn.waits| == retry && |turn.replies| == retry + 1 && Asked(turn, request, retry + 1)
      && turn.replies[retry] == failed
      && (forall i :: 0 <= i < retry ==> TryAgain(turn.replies[i]) && turn.waits[i].Success?)
    }

    /** What one attempt leaves, with what it has announced and reserved. */
    ghost predicate Tried(turn: Turn, request: Request, retry: nat, again: bool, r: Result<Response, CallError>,
                          told: int, reserved: int, total: nat)
      reads this, turn
    {
      if again then Retrying(turn, request, retry + 1) && told == reserved == 1
      else
        && RetriedCall(turn.replies, turn.waits, r, cancelled) && Asked(turn, request, |turn.replies|)
        && Accounted(turn, r, told + retry) && Unreserved(turn, r, reserved + retry, total)
    }

    /** Every attempt was the given request. */
    ghost predicate Asked(turn: Turn, request: Request, n: nat)
      reads turn`asked
    {
      |turn.asked| == n && forall i :: 0 <= i < n ==> turn.asked[i] == request
    }

    /** Every wait was announced, but for one that failed before it could be. */
    ghost predicate Accounted(turn: Turn, r: Result<Response, CallError>, told: int)
      reads turn
    {
      told == |turn.waits| || (told == |turn.waits| - 1 && WaitFailed(turn.replies, turn.waits, r))
    }

    /** One attempt is reserved for each reply, and one more when a reservation could not be written; one
        that is refused finds the limit of 96 reached. */
    ghost predicate Unreserved(turn: Turn, r: Result<Response, CallError>, reserved: int, total: nat)
      reads turn
    {
      var last := NotReserved(turn.replies, turn.waits, r);
      && reserved == |turn.replies| + (if last && r == Failure(OtherError) then 1 else 0)
      && (last && r == Failure(NoBudget) ==> total >= 96)
    }

    lemma EndsWithReply(turn: Turn, request: Request, retry: nat, made: bool, r: Result<Response, CallError>,
                        reserved: int, total: nat)
      requires |turn.waits| == retry <= 8 && |turn.replies| == |turn.asked| == retry + if made then 1 else 0
      requires forall i :: 0 <= i < |turn.asked| ==> turn.asked[i] == request
      requires forall i :: 0 <= i < retry ==> TryAgain(turn.replies[i]) && turn.waits[i].Success?
      requires made ==> turn.replies[retry] == r && reserved == 1
      requires made && TryAgain(r) ==> cancelled || retry == 8
      requires !made ==> (r == Failure(NoBudget) && reserved == 0 && total >= 96) ||
                         (r == Failure(OtherError) && reserved == 1)
      ensures Tried(turn, request, retry, false, r, 0, reserved, total)
    {
      var replies := turn.replies[..retry];
      assert forall i :: 0 <= i < retry ==> replies[i] == turn.replies[i];
      CallEnds(replies, turn.waits, made, r, cancelled);
      assert turn.replies == if made then replies + [r] else replies;
    }

    lemma EndsWithWait(turn: Turn, request: Request, retry: nat, r: Result<Response, CallError>,
                       waited: Result<(), CallError>, told: int, total: nat)
      requires |turn.replies| == |turn.asked| == |turn.waits| == retry + 1 <= 8
      requires forall i :: 0 <= i < |turn.asked| ==> turn.asked[i] == request
      requires forall i :: 0 <= i < retry ==> TryAgain(turn.replies[i]) && turn.waits[i].Success?
      requires TryAgain(r) && turn.replies[retry] == r && turn.waits[retry] == waited
      requires waited.Failure? ==> waited.error.NoBudget? || waited.error.OtherError?
      requires 0 <= told <= 1 && (waited.Success? ==> told == 1)
      ensures waited.Success? ==> Tried(turn, request, retry, true, r, told, 1, total)
      ensures waited.Failure? ==> Tried(turn, request, retry, false, Failure(waited.error), told, 1, total)
    {
      var replies, waits := turn.replies[..retry], turn.waits[..retry];
      assert forall i :: 0 <= i < retry ==> replies[i] == turn.replies[i] && waits[i] == turn.waits[i];
      WaitEnds(replies, waits, r, waited, cancelled);
      assert turn.replies == replies + [r] && turn.waits == waits + [waited];
    }

    /** So far every attempt failed, was to be tried again, and has been waited for. */
    ghost predicate Retrying(turn: Turn, request: Request, retry: nat)
      reads turn`asked, turn`replies, turn`waits
    {
      && retry <= 8 && |turn.replies| == |turn.waits| == retry && Asked(turn, request, retry)
      && (forall i :: 0 <= i < retry ==> TryAgain(turn.replies[i]) && turn.waits[i].Success?)
    }

    lemma NothingTried(turn: Turn, request: Request)
      requires turn.asked == [] && turn.replies == [] && turn.waits == []
      ensures Retrying(turn, request, 0)
    {
    }

    lemma GoingOn()
      requires InRun()
      ensures Continues(Here())
    {
    }

    /** The wait before the next attempt is reserved, the failed attempt's text is dropped, and the
        retry is announced before the wait starts.  The jitter is drawn anew for every wait. */
    method Backoff(turn: Turn, retry: nat, retryAfter: int)
      returns (r: Result<(), CallError>, ghost delay: nat, ghost jitter: int -> int)
      requires InRun() && retry < Retry.MAX_RETRIES
      modifies this, store, hub, hub.all, turn`redactor, turn`streamed, turn`waits
      ensures InRun() && Continues(old(Here()))
      ensures running == old(running) && fresh(hub.all - old(hub.all))
      ensures CallsReserved() == old(CallsReserved()) && AttemptsReserved() == old(AttemptsReserved())
      ensures CallsStarted() == old(CallsStarted())
      ensures AttemptsStarted() == old(AttemptsStarted())
      ensures fresh(turn.Own() - old(turn.Own()))
      ensures turn.waits == old(turn.waits) + [r] && (r.Failure? ==> r.error.NoBudget? || r.error.OtherError?)
      ensures delay == Retry.DelayOf(retry, retryAfter, jitter)
      ensures retryAfter > 0 ==> delay == if retryAfter > 120_000_000_000 then 120_000_000_000 else retryAfter
      ensures 0 <= Announced(store.events, running) - Announced(old(store.events), running) <= 1
      ensures r.Success? ==>
                && store.events == old(store.events)
                     + [Event(|old(store.events)| + 1, running, RetryScheduled(retry + 1, delay / 1_000_000))]
                && Announced(store.events, running) == Announced(old(store.events), running) + 1
                && DelayStarted() == old(DelayStarted()) + delay
                && DelayReserved() == old(DelayReserved()) + delay <= 600_000_000_000
      ensures r.Success? ==> turn.Fed("")
    {
      hide Path, InStep, TerminalsHeld, Hub.Valid, Lags, Outcomes, Terminals, HasClose, CloseEvents, ShapeOf,
           MayLog, MayEmit, OwnIdFirst, Covered, Turn.Fed, Announced, Retry.DelayOf, Reserved, Session.InRun, GoneOn,
           Session.Work, Linked;
      var drawn: int -> int := *;
      var wait := Retry.NextDelay(retry, retryAfter, drawn);
      delay, jitter := wait, drawn;
      var reserved := ReserveWait(turn, wait);
      r := Success(());
      if reserved.Failure? {
        r := Failure(if reserved.error.OverBudget? then NoBudget else OtherError);
      } else {
        ghost var here := Here();
        var slept, _ := Wait(retry + 1, wait);
        GoneOnStill(old(Here()), here, Here());
        if !slept { r := Failure(OtherError); }
      }
      turn.waits := turn.waits + [r];
    }

    /** The wait is reserved, and the failed attempt's text is dropped. */
    method ReserveWait(turn: Turn, wait: nat) returns (r: Result<(), StoreError>)
      requires InRun()
      modifies this, store, hub, hub.all, turn`redactor, turn`streamed
      ensures InRun() && Continues(old(Here())) && running == old(running)
      ensures fresh(hub.all - old(hub.all))
      ensures CallsReserved() == old(CallsReserved()) && AttemptsReserved() == old(AttemptsReserved())
      ensures store.events == old(store.events)
      ensures CallsStarted() == old(CallsStarted()) && AttemptsStarted() == old(AttemptsStarted())
      ensures DelayStarted() == old(DelayStarted())
      ensures fresh(turn.Own() - old(turn.Own()))
      ensures r.Success? ==> DelayReserved() == old(DelayReserved()) + wait <= 600_000_000_000
      ensures r.Success? ==> Covered(Now(store.trail), running, RetryDelay, wait) && turn.Fed("")
    {
      hide Path, InStep, TerminalsHeld, Hub.Valid, Lags, Outcomes, Terminals, HasClose, CloseEvents, ShapeOf,
           MayLog, MayEmit, OwnIdFirst, Covered, Turn.Fed;
      Interfere();
      r := Reserve(RetryDelay, wait);
      if r.Failure? { return; }
      turn.Reset();
      KeepReserved(RetryDelay, wait);
    }

    /** The retry is announced, and then the reserved wait starts: at a moment between them the event
        is durable and nothing of the wait has started. */
    method Wait(attempt: nat, delay: nat) returns (slept: bool, ghost told: nat)
      requires InRun() && Covered(Now(store.trail), running, RetryDelay, delay)
      modifies this, store, hub, hub.all
      ensures InRun() && Continues(old(Here())) && running == old(running)
      ensures fresh(hub.all - old(hub.all))
      ensures CallsReserved() == old(CallsReserved()) && store.manifest.budgets == old(store.manifest).budgets
      ensures CallsStarted() == old(CallsStarted())
      ensures AttemptsStarted() == old(AttemptsStarted())
      ensures store.events == old(store.events) ||
              store.events ==
                old(store.events)
                  + [Event(|old(store.events)| + 1, running, RetryScheduled(attempt, delay / 1_000_000))]
      ensures slept ==> store.events != old(store.events)
      ensures 0 <= Announced(store.events, running) - Announced(old(store.events), running) <= 1
      ensures slept ==> Announced(store.events, running) == Announced(old(store.events), running) + 1
      ensures slept ==> DelayStarted() == old(DelayStarted()) + delay
      ensures slept ==>
                && |old(store.trail)| <= told < |store.trail| && store.trail[told].disk.events == store.events
                && store.trail[told].spent == old(Now(store.trail).spent)
    {
      hide Path, InStep, TerminalsHeld, Hub.Valid, Lags, Outcomes, Terminals, HasClose, CloseEvents, ShapeOf,
           MayLog, MayEmit, OwnIdFirst, Covered, Announced;
      AnnouncedAppend(store.events, Event(|store.events| + 1, running, RetryScheduled(attempt, delay / 1_000_000)),
        running);
      ghost var before := store.trail;
      told := |store.trail|;
      var ok := Tell(RetryScheduled(attempt, delay / 1_000_000));
      if !ok { return false, told; }
      told := |store.trail| - 1;
      CoveredStays(before, store.trail, running, RetryDelay, delay);
      StartWait(delay);
      slept := *;
    }

    /** The reserved wait starts, and others take their turns around it. */
    method StartWait(delay: nat)
      requires InRun() && Covered(Now(store.trail), running, RetryDelay, delay)
      modifies this, store, hub, hub.all
      ensures InRun() && Continues(old(Here())) && running == old(running)
      ensures fresh(hub.all - old(hub.all))
      ensures store.manifest.budgets == old(store.manifest).budgets && store.events == old(store.events)
      ensures CallsStarted() == old(CallsStarted()) && AttemptsStarted() == old(AttemptsStarted())
      ensures DelayStarted() == old(DelayStarted()) + delay
    {
      hide Path, InStep, TerminalsHeld, Hub.Valid, Lags, Outcomes, Terminals, HasClose, CloseEvents, ShapeOf,
           MayLog, MayEmit, OwnIdFirst, Covered;
      KeepReserved(RetryDelay, delay);
      Begin(RetryDelay, delay);
      Interfere();
    }

    // ---- Tool calls ------------------------------------------------------------------------

    /** The whole batch is validated, then logged in one append.  A call that is not valid as a record,
        say because its redacted arguments are no longer JSON, refuses the batch, and nothing is
        written; there is no other failure but that of a write.  The session can still be opened if
        and only if the logged IDs are distinct and new to it, or nothing was logged. */
    method AppendToolCalls(calls: seq<Call>) returns (r: Result<(), StoreError>)
      requires Between() && calls != []
      modifies this`records, store
      ensures store.Valid() && hub.Valid() && Linked(store.trail, store.manifest, hub.history, cursor, seen)
      ensures old(store.trail) <= store.trail && CallsReserved() == old(CallsReserved())
      ensures store.manifest.active == old(store.manifest).active
      ensures r == Failure(BadRecord) <==> !Loggable(calls)
      ensures r.Failure? ==> r.error.BadRecord? || r.error.WriteFailed?
      ensures r == Failure(BadRecord) ==> store.transcript == old(store.transcript) && store.trail == old(store.trail)
      ensures store.transcript == old(store.transcript) ||
              store.transcript == old(store.transcript) + CallRecords(|old(store.transcript)|, running, calls)
      ensures OpenAccepts(Now(store.trail).disk) <==>
                old(OpenAccepts(Now(store.trail).disk)) &&
                (store.transcript == old(store.transcript) || NewIds(old(store.transcript), calls))
      ensures r.Success? ==>
                && InRun() && store.transcript != old(store.transcript)
                && ShapeOf(store.transcript) == Batch(running, true, calls)
                && !LastFailed(store.transcript)
    {
      hide Path, InStep, TerminalsHeld, Hub.Valid, Lags, Outcomes, Terminals, HasClose, CloseEvents, ShapeOf,
           MayLog, MayEmit, OwnIdFirst, Covered, OpenAccepts, NewIds, UniqueCalls;
      ghost var before, m := store.trail, store.manifest;
      var batch: seq<Record> := [];
      for i := 0 to |calls|
        invariant |batch| == i
        invariant forall k :: 0 <= k < i ==> batch[k] == Record(0, running, ToolCall(calls[k])) && ValidRecord(batch[k])
      {
        var rec := Record(0, running, ToolCall(calls[i]));
        if !ValidRecord(rec) {
          assert calls[i] in calls;
          return Failure(BadRecord);
        }
        batch := batch + [rec];
      }
      ghost var stamped := CallRecords(|store.transcript|, running, calls);
      assert Numbered(batch, |store.transcript|) == stamped;
      BatchMayFollow(before, m, running, calls);
      var appended := store.AppendTranscript(batch);
      if store.transcript != old(store.transcript) {
        LogLinked(before, store.trail, stamped, m, store.manifest, appended.Success?, hub.history, cursor, seen);
        BatchDecides(before, store.trail, calls);
      }
      if appended.Failure? { return Failure(appended.error); }
      LagsAppendAll(records, old(store.transcript), stamped);
      records := records + appended.value;
      return Success(());
    }

    /** The batch is logged, or the run is given up. */
    method LogCalls(calls: seq<Call>) returns (alive: bool)
      requires Between() && calls != []
      modifies this, store, hub, hub.all
      ensures old(store.trail) <= store.trail && running == old(running)
      ensures fresh(hub.all - old(hub.all))
      ensures !alive ==> Valid() && state.Faulted?
      ensures !Loggable(calls) ==> !alive && store.transcript == old(store.transcript)
      ensures alive ==>
                && InRun() && CallsReserved() == old(CallsReserved()) && Flagged(old(cancelled), old(raised))
                && store.transcript == old(store.transcript) + CallRecords(|old(store.transcript)|, running, calls)
                && ShapeOf(store.transcript) == Batch(running, true, calls)
                && !LastFailed(store.transcript)
    {
      hide Path, InStep, TerminalsHeld, Hub.Valid, Lags, Outcomes, Terminals, HasClose, CloseEvents, ShapeOf,
           MayLog, MayEmit, OwnIdFirst, Covered, OpenAccepts, NewIds, LastFailed;
      Interfere();
      var logged := AppendToolCalls(calls);
      alive := logged.Success?;
      if !alive { AbandonRun(); }
    }

    lemma BatchDecides(before: seq<World>, after: seq<World>, calls: seq<Call>)
      requires Path(before) && Path(after)
      requires Now(after).disk.records ==
               Now(before).disk.records + CallRecords(|Now(before).disk.records|, running, calls)
      ensures OpenAccepts(Now(after).disk) <==> OpenAccepts(Now(before).disk) && NewIds(Now(before).disk.records, calls)
    {
      var log := Now(before).disk.records;
      LoggedBatch(log, calls);
      hide OpenAccepts, NewIds, UniqueCalls, PairedIn, CallRecords, Path;
      BatchIdsDecide(Now(after).disk.records, |log|, running, calls, []);
      OpenExactlyUnique(before);
      OpenExactlyUnique(after);
    }

    lemma LoggedBatch(log: seq<Record>, calls: seq<Call>)
      ensures var all := log + CallRecords(|log|, running, calls);
              all[..|log|] == log && PairedIn(all, |log|, running, calls, [])
    {
    }

    /** Every call of the batch is valid as a record of the run. */
    predicate Loggable(calls: seq<Call>)
      reads this`running
    {
      forall c <- calls :: ValidPayload(running, ToolCall(c))
    }

    /** The start of a call is published before others take their turn. */
    method Announce(call: Call) returns (ok: bool)
      requires InRun()
      modifies this, store, hub, hub.all
      ensures InRun() && Continues(old(Here())) && running == old(running)
      ensures fresh(hub.all - old(hub.all)) && CallsReserved() == old(CallsReserved())
      ensures ok ==>
                store.events ==
                  old(store.events) + [Event(|old(store.events)| + 1, running, ToolStarted(call.id, call.name))]
    {
      hide Path, InStep, TerminalsHeld, Hub.Valid, Lags, Outcomes, Terminals, HasClose, CloseEvents, ShapeOf,
           MayLog, MayEmit, OwnIdFirst, Covered, Session.InRun, GoneOn, Linked, Session.Work;
      ok := Tell(ToolStarted(call.id, call.name));
      if !ok { return; }
      ghost var here := Here();
      Yield();
      GoneOnStill(old(Here()), here, Here());
    }

    /** The broker's answer to a call of the batch under the cancel flag as it was read, with a projected
        content of at most 64 KiB: skipped, blocked, or the result of the execution. */
    ghost predicate Obtained(call: Call, stopped: bool, blocked: bool, flag: bool, a: Answer) {
      && a.callId == call.id && |a.content| <= 65536
      && if stopped then a.outcome == Skipped && broker.Projects(SKIPPED_TEXT, a.content)
         else if blocked then a.outcome == Blocked && broker.Projects(BLOCKED_TEXT, a.content)
         else broker.Answers(flag, call, a)
    }

    lemma ObtainedId(call: Call, stopped: bool, blocked: bool, flag: bool, a: Answer)
      ensures Obtained(call, stopped, blocked, flag, a) ==> a.callId == call.id && (stopped ==> a.outcome == Skipped)
    {
    }

    /** A run that is given up leaves nothing inconsistent behind. */
    lemma RunIsConsistent()
      requires InRun()
      ensures store.Valid() && hub.Valid() && Consistent(store.trail, hub.history) && waiting
    {
      LinkedIsConsistent(store.trail, store.manifest, hub.history, cursor, seen);
    }

    lemma ObtainedAs(call: Call, stopped: bool, blocked: bool, flag: bool, a: Answer)
      requires stopped ==> broker.Skips(call, a)
      requires !stopped && blocked ==>
                 a.callId == call.id && a.outcome == Blocked && broker.Projects(BLOCKED_TEXT, a.content)
      requires !stopped && !blocked ==> broker.Answers(flag, call, a) && broker.SafeId(call.id) == call.id
      ensures Obtained(call, stopped, blocked, flag, a)
    {
      hide Redact, Bounded, ActionBroker.SafeId, ActionBroker.BlockedCall, ActionBroker.UnknownText, BLOCKED_TEXT,
           SKIPPED_TEXT, CANCELLED_TEXT, ActionBroker.Projects;
      var raw :| broker.Projects(raw, a.content);
      broker.ProjectionFits(raw, a.content);
    }

    /** The answer to one call of the batch: skipped behind a failure, blocked when credential
        material was found in it, and otherwise announced and executed outside the lock. */
    method ObtainAnswer(call: Call, stopped: bool, blocked: bool) returns (ok: bool, a: Answer, ghost flag: bool)
      requires InRun() && (blocked || broker.SafeId(call.id) == call.id)
      modifies this, store, hub, hub.all
      ensures InRun() && Continues(old(Here())) && running == old(running)
      ensures fresh(hub.all - old(hub.all)) && CallsReserved() == old(CallsReserved())
      ensures ok ==> Obtained(call, stopped, blocked, flag, a)
      ensures ok ==> (old(cancelled) ==> flag) && (flag ==> cancelled)
      ensures ok && (stopped || blocked) ==> store.events == old(store.events)
      ensures ok && !stopped && !blocked ==>
                store.events ==
                  old(store.events) + [Event(|old(store.events)| + 1, running, ToolStarted(call.id, call.name))]
    {
      hide Path, InStep, TerminalsHeld, Hub.Valid, Lags, Outcomes, Terminals, HasClose, CloseEvents, ShapeOf,
           MayLog, MayEmit, OwnIdFirst, Covered, Redact, ActionBroker.SafeId, ActionBroker.BlockedCall, LastFailed,
           IsResult, IsCall, ActionBroker.Projects, Session.Obtained, Session.InRun, GoneOn, Linked, Session.Work;
      a := Answer(call.id, Skipped, "");
      ok := true;
      Yield();
      flag := cancelled;
      ghost var here := Here();
      if stopped {
        a := broker.SkippedResult(call.id);
      } else if blocked {
        a := broker.BlockedResult(call.id);
      } else {
        ok := Announce(call);
        GoneOnStill(old(Here()), here, Here());
        if !ok { return; }
        flag := cancelled;
        a := broker.Execute(cancelled, call);
      }
      ObtainedAs(call, stopped, blocked, flag, a);
      here := Here();
      Yield();
      GoneOnStill(old(Here()), here, Here());
    }

    /** The result of the batch's next call is logged, then its end is published. */
    method RecordAnswer(call: Call, a: Answer, ghost pending: seq<Call>) returns (ok: bool)
      requires InRun() && ShapeOf(store.transcript).Batch? && ShapeOf(store.transcript).run == running
      requires ShapeOf(store.transcript).pending == pending && pending != [] && pending[0] == call
               && a.callId == call.id
      requires LastFailed(store.transcript) ==> a.outcome == Skipped
      modifies this`records, this`cursor, store, hub`history, hub.all
      ensures store.Valid() && hub.Valid() && Linked(store.trail, store.manifest, hub.history, cursor, seen)
      ensures Alive()
      ensures old(store.trail) <= store.trail && CallsReserved() == old(CallsReserved())
      ensures store.manifest.active == old(store.manifest).active
      ensures ok ==>
                && InRun()
                && store.transcript == old(store.transcript)
                     + [Record(|old(store.transcript)| + 1, running, ToolResult(call.id, a.outcome, a.content))]
                && (LastFailed(store.transcript) <==> a.outcome != Succeeded)
                && ShapeOf(store.transcript) == if |pending| == 1 then Settled else Batch(running, false, pending[1..])
      ensures ok ==>
                store.events ==
                  old(store.events) + [Event(|old(store.events)| + 1, running, ToolFinished(call.id, a.outcome))]
    {
      hide Path, InStep, TerminalsHeld, Hub.Valid, Lags, Outcomes, Terminals, HasClose, CloseEvents, ShapeOf,
           MayLog, MayEmit, OwnIdFirst, Covered;
      AnswerMayFollow(store.trail, store.manifest, running, ToolResult(a.callId, a.outcome, a.content));
      ok := Log(running, ToolResult(a.callId, a.outcome, a.content));
      if !ok { return; }
      EmittableInRun(store.trail, store.manifest, running, ToolFinished(call.id, a.outcome));
      ok := Emit(running, ToolFinished(call.id, a.outcome));
    }

    /** Where the batch stands when its first calls have been answered. */
    ghost predicate Answering(base: nat, safe: seq<Call>, outcomes: seq<ToolOutcome>)
      reads this, store, hub, hub.all
    {
      && |outcomes| <= |safe|
      && InRun()
      && (LastFailed(store.transcript) <==> !AllSucceeded(outcomes))
      && ShapeOf(store.transcript) ==
           (if |outcomes| == |safe| then Settled else Batch(running, outcomes == [], safe[|outcomes|..]))
      && PairedIn(store.transcript, base, running, safe, outcomes)
      && LiveOutcomes(outcomes)
    }

    /** One call of the batch, from its answer to the published end of the call. */
    method AnswerCall(ghost base: nat, ghost safe: seq<Call>, ghost outcomes: seq<ToolOutcome>, call: Call,
                      stopped: bool, blocked: bool)
      returns (ok: bool, outcome: ToolOutcome, ghost answer: Answer, ghost flag: bool)
      requires Answering(base, safe, outcomes) && |outcomes| < |safe| && call == safe[|outcomes|]
      requires stopped <==> !AllSucceeded(outcomes)
      requires blocked || broker.SafeId(call.id) == call.id
      modifies this, store, hub, hub.all
      ensures old(store.trail) <= store.trail && running == old(running)
      ensures fresh(hub.all - old(hub.all))
      ensures !ok ==> Valid() && state.Faulted?
      ensures ok ==> Answering(base, safe, outcomes + [outcome]) && CallsReserved() == old(CallsReserved())
      ensures ok ==> old(store.transcript) <= store.transcript
      ensures ok ==> outcome == answer.outcome && Obtained(call, stopped, blocked, flag, answer)
      ensures ok ==>
                store.transcript == old(store.transcript)
                  + [Record(|old(store.transcript)| + 1, running, ToolResult(call.id, answer.outcome, answer.content))]
      ensures ok ==> Flagged(old(cancelled), old(raised)) && (old(cancelled) ==> flag) && (flag ==> cancelled)
    {
      hide Path, InStep, TerminalsHeld, Hub.Valid, Lags, Outcomes, Terminals, HasClose, CloseEvents, ShapeOf,
           MayLog, MayEmit, OwnIdFirst, Covered, Redact, ActionBroker.SafeId, ActionBroker.BlockedCall,
           ActionBroker.SafeCall, ActionBroker.Answers, ActionBroker.Projects, LastFailed, PairedIn, LiveOutcomes,
           AllSucceeded, Session.InRun, Session.Alive, Linked, Session.Obtained;
      var a;
      ok, a, flag := ObtainAnswer(call, stopped, blocked);
      outcome, answer := a.outcome, a;
      ObtainedId(call, stopped, blocked, flag, a);
      if !ok {
        RunIsConsistent();
        FaultRun();
        return;
      }
      ghost var log := store.transcript;
      ok := RecordAnswer(call, a, safe[|outcomes|..]);
      if !ok {
        AbandonRun();
        return;
      }
      PairedOneMore(log, base, running, safe, outcomes,
        Record(|log| + 1, running, ToolResult(call.id, a.outcome, a.content)));
      LiveOneMore(outcomes, outcome);
      assert safe[|outcomes|..][1..] == safe[|outcomes| + 1..];
    }

    /** The calls under the identities and with the arguments they may be recorded with. */
    ghost predicate SafeCalls(calls: seq<Call>, safe: seq<Call>) {
      |safe| == |calls| && forall i :: 0 <= i < |calls| ==> safe[i] == broker.SafeCall(calls[i])
    }

    /** The batch failed first at a call that was blocked for credential material. */
    ghost predicate BlockedFirst(calls: seq<Call>, outcomes: seq<ToolOutcome>) {
      exists i :: 0 <= i < |outcomes| && i < |calls| && broker.BlockedCall(calls[i]) && AllSucceeded(outcomes[..i])
    }

    lemma BlockedFirstStep(calls: seq<Call>, outcomes: seq<ToolOutcome>, o: ToolOutcome)
      requires |outcomes| < |calls|
      ensures BlockedFirst(calls, outcomes + [o]) <==>
                BlockedFirst(calls, outcomes) || (AllSucceeded(outcomes) && broker.BlockedCall(calls[|outcomes|]))
    {
      hide ActionBroker.BlockedCall, AllSucceeded;
      var all := outcomes + [o];
      assert all[..|outcomes|] == outcomes;
      assert forall i :: 0 <= i < |outcomes| ==> all[..i] == outcomes[..i];
    }

    /** The results of the batch's first calls stand in the log behind the calls as the broker gave them:
        each under its call's ID, executed under the cancel flag of that moment unless an earlier call
        did not succeed or credential material blocked it. */
    ghost predicate Served(log: seq<Record>, base: nat, calls: seq<Call>, safe: seq<Call>, answers: seq<Answer>,
                           flags: seq<bool>)
    {
      && |answers| == |flags| <= |safe| == |calls| && base + |safe| + |answers| <= |log|
      && forall i :: 0 <= i < |answers| ==> ServedAt(log, base, calls, safe, answers, flags, i)
    }

    ghost predicate ServedAt(log: seq<Record>, base: nat, calls: seq<Call>, safe: seq<Call>, answers: seq<Answer>,
                             flags: seq<bool>, i: nat)
      requires i < |answers| == |flags| <= |safe| == |calls| && base + |safe| + |answers| <= |log|
    {
      && log[base + |safe| + i].payload == ToolResult(safe[i].id, answers[i].outcome, answers[i].content)
      && Obtained(safe[i], exists k :: 0 <= k < i && answers[k].outcome != Succeeded, broker.BlockedCall(calls[i]),
                  flags[i], answers[i])
    }

    lemma ServedOneMore(log: seq<Record>, base: nat, calls: seq<Call>, safe: seq<Call>, answers: seq<Answer>,
                        flags: seq<bool>, r: Record, stopped: bool, a: Answer, flag: bool)
      requires Served(log, base, calls, safe, answers, flags) && |answers| < |safe|
      requires |log| == base + |safe| + |answers|
      requires r.payload == ToolResult(safe[|answers|].id, a.outcome, a.content)
      requires stopped <==> !AllSucceeded(OutcomesOf(answers))
      requires Obtained(safe[|answers|], stopped, broker.BlockedCall(calls[|answers|]), flag, a)
      ensures Served(log + [r], base, calls, safe, answers + [a], flags + [flag])
      ensures OutcomesOf(answers + [a]) == OutcomesOf(answers) + [a.outcome]
    {
      hide Session.Obtained, ActionBroker.BlockedCall;
      var all := answers + [a];
      forall i | 0 <= i <= |answers| ensures ServedAt(log + [r], base, calls, safe, all, flags + [flag], i) {
        assert forall k :: 0 <= k < |answers| ==> all[k] == answers[k];
        if i < |answers| {
          assert ServedAt(log, base, calls, safe, answers, flags, i);
        } else {
          assert forall k :: 0 <= k < |answers| ==> OutcomesOf(answers)[k] == answers[k].outcome;
        }
      }
    }

    /** A batch of calls: logged whole, then answered one by one in the provider's order.  When the
        run survives, every call has its result, the log stands between batches again, and the
        session can be opened again if and only if the projected IDs were distinct and new.  A batch
        with a call that may not be logged writes nothing and faults the session. */
    method RunTools(calls: seq<Call>)
      returns (alive: bool, blockedSensitive: bool, ghost safe: seq<Call>, ghost outcomes: seq<ToolOutcome>,
        ghost answers: seq<Answer>, ghost flags: seq<bool>)
      requires Between() && calls != []
      modifies this, store, hub, hub.all
      ensures old(store.trail) <= store.trail && running == old(running)
      ensures fresh(hub.all - old(hub.all))
      ensures !alive ==> Valid() && state.Faulted?
      ensures alive ==> Between() && CallsReserved() == old(CallsReserved())
      ensures SafeCalls(calls, safe)
      ensures !Loggable(safe) ==> !alive && store.transcript == old(store.transcript)
      ensures alive ==> (OpenAccepts(Now(store.trail).disk) <==>
                           old(OpenAccepts(Now(store.trail).disk)) && NewIds(old(store.transcript), safe))
      ensures alive ==> |outcomes| == |safe| && LiveOutcomes(outcomes)
      ensures alive ==>
                old(store.transcript) <= store.transcript
                  && PairedIn(store.transcript, |old(store.transcript)|, running, safe, outcomes)
      ensures alive ==> (blockedSensitive <==> BlockedFirst(calls, outcomes))
      ensures alive ==>
                && outcomes == OutcomesOf(answers)
                && Served(store.transcript, |old(store.transcript)|, calls, safe, answers, flags)
      ensures alive ==> Flagged(old(cancelled), old(raised)) && Rises(old(cancelled), flags, cancelled)
    {
      hide Path, InStep, TerminalsHeld, Hub.Valid, Lags, Outcomes, Terminals, HasClose, CloseEvents, ShapeOf,
           MayLog, MayEmit, OwnIdFirst, Covered, Redact, ActionBroker.SafeId, ActionBroker.BlockedCall,
           ActionBroker.SafeCall, LastFailed, PairedIn, LiveOutcomes, AllSucceeded, OpenAccepts, NewIds;
      hide Session.BlockedFirst, Session.Served, OutcomesOf;
      var projected, sensitive := broker.ProjectCalls(calls);
      safe, outcomes, answers, flags := projected, [], [], [];
      blockedSensitive := false;
      ghost var base := |store.transcript|;
      alive := LogCalls(projected);
      if !alive { return; }
      BatchBegins(old(store.transcript), projected);
      assert projected[0..] == projected;
      alive, blockedSensitive, outcomes, answers, flags := AnswerCalls(base, calls, projected, sensitive);
      if alive { RoundDecides(old(store.trail), base, projected, outcomes); }
    }

    /** The calls of a logged batch, answered one after the other. */
    method AnswerCalls(ghost base: nat, ghost calls: seq<Call>, safe: seq<Call>, sensitive: seq<bool>)
      returns (alive: bool, blockedSensitive: bool, ghost outcomes: seq<ToolOutcome>, ghost answers: seq<Answer>,
        ghost flags: seq<bool>)
      requires Answering(base, safe, []) && safe != [] && |sensitive| == |safe| == |calls|
      requires forall i :: 0 <= i < |calls| ==>
                 safe[i] == broker.SafeCall(calls[i]) && sensitive[i] == broker.BlockedCall(calls[i])
      modifies this, store, hub, hub.all
      ensures old(store.trail) <= store.trail && running == old(running)
      ensures fresh(hub.all - old(hub.all))
      ensures !alive ==> Valid() && state.Faulted?
      ensures alive ==>
                |outcomes| == |safe| && Answering(base, safe, outcomes) && CallsReserved() == old(CallsReserved())
      ensures alive ==> old(store.transcript) <= store.transcript
      ensures alive ==> (blockedSensitive <==> BlockedFirst(calls, outcomes))
      ensures alive ==> outcomes == OutcomesOf(answers) && Served(store.transcript, base, calls, safe, answers, flags)
      ensures alive ==> Flagged(old(cancelled), old(raised)) && Rises(old(cancelled), flags, cancelled)
    {
      hide Path, InStep, TerminalsHeld, Hub.Valid, Lags, Outcomes, Terminals, HasClose, CloseEvents, ShapeOf,
           MayLog, MayEmit, OwnIdFirst, Covered, Redact, ActionBroker.SafeId, ActionBroker.BlockedCall,
           ActionBroker.SafeCall, LastFailed, PairedIn, LiveOutcomes, AllSucceeded;
      hide Session.BlockedFirst, Session.Answering, Session.Obtained, Session.Served;
      NothingBlocked(calls);
      AnsweringLength(base, safe, []);
      NothingServed(store.transcript, base, calls, safe);
      outcomes, answers, flags := [], [], [];
      blockedSensitive := false;
      var stopped := false;
      for index := 0 to |safe|
        invariant Answering(base, safe, outcomes) && |outcomes| == index && (stopped <==> !AllSucceeded(outcomes))
        invariant blockedSensitive <==> BlockedFirst(calls, outcomes)
        invariant outcomes == OutcomesOf(answers) && Served(store.transcript, base, calls, safe, answers, flags)
        invariant Flagged(old(cancelled), old(raised)) && Rises(old(cancelled), flags, cancelled)
        invariant old(store.transcript) <= store.transcript
        invariant old(store.trail) <= store.trail && running == old(running)
        invariant fresh(hub.all - old(hub.all)) && CallsReserved() == old(CallsReserved())
      {
        PlainCallKeepsId(calls, safe, sensitive, index);
        if !stopped && sensitive[index] { blockedSensitive := true; }
        var outcome;
        ghost var answer, flag;
        ghost var log := store.transcript;
        AnsweringLength(base, safe, outcomes);
        alive, outcome, answer, flag := AnswerCall(base, safe, outcomes, safe[index], stopped, sensitive[index]);
        if !alive { return; }
        ghost var result := Record(|log| + 1, running, ToolResult(safe[index].id, answer.outcome, answer.content));
        ServedOneMore(log, base, calls, safe, answers, flags, result, stopped, answer, flag);
        BlockedFirstStep(calls, outcomes, outcome);
        BatchStep(outcomes, outcome);
        outcomes, answers, flags := outcomes + [outcome], answers + [answer], flags + [flag];
        if outcome != Succeeded { stopped := true; }
      }
      alive := true;
    }

    lemma AnsweringLength(base: nat, safe: seq<Call>, outcomes: seq<ToolOutcome>)
      requires Answering(base, safe, outcomes)
      ensures |store.transcript| == base + |safe| + |outcomes|
    {
    }

    lemma NothingServed(log: seq<Record>, base: nat, calls: seq<Call>, safe: seq<Call>)
      requires |safe| == |calls| && base + |safe| <= |log|
      ensures Served(log, base, calls, safe, [], []) && OutcomesOf([]) == []
    {
    }

    lemma NothingBlocked(calls: seq<Call>)
      ensures !BlockedFirst(calls, []) && AllSucceeded([])
    {
    }

    /** A batch that faults the session although the provider made no mistake: arguments that quote the
        beginning of a private key are valid JSON, and no JSON any more when they have been redacted. */
    lemma QuotedKeyCannotBeLogged(c: Call, front: string, rest: string)
      requires FindsKeys(broker.detector.rules) && ReadsJson(broker.jsonValid)
      requires c.id != "" && c.name != ""
      requires c.arguments == RawJson(front + (Marker(BEGIN_KEY, "") + rest), true)
      requires front != "" && front[0] == '{' && forall i :: 0 <= i < |front| ==> front[i] != '-'
      requires Leftmost(END_KEY, rest).None?
      ensures WellFormedCalls([c]) && !Loggable([broker.SafeCall(c)])
    {
      hide Redact, FindsKeys, ReadsJson, Marker, Leftmost, ActionBroker.SafeId;
      RedactedJsonBreaks(broker.detector.rules, broker.jsonValid, front, rest);
      OneCall(c, broker.SafeCall(c));
    }

    lemma OneCall(c: Call, safe: Call)
      ensures c.id != "" && c.name != "" && c.arguments.wellFormed ==> WellFormedCalls([c])
      ensures !safe.arguments.wellFormed ==> !Loggable([safe])
    {
      assert safe in [safe];
    }

    /** After the round, too, the projected IDs decide. */
    lemma RoundDecides(before: seq<World>, base: nat, safe: seq<Call>, outcomes: seq<ToolOutcome>)
      requires Between() && Path(before) && PairedIn(store.transcript, base, running, safe, outcomes)
      requires Now(before).disk.records == store.transcript[..base]
      ensures OpenAccepts(Now(store.trail).disk) <==>
                OpenAccepts(Now(before).disk) && NewIds(Now(before).disk.records, safe)
    {
      hide PairedIn, OpenAccepts, NewIds;
      BatchIdsDecide(store.transcript, base, running, safe, outcomes);
      OpenExactlyUnique(before);
      OpenExactlyUnique(store.trail);
    }

    lemma BatchStep(outcomes: seq<ToolOutcome>, o: ToolOutcome)
      ensures AllSucceeded(outcomes + [o]) <==> AllSucceeded(outcomes) && o == Succeeded
    {
      assert forall i :: 0 <= i < |outcomes| ==> (outcomes + [o])[i] == outcomes[i];
      assert (outcomes + [o])[|outcomes|] == o;
    }

    lemma BatchBegins(log: seq<Record>, safe: seq<Call>)
      requires store.transcript == log + CallRecords(|log|, running, safe)
      ensures PairedIn(store.transcript, |log|, running, safe, []) && LiveOutcomes([]) && AllSucceeded([])
    {
    }

    /** A call without credential material keeps its identity. */
    lemma PlainCallKeepsId(calls: seq<Call>, safe: seq<Call>, blocked: seq<bool>, i: nat)
      requires |safe| == |blocked| == |calls| && i < |calls|
      requires safe[i] == broker.SafeCall(calls[i]) && blocked[i] == broker.BlockedCall(calls[i])
      ensures blocked[i] || broker.SafeId(safe[i].id) == safe[i].id
    {
      hide Redact;
    }

    // ---- One logical call after the other -----------------------------------------------------

    /** The engine's own check of the stream.  With line-local rules and no private-key marker it
        never fails a run whose accepted attempt streamed its text, whatever earlier attempts did;
        when a match reaches over the end of a line, it always does; and for the key rule beside
        local ones it does exactly then or when a match touches the first key block of a line. */
    method Disagrees(turn: Turn, text: string, ghost chunks: seq<string>) returns (projected: string, bad: bool)
      requires turn.detector == detector && turn.Complete(Concat(chunks))
      ensures IsProjection(text, projected)
      ensures bad <==> turn.streamed != "" && turn.streamed != projected
      ensures Agreeable(detector.rules, chunks, text) ==> !bad
      ensures Concat(chunks) == text && CoversNewline(detector.rules, text) ==> bad
      ensures KeyDetector(detector.rules) && Concat(chunks) == text ==> (bad <==> Fails(detector.rules, text))
    {
      hide Redact, LinesFor, KeyDetector, Fails;
      var text', _ := RedactText(detector.rules, text);
      projected := text';
      if LineLocal(detector.rules) && detector.rules.begin(text).None? && Concat(chunks) == text {
        PassIsWholeText(detector.rules, text);
      }
      if Concat(chunks) == text && CoversNewline(detector.rules, text) {
        CoveredNewlineDisagrees(detector.rules, text);
      }
      if KeyDetector(detector.rules) && Concat(chunks) == text { AgreesExactly(detector.rules, text); }
      bad := turn.streamed != "" && turn.streamed != projected;
    }

    ghost predicate IsProjection(text: string, projected: string) {
      projected == Redact(detector.rules, text).0
    }

    /** The run is over: its facts agree, or the session is faulted. */
    ghost predicate Ended(trail: seq<World>, run: RunId)
      reads this, store, hub, hub.all
    {
      && Valid() && (state.Idle? || state.Faulted?)
      && trail <= store.trail && running == run
      && (state.Idle? ==> Matched(store.transcript, store.events, running))
    }

    /** Behind what it had logged before, the run logged exactly its end. */
    ghost predicate EndedAfter(log: seq<Record>, end: Ending)
      reads this, store
    {
      state.Idle? ==> EndsLog(log, end.result, end.cause)
    }

    /** The run's goroutine takes the lock for the last time. */
    method End(result: RunResult, cause: Cause)
      requires Between()
      modifies this, store, hub, hub.all
      ensures fresh(hub.all - old(hub.all))
      ensures EndedAfter(old(store.transcript), Ending(result, cause))
      ensures state.Idle? ==>
                store.events ==
                  old(store.events) + [Event(|old(store.events)| + 1, running, TerminalKind(result, cause))]
      ensures state.Idle? ==> EndsLog(old(store.transcript), result, cause)
      ensures state.Idle? ==> EndsEvents(old(store.events), result, cause)
      ensures old(raised) <= raised
      ensures Ended(old(store.trail), old(running))
    {
      hide Path, InStep, TerminalsHeld, Hub.Valid, Lags, Outcomes, Terminals, HasClose, CloseEvents, ShapeOf,
           MayLog, MayEmit, OwnIdFirst, Covered, EndOfRun, Matched;
      Interfere();
      FinishRun(result, cause);
    }

    /** The held-back tail of the accepted attempt. */
    method FinishStream(turn: Turn, ghost chunks: seq<string>) returns (ok: bool, ghost shown: string)
      requires InRun() && turn.Fed(Concat(chunks))
      modifies this`cursor, store, hub`history, hub.all, turn`streamed, turn.Own()
      ensures InRun() && Continues(old(Here()))
      ensures hub.subs == old(hub.subs) && hub.all == old(hub.all) && CallsReserved() == old(CallsReserved())
      ensures ok ==> ShownAs(old(store.events), store.events, running, shown)
      ensures turn.streamed == old(turn.streamed) + shown
      ensures turn.Complete(Concat(chunks))
    {
      hide Path, InStep, TerminalsHeld, Hub.Valid, Lags, Outcomes, Terminals, HasClose, CloseEvents, ShapeOf,
           MayLog, MayEmit, OwnIdFirst, Covered, Redact, Turn.Fed, Turn.Complete, Agreeable, Matched, PairedIn,
           LiveOutcomes, AllSucceeded;
      var trailing := turn.Finish(Concat(chunks));
      shown := trailing;
      if trailing == "" { return true, shown; }
      ok := Tell(AssistantDelta(trailing));
    }

    /** From the top of the loop to the reserved and started logical call. */
    method PrepareCall(stable: string, dynamic: string, tools: seq<ToolDefinition>, window: nat, maxOutput: nat)
      returns (r: Option<Request>, ghost end: Ending)
      requires Between()
      modifies this, store, hub, hub.all
      ensures old(store.trail) <= store.trail && running == old(running)
      ensures fresh(hub.all - old(hub.all))
      ensures r.None? ==> Ended(old(store.trail), old(running)) && EndedAfter(old(store.transcript), end)
      ensures r.None? ==>
                end == Ending(RunCancelled, NoCause) || end == Ending(RunFailed, ContextLimit)
                  || end == Ending(RunFailed, BudgetExhausted)
      ensures r.Some? ==> Between() && old(CallsReserved()) < CallsReserved() <= MAX_CALLS && Ready(r.value.messages)
      ensures r.Some? ==> Continues(old(Here())) && records == old(records)
      ensures r.Some? ==> r.value == Request(stable, dynamic, ToMessages(old(records)), tools, maxOutput)
      ensures old(raised) <= raised
      ensures end.result == RunCancelled && r.None? ==> old(cancelled) || old(raised) < raised
      ensures old(cancelled) ==> r.None? && end == Ending(RunCancelled, NoCause)
      ensures r.Some? ==> Admitted(stable, dynamic, old(records), tools, window, maxOutput)
      ensures r.None? && end.cause == ContextLimit ==>
                !Admitted(stable, dynamic, old(records), tools, window, maxOutput)
      ensures r.None? && end.cause == BudgetExhausted ==>
                Admitted(stable, dynamic, old(records), tools, window, maxOutput)
    {
      hide Path, InStep, TerminalsHeld, Hub.Valid, Lags, Outcomes, Terminals, HasClose, CloseEvents, ShapeOf,
           MayLog, MayEmit, OwnIdFirst, Covered, Redact, Turn.Fed, Turn.Complete, Agreeable, Matched, PairedIn,
           LiveOutcomes, AllSucceeded, Ready, Session.Admitted;
      Interfere();
      end := Ending(RunCancelled, NoCause);
      if cancelled {
        End(RunCancelled, NoCause);
        return None, end;
      }
      Interfere();
      r := BuildRequest(stable, dynamic, tools, window, maxOutput);
      if r.None? {
        end := Ending(RunFailed, ContextLimit);
        End(RunFailed, ContextLimit);
        return;
      }
      var reserved := StartCall();
      if reserved.Failure? {
        end := Ending(RunFailed, BudgetExhausted);
        End(RunFailed, BudgetExhausted);
        return None, end;
      }
    }

    /** The logical call is reserved, and then it starts. */
    method StartCall() returns (r: Result<(), StoreError>)
      requires Between()
      modifies this, store, hub, hub.all
      ensures Between() && Continues(old(Here())) && running == old(running) && records == old(records)
      ensures fresh(hub.all - old(hub.all))
      ensures r.Success? ==> old(CallsReserved()) < CallsReserved() <= MAX_CALLS
    {
      hide Path, InStep, TerminalsHeld, Hub.Valid, Lags, Outcomes, Terminals, HasClose, CloseEvents, ShapeOf,
           MayLog, MayEmit, OwnIdFirst, Covered, Linked;
      Interfere();
      r := Reserve(LogicalCall, 0);
      if r.Failure? { return; }
      KeepReserved(LogicalCall, 0);
      Begin(LogicalCall, 0);
    }

    /** The provider's answer, with the held-back tail of an accepted attempt let through. */
    method Ask(request: Request)
      returns (turn: Turn, r: Result<Response, CallError>, ghost chunks: seq<string>, ghost reply: Reply)
      requires InRun() && Ready(request.messages)
      modifies this, store, hub, hub.all
      ensures InRun() && Continues(old(Here()))
      ensures fresh(hub.all - old(hub.all)) && fresh(turn)
      ensures CallsReserved() == old(CallsReserved())
      ensures r.Success? ==> turn.detector == detector && turn.Complete(Concat(chunks))
      ensures RetriedCall(turn.replies, turn.waits, reply, cancelled) && Asked(turn, request, |turn.replies|)
      ensures r == reply || (reply.Success? && r == Failure(OtherError))
    {
      hide Path, InStep, TerminalsHeld, Hub.Valid, Lags, Outcomes, Terminals, HasClose, CloseEvents, ShapeOf,
           MayLog, MayEmit, OwnIdFirst, Covered, Redact, Turn.Fed, Turn.Complete, Agreeable, Matched, PairedIn,
           LiveOutcomes, AllSucceeded, Ready, RetriedCall, Session.Asked, Session.InRun, GoneOn, Announced, Linked,
           Session.Work, Session.Accounted, Session.Unreserved;
      turn := new Turn(detector);
      r, chunks := CompleteWithRetry(turn, request);
      reply := r;
      if r.Success? {
        ghost var here := Here();
        var told, _ := FinishStream(turn, chunks);
        GoneOnStill(old(Here()), here, Here());
        if !told { r := Failure(OtherError); }
      }
    }

    /** The provider's last reply was this answer. */
    ghost predicate Accepted(turn: Turn, response: Response)
      reads turn`replies
    {
      turn.replies != [] && turn.replies[|turn.replies| - 1] == Success(response)
    }

    /** The cause a run that fails on an error of its model call is given. */
    ghost predicate Names(e: CallError, cause: Cause) {
      match e
      case NoBudget => cause == BudgetExhausted
      case OtherError => cause == EngineInvariant
      case ProviderFailure(failure, _) =>
        && (failure.Permanent? ==> cause == ProviderPermanent)
        && (failure.Protocol? ==> cause == ProviderProtocol)
        && (failure.RateLimit? || failure.Transient? || failure.Overloaded? ==> cause == ProviderTransient)
        && (failure.ContextOverflow? ==> cause == ContextLimit)
        && (failure.OutputLimit? ==> cause == ProviderOutput)
        && (failure.ClassCancelled? ==> cause == EngineInvariant)
    }

    /** One logical call, up to the answer the loop goes on with. */
    method CallModel(request: Request)
      returns (go: bool, turn: Turn, response: Response, ghost chunks: seq<string>, ghost end: Ending,
        ghost reply: Reply, ghost error: CallError)
      requires Between() && Ready(request.messages)
      modifies this, store, hub, hub.all
      ensures old(store.trail) <= store.trail && running == old(running) && old(raised) <= raised
      ensures fresh(hub.all - old(hub.all)) && fresh(turn)
      ensures !go ==> Ended(old(store.trail), old(running)) && EndedAfter(old(store.transcript), end)
      ensures Asked(turn, request, |turn.replies|)
      ensures !go ==>
                || (end == Ending(RunCancelled, NoCause) && (old(cancelled) || old(raised) < raised))
                || (&& end.result == RunFailed && Names(error, end.cause) && !old(cancelled)
                    && RetriedCall(turn.replies, turn.waits, reply, false)
                    && (reply == Failure(error) || (reply.Success? && error == OtherError)))
      ensures old(cancelled) ==> !go && end == Ending(RunCancelled, NoCause)
      ensures go ==> Between() && CallsReserved() == old(CallsReserved())
      ensures go ==> Continues(old(Here()))
      ensures go ==> turn.detector == detector && turn.Complete(Concat(chunks))
      ensures go ==> RetriedCall(turn.replies, turn.waits, Success(response), false)
      ensures go ==> Accepted(turn, response)
    {
      hide Path, InStep, TerminalsHeld, Hub.Valid, Lags, Outcomes, Terminals, HasClose, CloseEvents, ShapeOf,
           MayLog, MayEmit, OwnIdFirst, Covered, Redact, Turn.Fed, Turn.Complete, Agreeable, Matched, PairedIn,
           LiveOutcomes, AllSucceeded, Ready, RetriedCall, Session.Asked;
      go, response, end, error := false, Response("", [], Unset), Ending(RunCancelled, NoCause), OtherError;
      var answer;
      turn, answer, chunks, reply := Ask(request);
      Interfere();
      if cancelled {
        End(RunCancelled, NoCause);
        return;
      }
      if answer.Failure? {
        end, error := Ending(RunFailed, FailureCause(answer.error)), answer.error;
        End(RunFailed, FailureCause(answer.error));
        return;
      }
      go, response := true, answer.value;
      SuccessIsLast(turn.replies, turn.waits, reply, false);
    }

    /** The accepted text becomes a record and an event.  The log in memory is the durable one behind
        it if and only if it was before and the record, if it is durable, is in memory as well. */
    method WriteText(text: string) returns (ok: bool)
      requires Between()
      modifies this`records, this`cursor, store, hub`history, hub.all
      ensures Between() && old(store.trail) <= store.trail && CallsReserved() == old(CallsReserved())
      ensures store.transcript == old(store.transcript) ||
              store.transcript ==
                old(store.transcript) + [Record(|old(store.transcript)| + 1, running, AssistantBlock(text))]
      ensures ok ==> store.transcript != old(store.transcript)
      ensures ok ==> store.events == old(store.events) + [Event(|old(store.events)| + 1, running, AssistantText(text))]
      ensures ok ==> |records| == |old(records)| + 1
      ensures records == store.transcript <==>
                old(records == store.transcript) &&
                |records| - |old(records)| == |store.transcript| - |old(store.transcript)|
    {
      hide Path, InStep, TerminalsHeld, Hub.Valid, Lags, Outcomes, Terminals, HasClose, CloseEvents, ShapeOf,
           MayLog, MayEmit, OwnIdFirst, Covered, Blocks, Verdict;
      LoggableInRun(store.trail, store.manifest, running, AssistantBlock(text));
      LagsExactly(records, store.transcript);
      ok := Log(running, AssistantBlock(text));
      LagsExactly(records, store.transcript);
      if ok { ok := Tell(AssistantText(text)); }
    }

    /** The response's text, checked against the stream and recorded. */
    method RecordText(turn: Turn, response: Response, ghost chunks: seq<string>)
      returns (go: bool, ghost block: Option<string>, ghost end: Ending, ghost failed: bool)
      requires Between() && turn.detector == detector && turn.Complete(Concat(chunks))
      modifies this, store, hub, hub.all
      ensures old(store.trail) <= store.trail && running == old(running)
      ensures fresh(hub.all - old(hub.all))
      ensures !go ==> Ended(old(store.trail), old(running))
      ensures !go ==> EndedAfter(old(store.transcript) + BlockRecords(|old(store.transcript)|, running, block), end)
      ensures !go ==> end == Ending(RunFailed, EngineInvariant) ||
                      (end == Ending(RunFailed, ProviderOutput) && response.reason.Length? && response.calls == [])
      ensures go ==> Between() && CallsReserved() == old(CallsReserved())
      ensures go ==> store.transcript == old(store.transcript) + BlockRecords(|old(store.transcript)|, running, block)
      ensures go ==> exists projected :: IsProjection(response.text, projected)
                      && (turn.streamed == "" || turn.streamed == projected)
                      && block == (if projected != "" && !response.reason.Length? then Some(projected) else None)
      ensures go ==> !(response.reason.Length? && response.calls == [])
      ensures Concat(chunks) == response.text && CoversNewline(detector.rules, response.text) ==>
                !go && end == Ending(RunFailed, EngineInvariant)
      ensures failed ==> !go && end == Ending(RunFailed, EngineInvariant) && block.None?
      ensures !failed && !go && end == Ending(RunFailed, EngineInvariant) ==>
                && !response.reason.Length?
                && exists projected :: IsProjection(response.text, projected) && projected != ""
      ensures KeyDetector(detector.rules) && Concat(chunks) == response.text ==>
                (failed <==> Fails(detector.rules, response.text))
      ensures old(raised) <= raised
      ensures go ==> Flagged(old(cancelled), old(raised))
    {
      hide Path, InStep, TerminalsHeld, Hub.Valid, Lags, Outcomes, Terminals, HasClose, CloseEvents, ShapeOf,
           MayLog, MayEmit, OwnIdFirst, Covered, Redact, Turn.Fed, Turn.Complete, Agreeable, Matched, PairedIn,
           LiveOutcomes, AllSucceeded;
      hide Session.IsProjection, Session.EndsLog, Session.EndsEvents;
      hide KeyDetector, Fails, CoversNewline;
      var projected, bad := Disagrees(turn, response.text, chunks);
      go, block, end, failed := false, None, Ending(RunFailed, EngineInvariant), bad;
      assert store.transcript == old(store.transcript) + [];
      if bad {
        End(RunFailed, EngineInvariant);
        return;
      }
      if response.reason.Length? && response.calls == [] {
        end := Ending(RunFailed, ProviderOutput);
        End(RunFailed, ProviderOutput);
        return;
      }
      if projected != "" && !response.reason.Length? {
        Interfere();
        var ok := WriteText(projected);
        if store.transcript != old(store.transcript) { block := Some(projected); }
        if !ok {
          End(RunFailed, EngineInvariant);
          return;
        }
      }
      return true, block, end, failed;
    }

    /** What follows an answer: the end of the run, or a batch of tool calls. */
    method Act(response: Response)
      returns (go: bool, ghost safe: seq<Call>, ghost outcomes: seq<ToolOutcome>, ghost log: seq<Record>,
        ghost end: Ending, ghost answers: seq<Answer>, ghost flags: seq<bool>)
      requires Between()
      modifies this, store, hub, hub.all
      ensures old(store.trail) <= store.trail && running == old(running)
      ensures fresh(hub.all - old(hub.all))
      ensures !go ==> Ended(old(store.trail), old(running)) && EndedAfter(log, end)
      ensures go ==> Between() && CallsReserved() == old(CallsReserved()) && store.transcript == log
      ensures go || state.Idle? ==>
                old(store.transcript) <= log && PairedIn(log, |old(store.transcript)|, running, safe, outcomes)
      ensures go || state.Idle? ==>
                |outcomes| == |safe| && LiveOutcomes(outcomes) && (safe == [] || SafeCalls(response.calls, safe))
      ensures (go || state.Idle?) && safe != [] ==>
                && outcomes == OutcomesOf(answers)
                && Served(log, |old(store.transcript)|, response.calls, safe, answers, flags)
      ensures go ==> safe != [] && WellFormedCalls(response.calls) && !BlockedFirst(response.calls, outcomes)
      ensures response.calls == [] ==> !go && end == Ending(RunCompleted, NoCause) && safe == []
      ensures response.calls != [] && !WellFormedCalls(response.calls) ==>
                !go && end == Ending(RunFailed, ProviderProtocol) && safe == []
      ensures !go && state.Idle? && response.calls != [] && WellFormedCalls(response.calls) ==>
                && safe != []
                && (end == Ending(RunCancelled, NoCause) ||
                    (end == Ending(RunFailed, SensitiveContent) && BlockedFirst(response.calls, outcomes)))
      ensures go ==> Flagged(old(cancelled), old(raised)) && !old(cancelled)
      ensures go || state.Idle? ==> old(raised) <= raised
      ensures !go && state.Idle? && end.result == RunCancelled ==> old(cancelled) || old(raised) < raised
      ensures !go && state.Idle? && old(cancelled) && response.calls != [] && WellFormedCalls(response.calls) ==>
                end == Ending(RunCancelled, NoCause)
    {
      hide Path, InStep, TerminalsHeld, Hub.Valid, Lags, Outcomes, Terminals, HasClose, CloseEvents, ShapeOf,
           MayLog, MayEmit, OwnIdFirst, Covered, Redact, Turn.Fed, Turn.Complete, Agreeable, Matched, PairedIn,
           LiveOutcomes, AllSucceeded;
      hide Session.SafeCalls, Session.BlockedFirst, WellFormedCalls, Session.Served, OutcomesOf;
      go, safe, outcomes, log, end := false, [], [], store.transcript, Ending(RunCompleted, NoCause);
      answers, flags := [], [];
      NoCalls(log, running);
      if response.calls == [] {
        End(RunCompleted, NoCause);
        return;
      }
      var valid := ValidateToolCalls(response.calls);
      if !valid {
        end := Ending(RunFailed, ProviderProtocol);
        End(RunFailed, ProviderProtocol);
        return;
      }
      var alive, blockedSensitive;
      alive, blockedSensitive, safe, outcomes, answers, flags := RunTools(response.calls);
      if !alive { return; }
      SafeCallsCount(response.calls, safe);
      log := store.transcript;
      Interfere();
      if cancelled {
        end := Ending(RunCancelled, NoCause);
        End(RunCancelled, NoCause);
        return;
      }
      if blockedSensitive {
        end := Ending(RunFailed, SensitiveContent);
        End(RunFailed, SensitiveContent);
        return;
      }
      go := true;
    }

    lemma SafeCallsCount(calls: seq<Call>, safe: seq<Call>)
      requires SafeCalls(calls, safe)
      ensures |safe| == |calls|
    {
    }

    /** The round records the answer: its projected text unless it was cut short, and its calls under the
        identities and with the arguments they may be recorded with. */
    ghost predicate Records(answer: Response, round: Round) {
      && (answer.calls == [] ==> round.calls == [])
      && (round.calls == [] || SafeCalls(answer.calls, round.calls))
      && exists projected :: IsProjection(answer.text, projected)
           && round.block == (if projected != "" && !answer.reason.Length? then Some(projected) else None)
    }

    /** One round of the loop, added to the conversation so far: the whole history is asked for an answer,
        and the answer is recorded and acted on. */
    method RunRound(ghost before: seq<Round>, ghost base: nat, stable: string, dynamic: string,
                    tools: seq<ToolDefinition>, window: nat, maxOutput: nat)
      returns (go: bool, ghost rounds: seq<Round>, ghost log: seq<Record>, ghost end: Ending,
        ghost asked: seq<Request>, ghost answer: Option<Response>)
      requires Between() && base <= |store.transcript| && Converses(store.transcript, base, running, before)
               && GoesOn(before)
      modifies this, store, hub, hub.all
      ensures old(store.trail) <= store.trail && running == old(running)
      ensures fresh(hub.all - old(hub.all))
      ensures go ==>
                Between() && old(CallsReserved()) < CallsReserved() <= MAX_CALLS && log == store.transcript
                  && GoesOn(rounds)
      ensures !go ==> Ended(old(store.trail), old(running)) && EndedAfter(log, end)
      ensures go || state.Idle? ==> old(store.transcript) <= log && Converses(log, base, running, rounds)
      ensures !go && state.Idle? && end.result.RunCompleted? ==>
                rounds != [] && rounds[|rounds| - 1].calls == [] && GoesOn(rounds[..|rounds| - 1])
      ensures forall i :: 0 <= i < |asked| ==>
                asked[i] == Request(stable, dynamic, ToMessages(old(records)), tools, maxOutput)
      ensures go ==> Flagged(old(cancelled), old(raised)) && !old(cancelled)
      ensures go || state.Idle? ==> old(raised) <= raised
      ensures !go && state.Idle? && end.result == RunCancelled ==> old(cancelled) || old(raised) < raised
      ensures old(cancelled) ==> asked == [] && end == Ending(RunCancelled, NoCause) && rounds == before
      ensures go || (state.Idle? && end.result.RunCompleted?) ==>
                && answer.Some? && asked != [] && |rounds| == |before| + 1 && rounds[..|before|] == before
                && Records(answer.value, rounds[|before|])
                && (answer.value.calls == [] <==> !go)
    {
      hide Path, InStep, TerminalsHeld, Hub.Valid, Lags, Outcomes, Terminals, HasClose, CloseEvents, ShapeOf,
           MayLog, MayEmit, OwnIdFirst, Covered, Redact, Turn.Fed, Turn.Complete, Agreeable, Matched, PairedIn,
           LiveOutcomes, AllSucceeded;
      hide Converses, RoundIn, BlockRecords, EndOfRun, Session.IsProjection, KeyDetector, Fails, CoversNewline, Ready,
           ToMessages, Session.Admitted, RetriedCall, Session.Records, Session.EndsLog, Session.Names, Linked;
      rounds, log, go, asked, answer := before, store.transcript, false, [], None;
      var request;
      request, end := PrepareCall(stable, dynamic, tools, window, maxOutput);
      if request.None? { return; }
      go, rounds, log, end, asked, answer := AnswerRound(before, base, request.value);
    }

    /** The round that a prepared request makes. */
    method AnswerRound(ghost before: seq<Round>, ghost base: nat, request: Request)
      returns (go: bool, ghost rounds: seq<Round>, ghost log: seq<Record>, ghost end: Ending,
        ghost asked: seq<Request>, ghost answer: Option<Response>)
      requires Between() && base <= |store.transcript| && Converses(store.transcript, base, running, before)
               && GoesOn(before) && Ready(request.messages)
      modifies this, store, hub, hub.all
      ensures old(store.trail) <= store.trail && running == old(running)
      ensures fresh(hub.all - old(hub.all))
      ensures go ==> Between() && old(CallsReserved()) == CallsReserved() && log == store.transcript && GoesOn(rounds)
      ensures !go ==> Ended(old(store.trail), old(running)) && EndedAfter(log, end)
      ensures go || state.Idle? ==> old(store.transcript) <= log && Converses(log, base, running, rounds)
      ensures !go && state.Idle? && end.result.RunCompleted? ==>
                rounds != [] && rounds[|rounds| - 1].calls == [] && GoesOn(rounds[..|rounds| - 1])
      ensures forall i :: 0 <= i < |asked| ==> asked[i] == request
      ensures go ==> Flagged(old(cancelled), old(raised)) && !old(cancelled)
      ensures go || state.Idle? ==> old(raised) <= raised
      ensures !go && state.Idle? && end.result == RunCancelled ==> old(cancelled) || old(raised) < raised
      ensures go || (state.Idle? && end.result.RunCompleted?) ==>
                && answer.Some? && asked != [] && |rounds| == |before| + 1 && rounds[..|before|] == before
                && Records(answer.value, rounds[|before|])
                && (answer.value.calls == [] <==> !go)
    {
      hide Path, InStep, TerminalsHeld, Hub.Valid, Lags, Outcomes, Terminals, HasClose, CloseEvents, ShapeOf,
           MayLog, MayEmit, OwnIdFirst, Covered, Redact, Turn.Fed, Turn.Complete, Agreeable, Matched, PairedIn,
           LiveOutcomes, AllSucceeded;
      hide Converses, RoundIn, BlockRecords, EndOfRun, Session.IsProjection, KeyDetector, Fails, CoversNewline, Ready,
           RetriedCall, Session.Records, Session.EndsLog, Session.Names, Linked;
      rounds, log, answer := before, store.transcript, None;
      var turn, response;
      ghost var chunks, reply, error;
      go, turn, response, chunks, end, reply, error := CallModel(request);
      asked := turn.asked;
      if !go { return; }
      answer := Some(response);
      ghost var block;
      ghost var failed;
      go, block, end, failed := RecordText(turn, response, chunks);
      BlockRound(log, running, block);
      OneMoreRound(log, log + BlockRecords(|log|, running, block), base, running, before, Round(block, [], []));
      if !go {
        rounds, log := before + [Round(block, [], [])], log + BlockRecords(|log|, running, block);
        return;
      }
      go, rounds, log, end := UseCalls(before, base, log, block, response);
    }

    /** The recorded text and the calls of an answer make the next round. */
    method UseCalls(ghost before: seq<Round>, ghost base: nat, ghost start: seq<Record>, ghost block: Option<string>,
                    response: Response)
      returns (go: bool, ghost rounds: seq<Round>, ghost log: seq<Record>, ghost end: Ending)
      requires Between() && base <= |start| && Converses(start, base, running, before) && GoesOn(before)
      requires store.transcript == start + BlockRecords(|start|, running, block)
      requires exists projected :: IsProjection(response.text, projected)
                 && block == (if projected != "" && !response.reason.Length? then Some(projected) else None)
      modifies this, store, hub, hub.all
      ensures old(store.trail) <= store.trail && running == old(running)
      ensures fresh(hub.all - old(hub.all))
      ensures go ==> Between() && old(CallsReserved()) == CallsReserved() && log == store.transcript && GoesOn(rounds)
      ensures !go ==> Ended(old(store.trail), old(running)) && EndedAfter(log, end)
      ensures go || state.Idle? ==> start <= log && Converses(log, base, running, rounds)
      ensures !go && state.Idle? && end.result.RunCompleted? ==>
                rounds != [] && rounds[|rounds| - 1].calls == [] && GoesOn(rounds[..|rounds| - 1])
      ensures go ==> Flagged(old(cancelled), old(raised)) && !old(cancelled)
      ensures go || state.Idle? ==> old(raised) <= raised
      ensures !go && state.Idle? && end.result == RunCancelled ==> old(cancelled) || old(raised) < raised
      ensures go || (state.Idle? && end.result.RunCompleted?) ==>
                && |rounds| == |before| + 1 && rounds[..|before|] == before && Records(response, rounds[|before|])
                && (response.calls == [] <==> !go)
    {
      hide Path, InStep, TerminalsHeld, Hub.Valid, Lags, Outcomes, Terminals, HasClose, CloseEvents, ShapeOf,
           MayLog, MayEmit, OwnIdFirst, Covered, Redact, Turn.Fed, Turn.Complete, Agreeable, Matched, PairedIn,
           LiveOutcomes, AllSucceeded;
      hide Converses, RoundIn, BlockRecords, EndOfRun, Session.SafeCalls, Session.BlockedFirst, WellFormedCalls,
           Session.Served, OutcomesOf, Session.EndsLog, Session.IsProjection;
      ghost var safe, outcomes, answers, flags;
      go, safe, outcomes, log, end, answers, flags := Act(response);
      rounds := before + [Round(block, safe, outcomes)];
      if go || state.Idle? {
        ToolRound(start, log, running, block, safe, outcomes);
        OneMoreRound(start, log, base, running, before, Round(block, safe, outcomes));
      }
      assert rounds[..|before|] == before;
    }

    /** A run, whatever the provider, the tools, the commands and the disk do: it terminates, since
        every round reserves one of its logical calls; and unless the session faults, what it logged
        is one round after the other, each recording the provider's answer to the history before it, with
        live outcomes, and then exactly its end, which the last event tells.  It completes only on an
        answer without tool calls, and it is cancelled only if its flag has been raised. */
    method Run(stable: string, dynamic: string, tools: seq<ToolDefinition>, window: nat, maxOutput: nat)
      returns (ghost rounds: seq<Round>, ghost log: seq<Record>, ghost end: Ending, ghost answers: seq<Response>)
      requires Between()
      modifies this, store, hub, hub.all
      ensures Ended(old(store.trail), old(running))
      ensures fresh(hub.all - old(hub.all))
      ensures EndedAfter(log, end)
      ensures state.Idle? ==> old(store.transcript) <= log && Converses(log, |old(store.transcript)|, running, rounds)
      ensures state.Idle? && end.result.RunCompleted? ==>
                rounds != [] && rounds[|rounds| - 1].calls == [] && GoesOn(rounds[..|rounds| - 1])
      ensures state.Idle? && end.result == RunCancelled ==> old(cancelled) || old(raised) < raised
      ensures state.Idle? && old(cancelled) ==> end == Ending(RunCancelled, NoCause) && rounds == []
      ensures state.Idle? && end.result.RunCompleted? ==>
                |answers| == |rounds| && forall i :: 0 <= i < |rounds| ==> Records(answers[i], rounds[i])
    {
      hide Path, InStep, TerminalsHeld, Hub.Valid, Lags, Outcomes, Terminals, HasClose, CloseEvents, ShapeOf,
           MayLog, MayEmit, OwnIdFirst, Covered, Redact, Turn.Fed, Turn.Complete, Agreeable, Matched, PairedIn,
           LiveOutcomes, AllSucceeded;
      hide Converses, RoundIn, GoesOn, BlockRecords, EndOfRun, Session.Records, Session.EndsLog, ToMessages;
      BudgetKnown(store.trail, store.manifest, running);
      rounds, log, end, answers := [], store.transcript, Ending(RunFailed, EngineInvariant), [];
      NoRounds(log, running);
      var go := true;
      while go
        invariant go ==> Between() && log == store.transcript && GoesOn(rounds)
        invariant !go ==> Ended(old(store.trail), old(running)) && EndedAfter(log, end)
        invariant go || state.Idle? ==>
                    old(store.transcript) <= log && Converses(log, |old(store.transcript)|, running, rounds)
        invariant !go && state.Idle? && end.result.RunCompleted? ==>
                    rounds != [] && rounds[|rounds| - 1].calls == [] && GoesOn(rounds[..|rounds| - 1])
        invariant old(store.trail) <= store.trail && running == old(running)
        invariant fresh(hub.all - old(hub.all)) && (go ==> CallsReserved() <= MAX_CALLS)
        invariant go ==> Flagged(old(cancelled), old(raised)) && (old(cancelled) ==> rounds == [])
        invariant !go && state.Idle? && end.result == RunCancelled ==> old(cancelled) || old(raised) < raised
        invariant !go && old(cancelled) ==> end == Ending(RunCancelled, NoCause) && rounds == []
        invariant go || (state.Idle? && end.result.RunCompleted?) ==>
                    |answers| == |rounds| && forall i :: 0 <= i < |rounds| ==> Records(answers[i], rounds[i])
        decreases go, MAX_CALLS - CallsReserved()
      {
        ghost var before, asked, answer := rounds, [], None;
        go, rounds, log, end, asked, answer :=
          RunRound(rounds, |old(store.transcript)|, stable, dynamic, tools, window, maxOutput);
        if answer.Some? { answers := answers + [answer.value]; }
      }
    }

    // ---- Recovery --------------------------------------------------------------------------

    /** Before any command is accepted the process holds exactly what is on disk. */
    ghost predicate Mirrors()
      reads this, store, hub, hub.all
    {
      && store.Valid() && hub.Valid() && hub.subs == map[] && hub.all == {} && !waiting
      && store.manifest == Marked(Now(store.trail).disk).manifest
      && records == store.transcript
      && cursor == |store.events| && hub.history == store.events
      && seen == store.manifest.seen
    }

    /** The disk went through a first part of the given states, or through all of them. */
    ghost predicate WentThrough(before: seq<World>, steps: seq<World>, ok: bool)
      reads store
    {
      if ok then store.trail == before + steps else before <= store.trail <= before + steps
    }

    method RepairLog(run: RunId, payload: Payload) returns (ok: bool)
      requires Mirrors()
      modifies this`records, store
      ensures WentThrough(old(store.trail),
              LogTrail(Now(old(store.trail)), Record(|old(store.transcript)| + 1, run, payload)), ok)
      ensures store.Valid() && (ok ==> Mirrors())
    {
      hide Hub.Valid;
      ghost var before := store.trail;
      ghost var rec := Record(|store.transcript| + 1, run, payload);
      ok := AppendPayload(run, payload);
      assert [rec][..1] == [rec];
      assert BatchStates(Now(before), [rec]) == [Now(before).(disk := Logged(Now(before).disk, rec))];
    }

    method RepairEmit(run: RunId, kind: EventKind) returns (ok: bool)
      requires Mirrors()
      modifies this`cursor, store, hub`history
      ensures WentThrough(old(store.trail),
              EmitTrail(Now(old(store.trail)), Event(|old(store.events)| + 1, run, kind)), ok)
      ensures store.Valid() && (ok ==> Mirrors())
    {
      hide Hub.Valid;
      var e;
      ok, e := PersistEvent(run, kind);
      if ok { hub.Publish(e); }
    }

    /** Answers the open calls of an interrupted run in the provider's order. */
    method AnswerOpenCalls(run: RunId, open: seq<Call>) returns (ok: bool)
      requires Mirrors()
      modifies this`records, store
      ensures WentThrough(old(store.trail), AnswerTrail(Now(old(store.trail)), run, open), ok)
      ensures store.Valid() && (ok ==> Mirrors())
    {
      hide Hub.Valid, LogTrail, Marked, Path;
      ghost var goal := store.trail + AnswerTrail(Now(store.trail), run, open);
      assert open[0..] == open;
      for i := 0 to |open|
        invariant Mirrors()
        invariant old(store.trail) <= store.trail
        invariant goal == store.trail + AnswerTrail(Now(store.trail), run, open[i..])
      {
        ghost var before := store.trail;
        AnswerTrailFirst(before, run, open[i..]);
        ok := RepairLog(run, ToolResult(open[i].id, Interrupted, INTERRUPTED_TEXT));
        if !ok { return; }
        assert open[i..][1..] == open[i + 1..];
      }
      return true;
    }

    /** The interrupted run gets its answers and its outcome, unless it already has one. */
    method RepairOutcome(run: RunId) returns (r: Option<LoadError>)
      requires Mirrors() && Repairable(Now(store.trail)) && store.manifest.active == Some(run)
      modifies this`records, store
      ensures WentThrough(old(store.trail), OutcomeTrail(Now(old(store.trail)), run), r.None?)
      ensures store.Valid() && (r.None? ==> Mirrors()) && (r.Some? ==> r.value.Unwritten?)
    {
      hide Hub.Valid, LogTrail, Repairable, AnswerTrail, OpenCalls, Path;
      var ended := HasOutcome(records, run);
      if ended { return None; }
      ghost var before := store.trail;
      OpenCallsKnown(Now(before), run);
      var open := OpenToolCallsForRun(records, run);
      if open.Failure? { return Some(Unpaired); }
      var ok := AnswerOpenCalls(run, open.value);
      if !ok { return Some(Unwritten); }
      NowAfter(before, AnswerTrail(Now(before), run, open.value));
      ghost var mid := store.trail;
      ok := RepairLog(run, RunOutcome(RunInterrupted, CauseInterrupted));
      return if ok then None else Some(Unwritten);
    }

    method RepairTerminal(run: RunId) returns (ok: bool)
      requires Mirrors()
      modifies this`cursor, store, hub`history
      ensures WentThrough(old(store.trail), TerminalTrail(Now(old(store.trail)), run), ok)
      ensures store.Valid() && (ok ==> Mirrors())
    {
      hide Hub.Valid, EmitTrail, Path;
      var ended := HasTerminal(hub.history, run);
      if ended { return true; }
      ok := RepairEmit(run, RunFailedEvent(CauseInterrupted));
    }

    method RepairFinish(run: RunId) returns (ok: bool)
      requires Mirrors() && store.manifest.active == Some(run)
      modifies store
      ensures WentThrough(old(store.trail), FinishTrail(Now(old(store.trail))), ok)
      ensures store.Valid() && (ok ==> Mirrors())
    {
      hide Hub.Valid;
      var finished := store.FinishRun(run);
      return finished.Success?;
    }

    /** reconcileInterrupted. */
    method ReconcileInterrupted(run: RunId) returns (r: Option<LoadError>)
      requires Mirrors() && Repairable(Now(store.trail)) && store.manifest.active == Some(run)
      modifies this`records, this`cursor, store, hub`history
      ensures WentThrough(old(store.trail), ReconcileTrail(Now(old(store.trail)), run), r.None?)
      ensures store.Valid() && (r.None? ==> Mirrors()) && (r.Some? ==> r.value.Unwritten?)
    {
      hide Hub.Valid, Repairable, OutcomeTrail, TerminalTrail, Path, Leads;
      ghost var before := store.trail;
      ghost var w := Now(before);
      ReconcileLeads(w, run);
      OutcomeLeads(w, run);
      r := RepairOutcome(run);
      if r.Some? { return; }
      NowAfter(before, OutcomeTrail(w, run));
      ghost var mid := store.trail;
      var ok := RepairTerminal(run);
      if !ok { return Some(Unwritten); }
      ghost var t := OutcomeTrail(w, run) + TerminalTrail(Now(mid), run);
      assert store.trail == before + t;
      NowAfter(before, t);
      ActiveThroughTerminal(Now(mid), run);
      NowAfter(mid, TerminalTrail(Now(mid), run));
      ok := RepairFinish(run);
      if !ok { return Some(Unwritten); }
      RepairedLogIsPaired(w, run);
      NowAfter(before, ReconcileTrail(w, run));
      var bad := ValidateTranscript(records);
      if bad.Some? { return Some(Unpaired); }
      return None;
    }

    /** A half-done close is completed: first the manifest, then the close event. */
    method RepairClose(closeEvents: nat) returns (ok: bool)
      requires Mirrors() && HasClose(store.transcript) && store.manifest.active.None?
               && closeEvents == CloseEvents(store.events)
      modifies this`cursor, store, hub`history
      ensures WentThrough(old(store.trail), CloseTrail(Now(old(store.trail))), ok)
      ensures store.Valid() && (ok ==> Mirrors())
    {
      hide Hub.Valid, EmitTrail, Path, HasClose, CloseEvents;
      ghost var before := store.trail;
      if !store.manifest.closed {
        var closed := store.Close();
        if closed.Failure? { return false; }
      }
      if closeEvents > 0 { return true; }
      ok := RepairEmit(0, SessionClosedEvent);
    }

    /** The repair of a loaded session. */
    method Repair(facts: nat, closeEvents: nat) returns (r: Option<LoadError>)
      requires Mirrors() && Repairable(Now(store.trail))
      requires facts == (if HasClose(store.transcript) then 1 else 0) && closeEvents == CloseEvents(store.events)
      requires HasClose(store.transcript) ==> store.manifest.active.None?
      modifies this`records, this`cursor, store, hub`history
      ensures WentThrough(old(store.trail), RecoveryTrail(Now(old(store.trail))), r.None?)
      ensures store.Valid() && (r.None? ==> Mirrors()) && (r.Some? ==> r.value.Unwritten?)
    {
      hide Hub.Valid, ReconcileTrail, CloseTrail, Path, Repairable, HasClose, CloseEvents;
      ghost var before := store.trail;
      ghost var w := Now(before);
      RecoverySplits(w);
      if store.manifest.active.Some? {
        r := ReconcileInterrupted(store.manifest.active.value);
        return;
      }
      assert before + [] == before;
      if facts == 1 {
        var ok := RepairClose(closeEvents);
        return if ok then None else Some(Unwritten);
      }
      return None;
    }

    // ---- For the process around the session ------------------------------------------------

    /** No observer, open or closed, has received or is being offered an event that is not durable,
        nor the terminal event of a run that is still active on disk; in a faulted session, too. */
    lemma ObserversSeeDurableFacts(sub: Subscriber, e: Event)
      requires Valid() && sub in hub.all && e in sub.delivered + sub.InFlight()
      ensures e in Now(store.trail).disk.events
      ensures Terminal(e.kind) ==> Now(store.trail).disk.manifest.active != Some(e.run)
    {
      hide Path;
      assert Heard(sub, hub.history);
      var shown := sub.delivered + sub.InFlight();
      assert shown <= sub.promised;
      var from := Min(sub.after, sub.joinedAt);
      var k :| 0 <= k < |shown| && shown[k] == e;
      assert e == sub.promised[k] == hub.history[from + k];
    }

    lemma StartedIsBetween(log: seq<Record>, events: seq<Event>, run: RunId, prompt: string)
      requires Valid() && Started(log, events, run, prompt)
      ensures Between()
    {
    }

    lemma EndedIsValid(trail: seq<World>, run: RunId)
      requires Ended(trail, run)
      ensures Valid() && !state.Running? && trail <= store.trail
    {
    }

    /** A mirror of a repaired disk is ready for commands. */
    lemma ReadyAfterRepair()
      requires Mirrors() && Path(store.trail) && Clean(Now(store.trail).disk)
      ensures InStepWithDisk() && store.manifest.active.None?
      ensures store.manifest.closed <==> HasClose(store.transcript)
      ensures HasClose(store.transcript) ==> CloseEvents(store.events) == 1
    {
      PathInv(store.trail);
      assert store.events[..cursor] == store.events;
    }
  }

  /** A flag that is never lowered, read at some moments between two. */
  predicate Rises(before: bool, flags: seq<bool>, after: bool) {
    && (before ==> after)
    && (forall i :: 0 <= i < |flags| ==> (before ==> flags[i]) && (flags[i] ==> after))
    && (forall i, j :: 0 <= i < j < |flags| && flags[i] ==> flags[j])
  }

  /** A response whose text is what its attempt streamed, within the reach of line-local rules. */
  ghost predicate Agreeable(d: RuleSet, chunks: seq<string>, text: string) {
    LineLocal(d) && d.begin(text).None? && Concat(chunks) == text
  }

  predicate WellFormedCalls(calls: seq<Call>) {
    (forall c <- calls :: c.id != "" && c.name != "" && c.arguments.wellFormed) && DistinctIds(calls)
  }

  /** The check sees one batch only: IDs used by earlier batches are not compared. */
  method ValidateToolCalls(calls: seq<Call>) returns (ok: bool)
    ensures ok <==> WellFormedCalls(calls)
    ensures ok <==>
              && (forall i :: 0 <= i < |calls| ==>
                    calls[i].id != "" && calls[i].name != "" && calls[i].arguments.wellFormed)
              && (forall i, j :: 0 <= i < j < |calls| ==> calls[i].id != calls[j].id)
  {
    var seen: set<CallId> := {};
    for i := 0 to |calls|
      invariant forall k :: 0 <= k < i ==> calls[k].id != "" && calls[k].name != "" && calls[k].arguments.wellFormed
      invariant DistinctIds(calls[..i])
      invariant seen == set k | 0 <= k < i :: calls[k].id
    {
      var c := calls[i];
      if c.id == "" || c.name == "" || !c.arguments.wellFormed || c.id in seen {
        assert c in calls;
        return false;
      }
      assert calls[..i + 1] == calls[..i] + [c];
      seen := seen + {c.id};
    }
    assert calls[..|calls|] == calls;
    return true;
  }

  /** Two IDs are logged as one: a plain ID is the name under which a sensitive one is logged, or two
      sensitive ones have the same digest. */
  predicate LoggedAsOne(broker: ActionBroker, a: CallId, b: CallId) {
    || (broker.Sensitive(a) && !broker.Sensitive(b) && b == REDACTED_ID + broker.digest(a))
    || (broker.Sensitive(b) && !broker.Sensitive(a) && a == REDACTED_ID + broker.digest(b))
    || (broker.Sensitive(a) && broker.Sensitive(b) && broker.digest(a) == broker.digest(b))
  }

  /** The IDs the check has compared are not the ones that are logged: a batch with distinct IDs is
      logged under distinct IDs if and only if no two of them are logged as one. */
  lemma LoggedIdsDistinctExactly(broker: ActionBroker, calls: seq<Call>, safe: seq<Call>)
    requires DistinctIds(calls) && |safe| == |calls|
    requires forall i :: 0 <= i < |calls| ==> safe[i].id == broker.SafeId(calls[i].id)
    ensures DistinctIds(safe) <==>
              forall i, j :: 0 <= i < j < |calls| ==> !LoggedAsOne(broker, calls[i].id, calls[j].id)
  {
    hide Redact;
    forall i, j | 0 <= i < j < |calls|
      ensures safe[i].id == safe[j].id <==> LoggedAsOne(broker, calls[i].id, calls[j].id)
    {
      SamePrefix(REDACTED_ID, broker.digest(calls[i].id), broker.digest(calls[j].id));
    }
  }

  lemma SamePrefix(p: string, a: string, b: string)
    ensures p + a == p + b ==> a == b
  {
    assert a == (p + a)[|p|..] && b == (p + b)[|p|..];
  }

  /** Such a batch passes the check, and the IDs it is logged under are not distinct. */
  lemma CheckedBatchCollides(broker: ActionBroker, a: Call, b: Call)
    requires a.name != "" && a.arguments.wellFormed && b.name != "" && b.arguments.wellFormed
    requires broker.Sensitive(a.id) && b.id == REDACTED_ID + broker.digest(a.id) && !broker.Sensitive(b.id)
    ensures WellFormedCalls([a, b])
    ensures !DistinctIds([broker.SafeCall(a), broker.SafeCall(b)])
  {
    SameSafeId(broker, a, b);
    hide Redact, REDACTED_ID, DistinctIds, ActionBroker.Sensitive, ActionBroker.SafeId, ActionBroker.SafeCall;
    PairIds(a, b);
    PairIds(broker.SafeCall(a), broker.SafeCall(b));
  }

  lemma PairIds(a: Call, b: Call)
    ensures DistinctIds([a, b]) <==> a.id != b.id
  {
    assert [a, b][0] == a && [a, b][1] == b;
  }

  lemma SameSafeId(broker: ActionBroker, a: Call, b: Call)
    requires broker.Sensitive(a.id) && b.id == REDACTED_ID + broker.digest(a.id) && !broker.Sensitive(b.id)
    ensures broker.SafeCall(a).id == broker.SafeCall(b).id && a.id != b.id && a.id != "" && b.id != ""
  {
    NothingInEmptyText(broker.detector.rules);
    hide Redact;
  }

  /** NewSession on an opened store: the disk goes through exactly the states of the recovery, or,
      when a write fails, through a first part of them; no other error is possible.  The session is
      then clean and ready for commands, closed exactly if its close fact had been logged. */
  method NewSession(id: string, detector: Detector, broker: ActionBroker, store: Store)
    returns (r: Result<Session, LoadError>)
    requires store.Valid() && Path(store.trail) && OpenAccepts(Now(store.trail).disk)
    requires store.manifest == Marked(Now(store.trail).disk).manifest
    modifies store
    ensures store.Valid() && Path(store.trail)
    ensures r.Failure? ==>
              r.error.Unwritten?
                && old(store.trail) <= store.trail <= old(store.trail) + RecoveryTrail(Now(old(store.trail)))
    ensures r.Success? ==>
              && store.trail == old(store.trail) + RecoveryTrail(Now(old(store.trail)))
              && Clean(Now(store.trail).disk)
              && fresh(r.value) && fresh(r.value.hub) && r.value.store == store
              && r.value.hub.subs == map[] && r.value.hub.all == {}
              && r.value.Valid()
              && r.value.state == (if HasClose(Now(store.trail).disk.records) then State.Closed else Idle)
              && r.value.seen == Now(old(store.trail)).disk.manifest.seen
  {
    hide RecoveryTrail, ReconcileTrail, CloseTrail, Path, Clean, WorldInv, OpenAccepts, CloseEvents, HasClose,
         UniqueCalls;
    ghost var before := store.trail;
    ghost var w := Now(before);
    OpenedIsRepairable(before);
    CloseFactsConsistent(w.disk, w);
    OpenedEventsNumbered(w.disk);
    CrashSafe(before);
    var s := new Session.Load(id, detector, broker, store);
    var facts, closeEvents := CountCloses(s.records, s.hub.history);
    if facts > 1 || closeEvents > 1 || (store.manifest.closed && facts != 1) || (closeEvents > 0 && facts != 1)
       || (facts == 1 && store.manifest.active.Some?)
    {
      return Failure(Inconsistent);
    }
    var failed := s.Repair(facts, closeEvents);
    RecoveryPrefix(before, store.trail);
    if failed.Some? { return Failure(failed.value); }
    NowAfter(before, RecoveryTrail(w));
    RecoveryKeepsClose(w);
    if facts == 1 { s.state := State.Closed; }
    s.ReadyAfterRepair();
    return Success(s);
  }

  /** Some text is shown as one delta, and no text not at all. */
  predicate ShownAs(before: seq<Event>, after: seq<Event>, run: RunId, text: string) {
    if text == "" then after == before
    else after == before + [Event(|before| + 1, run, AssistantDelta(text))]
  }

  /** How many retries of the run have been announced. */
  function Announced(events: seq<Event>, run: RunId): nat {
    if events == [] then 0
    else
      var e := events[|events| - 1];
      Announced(events[..|events| - 1], run) + if e.run == run && e.kind.RetryScheduled? then 1 else 0
  }

  lemma AnnouncedAppend(events: seq<Event>, e: Event, run: RunId)
    ensures Announced(events + [e], run) == Announced(events, run) + if e.run == run
            && e.kind.RetryScheduled? then 1 else 0
  {
    assert (events + [e])[..|events|] == events;
  }

  const CREDENTIAL_WARNING := "detected_credential_in_prompt"
}
