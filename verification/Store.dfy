/** The durable session: two append-only logs and one atomically replaced manifest, with the
    copies the process keeps in memory. */
module Store {
  import opened Wrappers
  import opened Transcript
  import opened Validate
  import opened Durable
  import opened Recovery

  datatype StoreError =
    | Corrupt
    | DuplicateCommand
    | SessionIsClosed
    | ActiveRunExists
    | SessionIsActive
    | OverBudget
    | BadRecord
    | WriteFailed

  datatype Counter = LogicalCall | TransportAttempt | RetryDelay

  /** What an attempt to replace the manifest did: the rename may take effect although an error is
      reported, because the directory is synced after it. */
  datatype Io = Done | Lost | DoneWithError

  // ---- What the operations write ------------------------------------------------------

  function Numbered(batch: seq<Record>, from: nat): seq<Record> {
    seq(|batch|, i requires 0 <= i < |batch| => batch[i].(seqNo := from + i + 1))
  }

  function WithRecords(w: World, more: seq<Record>): World {
    w.(disk := w.disk.(records := w.disk.records + more))
  }

  function WithEvent(w: World, e: Event): World {
    w.(disk := w.disk.(events := w.disk.events + [e]))
  }

  function WithManifest(w: World, m: Manifest): World {
    w.(disk := w.disk.(manifest := m))
  }

  /** A batch reaches the log record by record; a crash may leave any prefix of it. */
  function BatchStates(w: World, batch: seq<Record>): seq<World> {
    seq(|batch|, i requires 0 <= i < |batch| => WithRecords(w, batch[..i + 1]))
  }

  /** The manifest replacement either took effect or, on an error only, did not. */
  predicate Replaced(before: seq<World>, after: seq<World>, m: Manifest, ok: bool)
    requires before != []
  {
    after == before + [WithManifest(Now(before), m)] || (!ok && after == before)
  }

  /** One reservation: the counter after it, unless the limit is reached. */
  function Reserved(b: Budget, counter: Counter, amount: int): Option<Budget> {
    match counter
    case LogicalCall => if b.calls >= MAX_CALLS then None else Some(b.(calls := b.calls + 1))
    case TransportAttempt => if b.attempts >= MAX_ATTEMPTS then None else Some(b.(attempts := b.attempts + 1))
    case RetryDelay => if amount < 0 || b.delay > MAX_DELAY - amount then None else Some(b.(delay := b.delay + amount))
  }

  /** A counter moved on by work that starts. */
  function Counted(b: Budget, counter: Counter, amount: nat): Budget {
    match counter
    case LogicalCall => b.(calls := b.calls + 1)
    case TransportAttempt => b.(attempts := b.attempts + 1)
    case RetryDelay => b.(delay := b.delay + amount)
  }

  function WithStart(w: World, run: RunId, counter: Counter, amount: nat): World {
    w.(spent := w.spent[run := Counted(Spent(w, run), counter, amount)])
  }

  class Store {
    var manifest: Manifest
    var transcript: seq<Record>
    var events: seq<Event>
    /** Every durable state so far, oldest first; a process only ever adds to it, and reads it
        back when it opens the session. */
    var trail: seq<World>

    /** The copies of the logs are exact; the manifest copy is ahead of the disk's, never behind. */
    ghost predicate Valid()
      reads this
    {
      && trail != []
      && transcript == Now(trail).disk.records
      && events == Now(trail).disk.events
      && manifest.transcriptSeq == |transcript|
      && manifest.eventCursor == |events|
    }

    /** Loads a session that Open has accepted. */
    constructor (trail: seq<World>)
      requires trail != []
      ensures Valid() && this.trail == trail
      ensures manifest == Marked(Now(trail).disk).manifest
    {
      var d := Now(trail).disk;
      this.trail := trail;
      transcript := d.records;
      events := d.events;
      manifest := d.manifest.(transcriptSeq := |d.records|, eventCursor := |d.events|);
    }

    method WriteManifest() returns (ok: bool)
      requires trail != []
      modifies this`trail
      ensures Replaced(old(trail), trail, manifest, ok)
    {
      var io: Io := *;
      if !io.Lost? {
        trail := trail + [WithManifest(Now(trail), manifest)];
      }
      return io.Done?;
    }

    /** Numbers, validates, logs and only then counts the records. */
    method AppendTranscript(batch: seq<Record>) returns (r: Result<seq<Record>, StoreError>)
      requires Valid()
      modifies this
      ensures Valid()
      ensures events == old(events)
      ensures manifest == old(manifest).(transcriptSeq := |transcript|)
      ensures r.Success? ==> r.value == Numbered(batch, |old(transcript)|)
      ensures r.Failure? ==> r.error.BadRecord? || r.error.WriteFailed?
      ensures r == Failure(BadRecord) <==> exists rec <- Numbered(batch, |old(transcript)|) :: !ValidRecord(rec)
      ensures (!r.Success? && transcript == old(transcript) && trail == old(trail)) ||
              (var stamped := Numbered(batch, |old(transcript)|);
               var logged := old(trail) + BatchStates(Now(old(trail)), stamped);
               && (forall rec <- stamped :: ValidRecord(rec))
               && transcript == old(transcript) + stamped
               && Replaced(logged, trail, manifest, r.Success?))
    {
      var stamped: seq<Record> := [];
      for i := 0 to |batch|
        invariant stamped == Numbered(batch, |transcript|)[..i]
        invariant forall rec <- stamped :: ValidRecord(rec)
      {
        var rec := batch[i].(seqNo := manifest.transcriptSeq + i + 1);
        assert Numbered(batch, |transcript|)[i] == rec;
        if !ValidRecord(rec) { return Failure(BadRecord); }
        stamped := stamped + [rec];
      }
      assert stamped == Numbered(batch, |transcript|);
      var appended: bool := *;
      if !appended { return Failure(WriteFailed); }
      ghost var w := Now(trail);
      LastBatchState(w, stamped);
      trail := trail + BatchStates(Now(trail), stamped);
      assert Now(trail) == WithRecords(w, stamped);
      transcript := transcript + stamped;
      manifest := manifest.(transcriptSeq := manifest.transcriptSeq + |stamped|);
      var ok := WriteManifest();
      return if ok then Success(stamped) else Failure(WriteFailed);
    }

    method AppendEvent(e: Event) returns (r: Result<(), StoreError>)
      requires Valid()
      modifies this
      ensures Valid()
      ensures transcript == old(transcript)
      ensures manifest == old(manifest).(eventCursor := |events|)
      ensures e.cursor != |old(events)| + 1 ==> r == Failure(Corrupt)
      ensures (!r.Success? && events == old(events) && trail == old(trail)) ||
              (var logged := old(trail) + [WithEvent(Now(old(trail)), e)];
               && e.cursor == |old(events)| + 1
               && events == old(events) + [e]
               && Replaced(logged, trail, manifest, r.Success?))
    {
      if e.cursor != manifest.eventCursor + 1 { return Failure(Corrupt); }
      var appended: bool := *;
      if !appended { return Failure(WriteFailed); }
      trail := trail + [WithEvent(Now(trail), e)];
      events := events + [e];
      manifest := manifest.(eventCursor := e.cursor);
      var ok := WriteManifest();
      return if ok then Success(()) else Failure(WriteFailed);
    }

    /** Consumes the command, numbers the run and opens its budget in one manifest write. */
    method BeginRun(id: CommandId) returns (r: Result<RunId, StoreError>)
      requires Valid()
      modifies this`manifest, this`trail
      ensures Valid()
      ensures var m := old(manifest);
              if m.closed then r == Failure(SessionIsClosed) && manifest == m && trail == old(trail)
              else if id in m.seen then r == Failure(DuplicateCommand) && manifest == m && trail == old(trail)
              else if m.active.Some? then r == Failure(ActiveRunExists) && manifest == m && trail == old(trail)
              else
                var run := m.nextRun + 1;
                && manifest ==
                     m.(seen := m.seen + {id}, nextRun := run, budgets := m.budgets[run := ZERO_BUDGET],
                       active := Some(run))
                && Replaced(old(trail), trail, manifest, r.Success?)
                && (r == Success(run) || r == Failure(WriteFailed))
    {
      if manifest.closed { return Failure(SessionIsClosed); }
      if id in manifest.seen { return Failure(DuplicateCommand); }
      if manifest.active.Some? { return Failure(ActiveRunExists); }
      manifest := manifest.(seen := manifest.seen + {id});
      manifest := manifest.(nextRun := manifest.nextRun + 1);
      var run := manifest.nextRun;
      manifest := manifest.(budgets := manifest.budgets[run := ZERO_BUDGET]);
      manifest := manifest.(active := Some(run));
      var ok := WriteManifest();
      return if ok then Success(run) else Failure(WriteFailed);
    }

    method RecordCommand(id: CommandId) returns (r: Result<(), StoreError>)
      requires Valid()
      modifies this`manifest, this`trail
      ensures Valid()
      ensures if id in old(manifest).seen then r == Failure(DuplicateCommand) && manifest == old(manifest)
              && trail == old(trail)
              else
                && manifest == old(manifest).(seen := old(manifest).seen + {id})
                && Replaced(old(trail), trail, manifest, r.Success?)
                && (r.Success? || r == Failure(WriteFailed))
    {
      if id in manifest.seen { return Failure(DuplicateCommand); }
      manifest := manifest.(seen := manifest.seen + {id});
      var ok := WriteManifest();
      return if ok then Success(()) else Failure(WriteFailed);
    }

    method FinishRun(run: RunId) returns (r: Result<(), StoreError>)
      requires Valid()
      modifies this`manifest, this`trail
      ensures Valid()
      ensures if old(manifest).active != Some(run) then r == Failure(Corrupt) && manifest == old(manifest)
              && trail == old(trail)
              else
                && manifest == old(manifest).(active := None)
                && Replaced(old(trail), trail, manifest, r.Success?)
    {
      if manifest.active != Some(run) { return Failure(Corrupt); }
      manifest := manifest.(active := None);
      var ok := WriteManifest();
      return if ok then Success(()) else Failure(WriteFailed);
    }

    method Close() returns (r: Result<(), StoreError>)
      requires Valid()
      modifies this`manifest, this`trail
      ensures Valid()
      ensures if old(manifest).closed then r.Success? && manifest == old(manifest) && trail == old(trail)
              else if old(manifest).active.Some? then r == Failure(SessionIsActive) && manifest == old(manifest)
                && trail == old(trail)
              else
                && manifest == old(manifest).(closed := true)
                && Replaced(old(trail), trail, manifest, r.Success?)
    {
      if manifest.closed { return Success(()); }
      if manifest.active.Some? { return Failure(SessionIsActive); }
      manifest := manifest.(closed := true);
      var ok := WriteManifest();
      return if ok then Success(()) else Failure(WriteFailed);
    }

    /** Persists a reservation before the work it covers begins; no other run's budget changes. */
    method ReserveBudget(run: RunId, counter: Counter, amount: int) returns (r: Result<Budget, StoreError>)
      requires Valid()
      modifies this`manifest, this`trail
      ensures Valid()
      ensures var m := old(manifest);
              if run !in m.budgets then r == Failure(Corrupt) && manifest == m && trail == old(trail)
              else match Reserved(m.budgets[run], counter, amount)
                case None => r == Failure(OverBudget) && manifest == m && trail == old(trail)
                case Some(b) =>
                  && manifest == m.(budgets := m.budgets[run := b])
                  && (r == Success(b) || r == Failure(WriteFailed))
                  && Replaced(old(trail), trail, manifest, r.Success?)
      ensures r.Success? || r == Failure(OverBudget) ==> run in old(manifest).budgets
      ensures r.Success? ==>
                var b := old(manifest).budgets[run];
                match counter
                case LogicalCall => r.value == Budget(b.calls + 1, b.attempts, b.delay) && r.value.calls <= 64
                case TransportAttempt => r.value == Budget(b.calls, b.attempts + 1, b.delay) && r.value.attempts <= 96
                case RetryDelay =>
                  amount >= 0 && r.value == Budget(b.calls, b.attempts, b.delay + amount)
                    && r.value.delay <= 600_000_000_000
      ensures r == Failure(OverBudget) ==>
                var b := old(manifest).budgets[run];
                match counter
                case LogicalCall => b.calls + 1 > 64
                case TransportAttempt => b.attempts + 1 > 96
                case RetryDelay => amount < 0 || b.delay + amount > 600_000_000_000
    {
      if run !in manifest.budgets { return Failure(Corrupt); }
      var b := manifest.budgets[run];
      match counter {
        case LogicalCall =>
          if b.calls >= MAX_CALLS { return Failure(OverBudget); }
          b := b.(calls := b.calls + 1);
        case TransportAttempt =>
          if b.attempts >= MAX_ATTEMPTS { return Failure(OverBudget); }
          b := b.(attempts := b.attempts + 1);
        case RetryDelay =>
          if amount < 0 || b.delay > MAX_DELAY - amount { return Failure(OverBudget); }
          b := b.(delay := b.delay + amount);
      }
      manifest := manifest.(budgets := manifest.budgets[run := b]);
      var ok := WriteManifest();
      return if ok then Success(b) else Failure(WriteFailed);
    }

    /** The work a reservation covers begins: nothing on disk changes. */
    method NoteStart(run: RunId, counter: Counter, amount: nat)
      requires Valid()
      modifies this`trail
      ensures Valid() && trail == old(trail) + [WithStart(Now(old(trail)), run, counter, amount)]
    {
      trail := trail + [WithStart(Now(trail), run, counter, amount)];
    }
  }

  lemma LastBatchState(w: World, batch: seq<Record>)
    ensures batch == [] ==> BatchStates(w, batch) == [] && WithRecords(w, batch) == w
    ensures batch != [] ==> BatchStates(w, batch)[|batch| - 1] == WithRecords(w, batch)
  {
    assert batch[..|batch|] == batch;
    assert w.disk.records + [] == w.disk.records;
  }

  /** store.Open: accepts exactly the disks that OpenAccepts describes, and takes the logs as the
      high-water marks. */
  method Open(trail: seq<World>) returns (r: Option<Store>)
    requires trail != []
    ensures r.Some? <==> OpenAccepts(Now(trail).disk)
    ensures r.Some? ==>
              fresh(r.value) && r.value.Valid() && r.value.trail == trail
                && r.value.manifest == Marked(Now(trail).disk).manifest
    ensures r.Some? ==>
              var d := Now(trail).disk;
              && r.value.transcript == d.records && r.value.events == d.events
              && r.value.manifest == d.manifest.(transcriptSeq := |d.records|, eventCursor := |d.events|)
              && (forall i :: 0 <= i < |d.records| ==> d.records[i].seqNo == i + 1)
              && (forall i :: 0 <= i < |d.events| ==> d.events[i].cursor == i + 1)
              && d.manifest.transcriptSeq <= |d.records| && d.manifest.eventCursor <= |d.events|
              && (d.manifest.active.Some? ==>
                    d.manifest.active.value != 0 && d.manifest.active.value in d.manifest.budgets)
  {
    var d := Now(trail).disk;
    if d.manifest.active.Some? {
      var run := d.manifest.active.value;
      if run !in d.manifest.budgets || run == 0 { return None; }
    }
    var bad := ValidateRecords(d.records);
    if bad.Some? { return None; }
    for i := 0 to |d.events|
      invariant forall k :: 0 <= k < i ==> d.events[k].cursor == k + 1 && ValidKind(d.events[k].run, d.events[k].kind)
    {
      if !ValidKind(d.events[i].run, d.events[i].kind) || d.events[i].cursor != i + 1 { return None; }
    }
    if |d.records| < d.manifest.transcriptSeq || |d.events| < d.manifest.eventCursor { return None; }
    var s := new Store(trail);
    return Some(s);
  }

  // ---- The in-memory budget of a session without a durable store ---------------------------

  class MemoryBudgets {
    var budgets: map<RunId, Budget>

    constructor ()
      ensures budgets == map[]
    {
      budgets := map[];
    }

    /** On a known run it does exactly what ReserveBudget does; an unknown run starts from zero. */
    method Reserve(run: RunId, counter: Counter, amount: int) returns (ok: bool)
      modifies this
      ensures var b := if run in old(budgets) then old(budgets)[run] else ZERO_BUDGET;
              match Reserved(b, counter, amount)
              case None => !ok && budgets == old(budgets)
              case Some(b') => ok && budgets == old(budgets)[run := b']
    {
      var b := if run in budgets then budgets[run] else ZERO_BUDGET;
      match counter {
        case LogicalCall =>
          if b.calls >= MAX_CALLS { return false; }
          b := b.(calls := b.calls + 1);
        case TransportAttempt =>
          if b.attempts >= MAX_ATTEMPTS { return false; }
          b := b.(attempts := b.attempts + 1);
        case RetryDelay =>
          if amount < 0 || b.delay > MAX_DELAY - amount { return false; }
          b := b.(delay := b.delay + amount);
      }
      budgets := budgets[run := b];
      return true;
    }
  }
}
