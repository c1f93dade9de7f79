/** Every moment of every life keeps the invariant, so a crash may come anywhere. */
module CrashSafety {
  import opened Transcript
  import opened Shape
  import opened Durable

  lemma HasCloseAppend(log: seq<Record>, r: Record)
    ensures HasClose(log + [r]) <==> HasClose(log) || r.payload.SessionClosed?
  {
    var all := log + [r];
    if i :| 0 <= i < |log| && log[i].payload.SessionClosed? { assert all[i].payload.SessionClosed?; }
    assert all[|log|] == r;
  }

  lemma NoOutcomeNoRecord(log: seq<Record>, run: RunId, i: nat)
    requires Outcomes(log, run) == 0 && i < |log|
    ensures !(log[i].payload.RunOutcome? && log[i].run == run)
  {
    if i < |log| - 1 { NoOutcomeNoRecord(log[..|log| - 1], run, i); }
  }

  lemma StopsAppend(log: seq<Record>, r: Record)
    requires StopsAfterFailure(log) && (LastFailed(log) ==> FollowsFailure(r))
    ensures StopsAfterFailure(log + [r])
  {
    var all := log + [r];
    forall i | 0 < i < |all| && LastFailed(all[..i]) ensures FollowsFailure(all[i]) {
      assert all[..i] == log[..i];
      if i == |log| { assert log[..i] == log; }
    }
  }

  lemma OutcomeLastAppend(log: seq<Record>, r: Record)
    requires OutcomeIsLast(log) && (forall x <- log :: ValidRecord(x))
    requires ValidRecord(r) && (r.payload.SessionClosed? || Outcomes(log, r.run) == 0)
    ensures OutcomeIsLast(log + [r])
  {
    var all := log + [r];
    forall i, j | 0 <= i < j < |all| && all[i].payload.RunOutcome? ensures all[j].run != all[i].run {
      if j == |log| {
        assert log[i] in log;
        if !r.payload.SessionClosed? { NoOutcomeNoRecord(log, r.run, i); }
      }
    }
  }

  lemma WellFormedAppend(log: seq<Record>, r: Record)
    requires WellFormedLog(log) && !HasClose(log) && ValidRecord(r) && r.seqNo == |log| + 1
    ensures WellFormedLog(log + [r])
  {
  }

  lemma LogStepKeepsInv(w: World, w': World)
    requires WorldInv(w) && LogStep(w, w')
    ensures WorldInv(w')
  {
    hide StopsAfterFailure, WellFormedLog, OutcomeIsLast, LastFailed, FollowsFailure, WellFormedEvents, HasClose,
         ShapeOf;
    var d, d' := w.disk, w'.disk;
    var log, r := d.records, d'.records[|d.records|];
    HasCloseAppend(log, r);
    ShapeAppend(log, r);
    StopsAppend(log, r);
    RecordsValid(log);
    OutcomeLastAppend(log, r);
    WellFormedAppend(log, r);
    forall run
      ensures Outcomes(d'.records, run) == Outcomes(log, run) + if r.payload.RunOutcome? && r.run == run then 1 else 0
    {
      CountsAppend(log, r, d.events, Event(0, 0, SessionResumed), run);
    }
  }

  lemma RecordsValid(log: seq<Record>)
    requires WellFormedLog(log)
    ensures forall x <- log :: ValidRecord(x)
  {
  }

  lemma EventStepKeepsInv(w: World, w': World)
    requires WorldInv(w) && EventStep(w, w')
    ensures WorldInv(w')
  {
    var e := w'.disk.events[|w.disk.events|];
    var r := Record(0, 0, SessionClosed);
    forall run
      ensures Terminals(w'.disk.events, run) ==
                Terminals(w.disk.events, run) + if Terminal(e.kind) && e.run == run then 1 else 0
    {
      CountsAppend(w.disk.records, r, w.disk.events, e, run);
    }
    CountsAppend(w.disk.records, r, w.disk.events, e, 0);
  }

  lemma ManifestStepKeepsInv(w: World, w': World)
    requires WorldInv(w) && ManifestStep(w, w')
    ensures WorldInv(w')
  {
  }

  lemma StepKeepsInv(w: World, w': World)
    requires WorldInv(w) && Step(w, w')
    ensures WorldInv(w')
  {
    if LogStep(w, w') { LogStepKeepsInv(w, w'); }
    else if EventStep(w, w') { EventStepKeepsInv(w, w'); }
    else if ManifestStep(w, w') { ManifestStepKeepsInv(w, w'); }
  }

  lemma NewWorldInv()
    ensures WorldInv(NEW_WORLD)
  {
  }

  /** The invariant holds at every moment of every life, across any number of crashes. */
  lemma {:induction false} PathInv(trail: seq<World>)
    requires Path(trail)
    ensures WorldInv(Now(trail))
  {
    hide Step, WorldInv;
    if |trail| > 1 {
      PathInv(trail[..|trail| - 1]);
      StepKeepsInv(trail[|trail| - 2], trail[|trail| - 1]);
    } else {
      NewWorldInv();
    }
  }
}
