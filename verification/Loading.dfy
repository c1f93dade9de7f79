/** What a loading process finds out about the logs it has read. */
module Loading {
  import opened Transcript
  import opened Durable
  import opened CrashSafety

  datatype LoadError = Inconsistent | Unpaired | Unwritten

  method HasOutcome(log: seq<Record>, run: RunId) returns (found: bool)
    ensures found <==> Outcomes(log, run) > 0
  {
    found := false;
    for i := 0 to |log|
      invariant found <==> Outcomes(log[..i], run) > 0
    {
      assert log[..i + 1][..i] == log[..i];
      if log[i].run == run && log[i].payload.RunOutcome? { found := true; }
    }
    assert log[..|log|] == log;
  }

  method HasTerminal(events: seq<Event>, run: RunId) returns (found: bool)
    ensures found <==> Terminals(events, run) > 0
  {
    found := false;
    for i := 0 to |events|
      invariant found <==> Terminals(events[..i], run) > 0
    {
      assert events[..i + 1][..i] == events[..i];
      if events[i].run == run && Terminal(events[i].kind) { found := true; }
    }
    assert events[..|events|] == events;
  }

  function CloseFacts(log: seq<Record>): nat {
    if log == [] then 0
    else CloseFacts(log[..|log| - 1]) + if log[|log| - 1].payload.SessionClosed? then 1 else 0
  }

  lemma {:induction false} CloseFactsExact(log: seq<Record>)
    requires CloseIsLast(log)
    ensures CloseFacts(log) == if HasClose(log) then 1 else 0
  {
    if log != [] {
      var init := log[..|log| - 1];
      assert log == init + [log[|log| - 1]];
      HasCloseAppend(init, log[|log| - 1]);
      CloseFactsExact(init);
    }
  }

  method CountCloses(log: seq<Record>, events: seq<Event>) returns (facts: nat, closeEvents: nat)
    ensures facts == CloseFacts(log) && closeEvents == CloseEvents(events)
  {
    facts, closeEvents := 0, 0;
    for i := 0 to |log|
      invariant facts == CloseFacts(log[..i])
    {
      assert log[..i + 1][..i] == log[..i];
      if log[i].payload.SessionClosed? { facts := facts + 1; }
    }
    for i := 0 to |events|
      invariant closeEvents == CloseEvents(events[..i])
    {
      assert events[..i + 1][..i] == events[..i];
      if events[i].kind.SessionClosedEvent? { closeEvents := closeEvents + 1; }
    }
    assert log[..|log|] == log && events[..|events|] == events;
  }

  /** The close facts of an opened session are always consistent. */
  lemma CloseFactsConsistent(d: Disk, w: World)
    requires WorldInv(w) && d == w.disk
    ensures CloseFacts(d.records) == (if HasClose(d.records) then 1 else 0) && CloseEvents(d.events) <= 1
    ensures d.manifest.closed || CloseEvents(d.events) > 0 ==> CloseFacts(d.records) == 1
    ensures CloseFacts(d.records) == 1 ==> d.manifest.active.None?
  {
    CloseFactsExact(d.records);
  }
}
