/** The life of a session across processes: open, recover, serve, crash, and again. */
module Processes {
  import opened Transcript
  import opened Durable
  import opened Chains
  import opened CrashSafety
  import opened CrashTheorems
  import opened Endings
  import opened Recovery
  import opened Store
  import opened Protocol
  import opened Engine
  import opened Projection
  import opened Broker
  import opened Messages

  lemma ValidIsLife(s: Session)
    requires s.Valid()
    ensures Path(s.store.trail)
  {
  }

  /** What observers do, and one command with the run it may start. */
  method ServeOne(s: Session)
    requires s.Valid() && !s.state.Running?
    modifies s, s.store, s.hub, s.hub.all
    ensures s.Valid() && !s.state.Running? && old(s.store.trail) <= s.store.trail
    ensures fresh(s.hub.all - old(s.hub.all))
  {
    hide Path, OwnIdFirst, Session.Valid, Session.Between, Session.Started, Session.Ended;
    var watching: nat :| watching >= 0;
    while watching > 0
      invariant s.Valid() && !s.state.Running? && old(s.store.trail) <= s.store.trail
      invariant fresh(s.hub.all - old(s.hub.all))
      modifies s.hub, s.hub.all
    {
      s.Watch();
      watching := watching - 1;
    }
    var c: Command := *;
    var gone: bool := *;
    ghost var log, events, run := s.store.transcript, s.store.events, s.store.manifest.nextRun + 1;
    var _ := s.Apply(c, gone);
    if s.state.Running? {
      s.StartedIsBetween(log, events, run, c.kind.prompt);
      ghost var trail, running := s.store.trail, s.running;
      var window: nat, maxOutput: nat := *, *;
      var stable: string, dynamic: string := *, *;
      var tools: seq<ToolDefinition> := *;
      var _, _, _, _ := s.Run(stable, dynamic, tools, window, maxOutput);
      s.EndedIsValid(trail, running);
    }
  }

  /** One process serves any commands and runs. */
  method Serve(s: Session)
    requires s.Valid() && !s.state.Running?
    modifies s, s.store, s.hub, s.hub.all
    ensures s.Valid() && old(s.store.trail) <= s.store.trail
  {
    hide Path, OwnIdFirst, Session.Valid, Session.Between, Session.Started, Session.Ended;
    var n: nat :| n >= 0;
    while n > 0
      invariant s.Valid() && !s.state.Running? && old(s.store.trail) <= s.store.trail
      invariant fresh(s.hub.all - old(s.hub.all))
    {
      ServeOne(s);
      n := n - 1;
    }
  }

  /** After every completed recovery the context of the next request is ready for a provider. */
  lemma RecoveredContextIsReady(trail: seq<World>)
    requires Path(trail) && UniqueCalls(Now(trail).disk.records)
    ensures Ready(ToMessages(Recovered(Now(trail)).disk.records))
  {
    var w := Now(trail);
    PathInv(trail);
    RecoveryLeads(w);
    LeadsInv(w, RecoveryTrail(w));
    SettledIsReady(Recovered(w).disk.records);
  }

  /** Any number of processes, each cut after any of its durable steps, with I/O failing anywhere:
      whatever they leave behind is a moment of a life, so every theorem about lives holds of it. */
  method Live(id: string, detector: Detector, broker: ActionBroker) returns (trail: seq<World>)
    ensures Path(trail) && EndsTold(Now(trail).disk) && EndsLogged(Now(trail).disk)
    ensures UniqueCalls(Now(trail).disk.records) ==>
              && OpenAccepts(Now(trail).disk)
              && Clean(Recovered(Now(trail)).disk)
              && Ready(ToMessages(Recovered(Now(trail)).disk.records))
  {
    trail := [NEW_WORLD];
    var n: nat :| n >= 0;
    while n > 0
      invariant Path(trail)
    {
      trail := LiveOnce(id, detector, broker, trail);
      n := n - 1;
    }
    EndsAlwaysTold(trail);
    EndsAlwaysLogged(trail);
    if UniqueCalls(Now(trail).disk.records) {
      CrashSafe(trail);
      RecoveredContextIsReady(trail);
    }
  }

  method LiveOnce(id: string, detector: Detector, broker: ActionBroker, before: seq<World>)
    returns (after: seq<World>)
    requires Path(before)
    ensures Path(after) && before <= after
  {
    hide OpenAccepts, RecoveryTrail, Clean;
    var loaded := Open(before);
    if loaded.None? { return before; }
    var store := loaded.value;
    var started := NewSession(id, detector, broker, store);
    if started.Success? {
      Serve(started.value);
      ValidIsLife(started.value);
    }
    var cut: nat :| |before| <= cut <= |store.trail|;
    HistoryCut(Step, NEW_WORLD, store.trail, cut);
    return store.trail[..cut];
  }
}
