/** Live observation: each subscriber has a queue filled under the session's lock and a pump
    goroutine that drains it, woken through a channel with one slot. */
module Observer {
  import opened Durable

  /** Where the pump stands: waiting for a wake token, at the head of its inner loop, offering an
      event to the consumer, or gone. */
  datatype Pump = Asleep | Draining | Sending(event: Event) | Stopped

  class Subscriber {
    var queue: seq<Event>
    var token: bool
    var closed: bool
    var pump: Pump
    /** What the consumer has received, and everything this subscriber was ever handed. */
    ghost var delivered: seq<Event>
    ghost var promised: seq<Event>
    /** The cursor asked for, and how many events had been published by then. */
    ghost const after: nat
    ghost const joinedAt: nat

    ghost function InFlight(): seq<Event>
      reads this
    {
      if pump.Sending? then [pump.event] else []
    }

    /** Nothing is lost, repeated or reordered, and no wakeup is lost. */
    ghost predicate Valid()
      reads this
    {
      && (!closed ==> !pump.Stopped? && delivered + InFlight() + queue == promised)
      && (closed ==> queue == [] && delivered + InFlight() <= promised)
      && (!closed && queue != [] && pump.Asleep? ==> token)
    }

    constructor (initial: seq<Event>, ghost after: nat, ghost joinedAt: nat)
      ensures Valid() && !closed && promised == initial && delivered == []
      ensures this.after == after && this.joinedAt == joinedAt
    {
      queue := initial;
      token := |initial| > 0;
      closed := false;
      pump := Asleep;
      delivered, promised := [], initial;
      this.after, this.joinedAt := after, joinedAt;
    }

    method Enqueue(e: Event)
      requires Valid()
      modifies this
      ensures Valid() && closed == old(closed) && delivered == old(delivered)
      ensures promised == if closed then old(promised) else old(promised) + [e]
    {
      if !closed {
        queue := queue + [e];
        token := true;
        promised := promised + [e];
      }
    }

    method Close()
      requires Valid()
      modifies this
      ensures Valid() && closed && promised == old(promised) && delivered == old(delivered)
    {
      if !closed {
        assert delivered + InFlight() <= promised;
        closed := true;
        queue := [];
      }
    }

    /** One step of the pump goroutine.  A select with several ready cases takes any of them, which
        is what preferDone decides for a sleeping pump; one without ready cases leaves the pump where
        it is, which is what consumerReady decides for an offered event. */
    method PumpStep(preferDone: bool, consumerReady: bool)
      requires Valid()
      modifies this`token, this`pump, this`queue, this`delivered
      ensures Valid() && promised == old(promised) && closed == old(closed)
      ensures old(delivered) <= delivered <= promised
      ensures !closed && consumerReady && old(token || !pump.Asleep?) ==> Work() < old(Work())
    {
      match pump
      case Asleep =>
        if closed && (preferDone || !token) {
          pump := Stopped;
        } else if token {
          token := false;
          pump := Draining;
        }
      case Draining =>
        if closed {
          pump := Stopped;
        } else if |queue| == 0 {
          pump := Asleep;
        } else {
          var e := queue[0];
          queue := queue[1..];
          pump := Sending(e);
        }
      case Sending(e) =>
        if consumerReady {
          delivered := delivered + [e];
          pump := Draining;
        } else if closed {
          pump := Stopped;
        }
      case Stopped =>
    }

    /** The steps an open subscriber's pump still has to take before it sleeps for good. */
    ghost function Work(): nat
      reads this
    {
      2 * |queue| + (if token then 2 else 0) + (match pump case Draining => 1 case Sending(_) => 2 case _ => 0)
    }

    /** With a ready consumer an open subscriber delivers everything it was ever handed, in no more
        steps of its pump than there is work. */
    method Drain() returns (steps: nat)
      requires Valid() && !closed
      modifies this`token, this`pump, this`queue, this`delivered
      ensures Valid() && !closed && promised == old(promised)
      ensures delivered == promised && queue == [] && pump.Asleep? && !token
      ensures steps <= old(Work())
    {
      steps := 0;
      while token || !pump.Asleep?
        invariant Valid() && !closed && promised == old(promised)
        invariant steps + Work() <= old(Work())
        decreases Work()
      {
        PumpStep(false, true);
        steps := steps + 1;
      }
    }
  }

  // ---- The session's registry of subscribers --------------------------------------------

  /** The events published so far with a cursor above the given one. */
  function AfterCursor(history: seq<Event>, after: nat): seq<Event> {
    if history == [] then []
    else
      var e := history[|history| - 1];
      AfterCursor(history[..|history| - 1], after) + if e.cursor > after then [e] else []
  }

  predicate CursorsInOrder(history: seq<Event>) {
    forall i :: 0 <= i < |history| ==> history[i].cursor == i + 1
  }

  function Min(a: nat, b: nat): nat {
    if a < b then a else b
  }

  lemma {:induction false} AfterCursorIsSuffix(history: seq<Event>, after: nat)
    requires CursorsInOrder(history)
    ensures AfterCursor(history, after) == history[Min(after, |history|)..]
  {
    if history != [] {
      var init := history[..|history| - 1];
      AfterCursorIsSuffix(init, after);
      if after < |history| {
        assert history[after..] == init[after..] + [history[|history| - 1]];
      }
    }
  }

  /** The subscriber is open and has been handed the given history from where it joined. */
  ghost predicate Served(s: Subscriber, history: seq<Event>)
    reads s
  {
    && s.Valid()
    && !s.closed
    && s.joinedAt <= |history|
    && s.promised == history[Min(s.after, s.joinedAt)..]
  }

  /** Open or closed, the subscriber has been handed nothing but the history from where it joined. */
  ghost predicate Heard(s: Subscriber, history: seq<Event>)
    reads s
  {
    && s.Valid()
    && s.joinedAt <= |history|
    && s.promised <= history[Min(s.after, s.joinedAt)..]
  }

  class Hub {
    var history: seq<Event>
    var subs: map<nat, Subscriber>
    var nextSub: nat
    /** Every subscriber there ever was: the pump of a closed one may still hold an event. */
    var all: set<Subscriber>

    /** Every registered subscriber has been handed the published events from where it joined, and
        no other one has been handed anything else. */
    ghost predicate Valid()
      reads this, all
    {
      && CursorsInOrder(history)
      && (forall id <- subs :: id < nextSub && subs[id] in all)
      && (forall i, j :: i in subs && j in subs && i != j ==> subs[i] != subs[j])
      && (forall s <- all :: Heard(s, history))
      && (forall id <- subs :: Served(subs[id], history))
    }

    constructor (history: seq<Event>)
      requires CursorsInOrder(history)
      ensures Valid() && this.history == history && subs == map[] && all == {}
    {
      this.history := history;
      subs := map[];
      nextSub := 0;
      all := {};
    }

    /** Captures the history and registers for live delivery under one lock. */
    method Observe(after: nat) returns (id: nat)
      requires Valid()
      modifies this`subs, this`nextSub, this`all
      ensures Valid() && history == old(history)
      ensures id !in old(subs) && id in subs && subs == old(subs)[id := subs[id]] && fresh(subs[id])
      ensures all == old(all) + {subs[id]} && fresh(all - old(all))
      ensures fresh(subs.Values - old(subs.Values))
      ensures subs[id].after == after && subs[id].joinedAt == |history|
      ensures subs[id].promised == AfterCursor(history, after)
    {
      hide Served, Heard, AfterCursor;
      var initial := Capture(after);
      AfterCursorIsSuffix(history, after);
      var s := Join(initial, after);
      id := nextSub;
      nextSub := nextSub + 1;
      subs := subs[id := s];
      all := all + {s};
    }

    method Capture(after: nat) returns (initial: seq<Event>)
      ensures initial == AfterCursor(history, after)
    {
      initial := [];
      for i := 0 to |history|
        invariant initial == AfterCursor(history[..i], after)
      {
        assert history[..i + 1][..i] == history[..i];
        if history[i].cursor > after {
          initial := initial + [history[i]];
        }
      }
      assert history[..|history|] == history;
    }

    method Join(initial: seq<Event>, after: nat) returns (s: Subscriber)
      requires initial == history[Min(after, |history|)..]
      ensures fresh(s) && Served(s, history) && Heard(s, history) && s.promised == initial
      ensures s.after == after && s.joinedAt == |history|
    {
      s := new Subscriber(initial, after, |history|);
    }

    method Unsubscribe(id: nat)
      requires Valid()
      modifies this`subs, all
      ensures Valid() && history == old(history)
      ensures subs == old(subs) - {id} && subs.Values <= old(subs.Values)
      ensures id in old(subs) ==> old(subs)[id].closed
    {
      hide Served, Heard;
      if id in subs {
        var s := subs[id];
        subs := subs - {id};
        Stop(s);
      }
    }

    /** Closes one subscriber; what it has been handed stays. */
    method Stop(s: Subscriber)
      requires Heard(s, history)
      modifies s
      ensures Heard(s, history) && s.closed
    {
      s.Close();
    }

    method Publish(e: Event)
      requires Valid() && e.cursor == |history| + 1
      modifies this`history, all
      ensures Valid() && history == old(history) + [e]
    {
      hide Served, Heard;
      ghost var before := history;
      history := history + [e];
      assert history[..|history| - 1] == before;
      HeardGrows(before);
      var rest := subs.Keys;
      while rest != {}
        invariant rest <= subs.Keys
        invariant forall s <- all :: Heard(s, history)
        invariant forall id <- subs :: id in rest ==> Served(subs[id], before)
        invariant forall id <- subs :: id !in rest ==> Served(subs[id], history)
        modifies all
      {
        var id :| id in rest;
        Deliver(subs[id], e);
        rest := rest - {id};
      }
    }

    lemma HeardGrows(before: seq<Event>)
      requires before <= history && forall s <- all :: Heard(s, before)
      ensures forall s <- all :: Heard(s, history)
    {
      forall s | s in all ensures Heard(s, history) {
        var from := Min(s.after, s.joinedAt);
        assert before[from..] <= history[from..];
      }
    }

    method Deliver(s: Subscriber, e: Event)
      requires history != [] && Served(s, history[..|history| - 1]) && e == history[|history| - 1]
      modifies s
      ensures Served(s, history) && Heard(s, history)
    {
      var from := Min(s.after, s.joinedAt);
      assert history[from..] == history[..|history| - 1][from..] + [e];
      s.Enqueue(e);
    }

    /** A fault closes every observation. */
    method CloseAll()
      requires Valid()
      modifies this`subs, all
      ensures Valid() && history == old(history) && subs == map[]
      ensures forall id <- old(subs) :: old(subs)[id].closed
    {
      hide Served, Heard;
      var open := subs;
      var rest := subs.Keys;
      while rest != {}
        invariant rest <= open.Keys
        invariant forall s <- all :: Heard(s, history)
        invariant forall id <- open :: id !in rest ==> open[id].closed
        modifies all
      {
        var id :| id in rest;
        Stop(open[id]);
        rest := rest - {id};
      }
      subs := map[];
    }

    /** The scheduler lets the pump of some subscriber take a step. */
    method Pump(s: Subscriber)
      requires Valid() && s in all
      modifies s
      ensures Valid()
    {
      Turn(s);
    }

    method Turn(s: Subscriber)
      requires s.Valid()
      modifies s
      ensures Heard(s, history) <==> old(Heard(s, history))
      ensures Served(s, history) <==> old(Served(s, history))
    {
      var preferDone: bool, consumerReady: bool := *, *;
      s.PumpStep(preferDone, consumerReady);
    }

    /** What a consumer holds is a prefix of the published events from where it joined, and with
        the event in flight and the queue it is all of them. */
    lemma Complete(id: nat)
      requires Valid() && id in subs
      ensures var s := subs[id];
              && s.delivered + s.InFlight() + s.queue == history[Min(s.after, s.joinedAt)..]
              && (s.queue != [] && s.pump.Asleep? ==> s.token)
    {
    }
  }

  /** An observer gets exactly the published events with a cursor above the one it asked for, if
      and only if it did not ask beyond the current mark, or nothing was published since. */
  lemma DeliversAskedExactly(history: seq<Event>, after: nat, joinedAt: nat)
    requires CursorsInOrder(history) && joinedAt <= |history|
    ensures history[Min(after, joinedAt)..] == AfterCursor(history, after) <==>
              after <= joinedAt || |history| == joinedAt
  {
    AfterCursorIsSuffix(history, after);
    if joinedAt < after && joinedAt < |history| {
      assert |history[joinedAt..]| != |history[Min(after, |history|)..]|;
    }
  }

  /** Asking beyond the mark: an event with a lower cursor than the one asked for is delivered. */
  lemma AskingAheadDeliversOlder()
    ensures var history := [Event(1, 0, SessionResumed)];
            history[Min(5, 0)..] == history && AfterCursor(history, 5) == []
  {
    assert [Event(1, 0, SessionResumed)][..0] == [];
  }
}
