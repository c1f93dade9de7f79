/** One model call: its text stream, as the engine's closures hold it, and its attempts. */
module Turns {
  import opened Wrappers
  import opened Projection
  import opened Stream
  import Messages
  import Reassembly
  import Retry

  datatype CallError = NoBudget | ProviderFailure(failure: Retry.FailureClass, retryAfter: int) | OtherError

  type Reply = Result<Reassembly.Response, CallError>

  /** A failure after which the call is tried again: a limited rate, a transient fault, an overload. */
  predicate TryAgain(r: Reply) {
    && r.Failure? && r.error.ProviderFailure?
    && (r.error.failure.RateLimit? || r.error.failure.Transient? || r.error.failure.Overloaded?)
  }

  /** How a call with its retries goes.  Every attempt but the last one failed in a way that is tried
      again, and a wait was taken behind it.  The last one's reply is the reply of the call: an answer, a
      failure that is not tried again, any reply to a cancelled run, or the ninth failure; or it was to be
      tried again as well, and the wait or the reservation of the next attempt failed. */
  ghost predicate RetriedCall(replies: seq<Reply>, waits: seq<Result<(), CallError>>, r: Reply, cancelled: bool) {
    && (forall i :: 0 <= i < |replies| - 1 ==> TryAgain(replies[i]))
    && (forall i :: 0 <= i < |waits| - 1 ==> waits[i].Success?)
    && (Replied(replies, waits, r, cancelled) || WaitFailed(replies, waits, r) || NotReserved(replies, waits, r))
  }

  ghost predicate Replied(replies: seq<Reply>, waits: seq<Result<(), CallError>>, r: Reply, cancelled: bool) {
    && |waits| == |replies| - 1 <= 8 && r == replies[|replies| - 1]
    && (waits != [] ==> waits[|waits| - 1].Success?)
    && (TryAgain(r) ==> cancelled || |waits| == 8)
  }

  ghost predicate WaitFailed(replies: seq<Reply>, waits: seq<Result<(), CallError>>, r: Reply) {
    && 0 < |waits| == |replies| <= 8 && TryAgain(replies[|replies| - 1])
    && r.Failure? && waits[|waits| - 1] == Failure(r.error) && (r.error.NoBudget? || r.error.OtherError?)
  }

  ghost predicate NotReserved(replies: seq<Reply>, waits: seq<Result<(), CallError>>, r: Reply) {
    && |waits| == |replies| <= 8 && (waits != [] ==> waits[|waits| - 1].Success? && TryAgain(replies[|replies| - 1]))
    && r.Failure? && (r.error.NoBudget? || r.error.OtherError?)
  }

  /** Behind replies that were tried again, the call ends with this reply, or without a further attempt. */
  lemma CallEnds(replies: seq<Reply>, waits: seq<Result<(), CallError>>, made: bool, r: Reply, cancelled: bool)
    requires |replies| == |waits| <= 8
    requires forall i :: 0 <= i < |replies| ==> TryAgain(replies[i]) && waits[i].Success?
    requires made && TryAgain(r) ==> cancelled || |waits| == 8
    requires !made ==> r == Failure(NoBudget) || r == Failure(OtherError)
    ensures RetriedCall(if made then replies + [r] else replies, waits, r, cancelled)
    ensures !WaitFailed(if made then replies + [r] else replies, waits, r)
    ensures made ==> !NotReserved(replies + [r], waits, r)
  {
    if made {
      assert Replied(replies + [r], waits, r, cancelled);
    } else {
      assert NotReserved(replies, waits, r);
    }
  }

  /** Or it ends with the wait that failed. */
  lemma WaitEnds(replies: seq<Reply>, waits: seq<Result<(), CallError>>, r: Reply, waited: Result<(), CallError>,
                 cancelled: bool)
    requires |replies| == |waits| < 8 && TryAgain(r)
    requires forall i :: 0 <= i < |replies| ==> TryAgain(replies[i]) && waits[i].Success?
    requires waited.Failure? ==> waited.error.NoBudget? || waited.error.OtherError?
    ensures waited.Failure? ==>
              && RetriedCall(replies + [r], waits + [waited], Failure(waited.error), cancelled)
              && WaitFailed(replies + [r], waits + [waited], Failure(waited.error))
              && !NotReserved(replies + [r], waits + [waited], Failure(waited.error))
  {
    if waited.Failure? { assert WaitFailed(replies + [r], waits + [waited], Failure(waited.error)); }
  }

  lemma SuccessIsLast(replies: seq<Reply>, waits: seq<Result<(), CallError>>, r: Reply, cancelled: bool)
    requires RetriedCall(replies, waits, r, cancelled) && r.Success?
    ensures replies != [] && replies[|replies| - 1] == r
  {
  }

  /** What the closures of one model call capture: the redactor and the text streamed so far. */
  class Turn {
    const detector: Detector
    var redactor: StreamRedactor
    var streamed: string
    /** What the provider has been asked and has replied so far, and how the waits between ended. */
    ghost var asked: seq<Messages.Request>
    ghost var replies: seq<Reply>
    ghost var waits: seq<Result<(), CallError>>

    /** The objects behind the stream. */
    ghost function Own(): set<object>
      reads `redactor
    {
      {redactor, redactor.lines}
    }

    ghost predicate Valid()
      reads `redactor, `streamed, redactor, redactor.lines
    {
      hide LinesFor;
      && redactor.detector == detector
      && streamed == redactor.emitted
      && redactor.Valid()
    }

    /** The attempt has streamed the given text so far. */
    ghost predicate Fed(text: string)
      reads `redactor, `streamed, redactor, redactor.lines
    {
      redactor.fed == text && Valid()
    }

    /** The whole attempt has been let through. */
    ghost predicate Complete(text: string)
      reads `streamed
    {
      PassedWhole(detector.rules, text, streamed)
    }

    constructor (detector: Detector)
      ensures fresh(Own())
      ensures this.detector == detector && Fed("")
      ensures asked == [] && replies == [] && waits == []
    {
      hide LinesFor;
      this.detector := detector;
      redactor := new StreamRedactor(detector);
      streamed := "";
      asked, replies, waits := [], [], [];
    }

    /** onText: what of the chunk may be shown now. */
    method Write(raw: string, ghost fed: string) returns (safe: string)
      requires Fed(fed)
      modifies this`streamed, Own()
      ensures streamed == old(streamed) + safe
      ensures Fed(fed + raw) && Own() == old(Own())
    {
      hide LinesFor;
      safe := redactor.Write(raw);
      streamed := streamed + safe;
    }

    /** resetStream: no byte of a failed attempt survives into the next one. */
    method Reset()
      modifies this`redactor, this`streamed
      ensures fresh(Own()) && Fed("")
    {
      hide LinesFor;
      redactor := new StreamRedactor(detector);
      streamed := "";
    }

    /** The held-back tail at the end of an accepted attempt. */
    method Finish(ghost fed: string) returns (trailing: string)
      requires Fed(fed)
      modifies this`streamed, Own()
      ensures streamed == old(streamed) + trailing
      ensures Complete(fed)
    {
      hide LinesFor, PassedWhole;
      trailing := redactor.Close();
      streamed := streamed + trailing;
      assert streamed == redactor.emitted;
    }
  }
}
