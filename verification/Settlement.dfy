/**
 How one attempt settles its task once its handler has returned. PostgreSQL may answer each write in any
 way; the log keeps every write with the answer that the attempt observed.
 */
module Settlement {
  import opened Prelude

  datatype Kind = Complete | Fail | Cancel | Expire | Release

  /**
   `Broken` is a write without a usable answer: an error, or a status that the worker does not know.
   `WrongTier` refuses the batched completion of a queue that left the fast tier.
   */
  datatype Answer =
    | Broken
    | Accepted
    | Rejected
    | Ready
    | Scheduled
    | Failed
    | CancelRequested
    | Deadline
    | Timeout
    | Stale
    | NotDue
    | Released
    | WrongTier

  datatype Write = Write(kind: Kind, answer: Answer)

  /** The answer says that this write, or PostgreSQL itself, settled the attempt. */
  predicate Settles(w: Write) {
    match w.kind
    case Complete => w.answer == Accepted
    case Cancel => w.answer == Accepted
    case Expire => w.answer == Deadline || w.answer == Timeout
    case Fail =>
      w.answer == Ready || w.answer == Scheduled || w.answer == Failed || w.answer == Deadline || w.answer == Timeout
    case Release => w.answer == Released || w.answer == Deadline || w.answer == Timeout
  }

  /** No write has settled the attempt yet. */
  predicate Open(log: seq<Write>) { forall i :: 0 <= i < |log| ==> !Settles(log[i]) }

  /** The last write settled the attempt, and no earlier one did. */
  predicate Settled(log: seq<Write>) { |log| > 0 && Settles(log[|log| - 1]) && Open(log[..|log| - 1]) }

  /** How many of the writes settle the attempt. */
  function Settlings(log: seq<Write>): nat {
    if |log| == 0 then 0 else Settlings(log[..|log| - 1]) + if Settles(log[|log| - 1]) then 1 else 0
  }

  lemma {:induction false} OpenSettlesNone(log: seq<Write>)
    ensures Open(log) <==> Settlings(log) == 0
  {
    if |log| > 0 {
      var front := log[..|log| - 1];
      assert forall k :: 0 <= k < |front| ==> front[k] == log[k];
      OpenSettlesNone(front);
    }
  }

  /** A settled log holds exactly one settling write, its last; an open one holds none. */
  lemma {:induction false} SettlesOnce(log: seq<Write>)
    ensures Settled(log) <==> |log| > 0 && Settles(log[|log| - 1]) && Settlings(log) == 1
    ensures Open(log) <==> Settlings(log) == 0
  {
    OpenSettlesNone(log);
    if |log| > 0 {
      OpenSettlesNone(log[..|log| - 1]);
    }
  }

  function Last(log: seq<Write>): Write
    requires |log| > 0
  {
    log[|log| - 1]
  }

  datatype Error = NoError | StaleLease | ExpirationNotDue | Stopped | OtherError

  datatype Outcome =
    | Unknown
    | Succeeded
    | Retry
    | FailedOutcome
    | Canceled
    | DeadlineExceeded
    | TimedOut
    | LeaseLost
    | ReleasedOutcome
    | Suspended

  /** The outcome that names the cause of a settling write. */
  function OutcomeOf(w: Write): Outcome {
    match w.answer
    case Deadline => DeadlineExceeded
    case Timeout => TimedOut
    case Ready => Retry
    case Scheduled => Retry
    case Failed => FailedOutcome
    case Released => ReleasedOutcome
    case _ => if w.kind.Complete? then Succeeded else Canceled
  }

  // ----- What an attempt starts from ---------------------------------------------------------------------

  datatype Cause = CancellationRequested | DeadlineCause | TimeoutCause | LostLease | OtherCause

  /** `expirationSettled` says that the supervisor observed the settled expiry itself. */
  datatype Ownership = Owned(status: Answer, expirationSettled: bool) | Interrupted

  datatype Handler = Returned(storable: bool) | Erred | Panicked

  /**
   `stop` holds whether the run had stopped, first when the handler returned and then later. `sendable` says
   that a failure of the attempt can be sent: its retry delay is in range, and its envelope can be encoded.
   */
  datatype Situation = Situation(
    ownership: Ownership,
    cause: Option<Cause>,
    suspended: bool,
    stop: (bool, bool),
    handler: Handler,
    sendable: bool,
    cancelledAtReturn: bool,
    cancelledByStop: bool)

  predicate Consistent(x: Situation) {
    && (x.stop.0 ==> x.stop.1)
    && (x.ownership.Owned? && x.ownership.expirationSettled ==> x.ownership.status == Deadline || x.ownership.status == Timeout)
  }

  predicate StoppedForShutdown(x: Situation) {
    && !x.suspended && x.stop.0
    && ((x.handler.Returned? && !x.cancelledAtReturn)
        || (x.cancelledAtReturn && x.cancelledByStop && !x.handler.Panicked?))
  }

  /** A handler that returned once the run stopped completes its task or gives it back. */
  function ShutdownWrite(x: Situation): Option<Kind> {
    if !StoppedForShutdown(x) then None else Some(if x.handler == Returned(true) then Complete else Release)
  }

  /** The first write that the situation calls for. */
  function FirstWrite(x: Situation): Option<Kind> {
    if x.ownership.Interrupted? then ShutdownWrite(x)
    else if x.suspended then None
    else
      match x.ownership.status
      case CancelRequested => Some(Cancel)
      case Deadline => if x.ownership.expirationSettled then None else Some(Expire)
      case Timeout => if x.ownership.expirationSettled then None else Some(Expire)
      case Stale => None
      case NotDue => None
      case _ => FirstWriteByCause(x)
  }

  /** A value completes the task; anything else fails it, if the failure can be sent at all. */
  function ResultWrite(handler: Handler, sendable: bool): Option<Kind> {
    if handler == Returned(true) then Some(Complete) else if sendable then Some(Fail) else None
  }

  function FirstWriteByCause(x: Situation): Option<Kind> {
    match x.cause
    case Some(CancellationRequested) => Some(Cancel)
    case Some(DeadlineCause) => Some(Expire)
    case Some(TimeoutCause) => Some(Expire)
    case Some(LostLease) => None
    case _ => if x.stop.1 then ShutdownWrite(x) else ResultWrite(x.handler, x.sendable)
  }

  /** The expiry that the verdict, or else the cause, names. */
  function ExpiryOutcome(x: Situation): Outcome {
    if x.ownership.Owned? && x.ownership.status == Deadline then DeadlineExceeded
    else if x.ownership.Owned? && x.ownership.status == Timeout then TimedOut
    else if x.cause == Some(DeadlineCause) then DeadlineExceeded
    else TimedOut
  }

  /** The verdict or the cause says that the lease is gone, so nothing is written. */
  predicate SaysLost(x: Situation) {
    && x.ownership.Owned? && !x.suspended
    && (x.ownership.status == Stale || x.ownership.status == NotDue || (ByCause(x) && x.cause == Some(LostLease)))
  }

  /** The verdict decides nothing, so the cause comes next. */
  predicate ByCause(x: Situation) {
    && x.ownership.Owned? && !x.suspended
    && x.ownership.status != CancelRequested && x.ownership.status != Deadline && x.ownership.status != Timeout
    && x.ownership.status != Stale && x.ownership.status != NotDue
  }

  /** The stop of the run ends the attempt: the supervisor reported it, or nothing else has a claim on it. */
  predicate EndsWithStop(x: Situation) {
    x.ownership.Interrupted? || (ByCause(x) && (x.cause.None? || x.cause == Some(OtherCause)) && x.stop.1)
  }

  /** The answer says that another owner settled the attempt, or that its expiry is not due. */
  predicate TellsLost(w: Write) {
    match w.kind
    case Cancel => w.answer == Rejected
    case Expire => w.answer == Stale || w.answer == NotDue || w.answer == Accepted
    case _ => false
  }

  /** The answer decides nothing, or the run stopped while an expiry was not due. */
  predicate Unclear(w: Write, stopped: bool) { !Settles(w) && (!TellsLost(w) || (w == Write(Expire, NotDue) && stopped)) }

  // ----- Which write follows which ------------------------------------------------------------------------

  /** PostgreSQL refused this settlement, so a cancellation or an expiry may have won. */
  predicate Refused(w: Write) {
    (w.kind == Complete && w.answer == Rejected) || ((w.kind == Fail || w.kind == Release) && w.answer == Stale)
  }

  /**
   The write that the answer to write `i` calls for, in an attempt whose writes start at `from`. A refused
   settlement is first taken for a cancelled one, then for an expired one.
   */
  function Next(log: seq<Write>, fast: bool, from: nat, i: nat): Option<Kind>
    requires from <= i < |log|
  {
    var w, before := log[i], if i > from then Some(log[i - 1]) else None;
    if Refused(w) then Some(Cancel)
    else
      match w.kind
      case Complete => if fast && w.answer == WrongTier && before != Some(w) then Some(Complete) else None
      case Cancel => if w.answer == Rejected && before.Some? && Refused(before.value) then Some(Expire) else None
      case Expire => if w.answer == NotDue then Some(Expire) else if w.answer == CancelRequested then Some(Cancel) else None
      case _ => if w.answer == CancelRequested then Some(Cancel) else None
  }

  /** Each answer was followed by the write that it called for. */
  predicate Trail(log: seq<Write>, fast: bool, from: nat) {
    forall i :: from <= i < |log| - 1 ==> Next(log, fast, from, i) == Some(log[i + 1].kind)
  }

  /** The last answer calls for nothing more, but for an expiry that is still not due. */
  predicate Done(log: seq<Write>, fast: bool, from: nat) {
    from < |log| ==> Next(log, fast, from, |log| - 1).None? || Last(log) == Write(Expire, NotDue)
  }

  predicate FullTrail(log: seq<Write>, fast: bool, from: nat) { Trail(log, fast, from) && Done(log, fast, from) }

  lemma TrailJoins(before: seq<Write>, log: seq<Write>, fast: bool, from: nat)
    requires before < log && from < |before| && Trail(before, fast, from) && Refused(Last(before))
    requires FullTrail(log, fast, |before| - 1)
    ensures FullTrail(log, fast, from)
  {
    forall i | from <= i < |log| - 1 ensures Next(log, fast, from, i) == Some(log[i + 1].kind) {
      if i < |before| - 1 {
        assert log[i] == before[i] && log[i + 1] == before[i + 1] && (i > 0 ==> log[i - 1] == before[i - 1]);
        assert Next(log, fast, from, i) == Next(before, fast, from, i);
      } else {
        assert Next(log, fast, |before| - 1, i) == Some(log[i + 1].kind);
      }
    }
  }

  /** An expiry follows where it is called for. */
  lemma TrailExpires(before: seq<Write>, log: seq<Write>, fast: bool, from: nat)
    requires before < log && from < |before| && Trail(before, fast, from) && Trail(log, fast, |before|)
    requires Next(before, fast, from, |before| - 1) == Some(Expire)
    requires forall i :: |before| <= i < |log| ==> log[i].kind == Expire
    ensures Trail(log, fast, from)
  {
    forall i | from <= i < |log| - 1 ensures Next(log, fast, from, i) == Some(log[i + 1].kind) {
      if i < |before| {
        assert log[i] == before[i] && (i > 0 ==> log[i - 1] == before[i - 1]);
        assert Next(log, fast, from, i) == Next(before, fast, from, i);
      } else {
        assert Next(log, fast, |before|, i) == Some(log[i + 1].kind);
      }
    }
  }

  /** A cancellation that was asked for is acknowledged, whatever the answer. */
  lemma TrailCancels(before: seq<Write>, answer: Answer, fast: bool, from: nat)
    requires from < |before| && Trail(before, fast, from) && Last(before).answer == CancelRequested
    requires Last(before).kind == Expire || Last(before).kind == Fail || Last(before).kind == Release
    ensures FullTrail(before + [Write(Cancel, answer)], fast, from)
  {
    var log := before + [Write(Cancel, answer)];
    forall i | from <= i < |log| - 1 ensures Next(log, fast, from, i) == Some(log[i + 1].kind) {
      assert log[i] == before[i] && (i > 0 ==> log[i - 1] == before[i - 1]);
      assert i < |before| - 1 ==> Next(log, fast, from, i) == Next(before, fast, from, i);
    }
  }

  /** The handler has a value for the task, or an error. */
  predicate HasValue(x: Situation) { x.handler == Returned(true) }

  /** Neither the verdict nor the cause decides, and the run goes on. */
  predicate HandlerDecides(x: Situation) { ByCause(x) && (x.cause.None? || x.cause == Some(OtherCause)) && !x.stop.1 }

  /**
   Each write is the first one in exactly these situations: the verdict comes before the cause, the cause
   before the stop of the run, and what the handler returned comes last.
   */
  lemma FirstWriteExactly(x: Situation)
    ensures FirstWrite(x) == Some(Cancel) <==>
              x.ownership.Owned? && !x.suspended
              && (x.ownership.status == CancelRequested || (ByCause(x) && x.cause == Some(CancellationRequested)))
    ensures FirstWrite(x) == Some(Expire) <==>
              || (x.ownership.Owned? && !x.suspended && !x.ownership.expirationSettled
                  && (x.ownership.status == Deadline || x.ownership.status == Timeout))
              || (ByCause(x) && (x.cause == Some(DeadlineCause) || x.cause == Some(TimeoutCause)))
    ensures FirstWrite(x) == Some(Complete) <==>
              HasValue(x) && (HandlerDecides(x) || (EndsWithStop(x) && StoppedForShutdown(x)))
    ensures FirstWrite(x) == Some(Fail) <==> HandlerDecides(x) && !HasValue(x) && x.sendable
    ensures FirstWrite(x) == Some(Release) <==> EndsWithStop(x) && StoppedForShutdown(x) && !HasValue(x)
  {
  }

  /** An attempt that ends with the stop of its run writes nothing exactly if it is suspended, or ended before the stop, or not by it. */
  lemma StopWritesNothingExactly(x: Situation)
    requires EndsWithStop(x)
    ensures FirstWrite(x).None? <==>
              || x.suspended || !x.stop.0
              || (if x.cancelledAtReturn then !x.cancelledByStop || x.handler.Panicked? else !x.handler.Returned?)
  {
  }

  /** The verdict names the expiry, and the cause does where the verdict decides nothing. */
  lemma ExpiryOutcomeExactly(x: Situation)
    requires FirstWrite(x) == Some(Expire)
    ensures ExpiryOutcome(x) == DeadlineExceeded <==> x.ownership.status == Deadline || (ByCause(x) && x.cause == Some(DeadlineCause))
    ensures ExpiryOutcome(x) == TimedOut <==> x.ownership.status == Timeout || (ByCause(x) && x.cause == Some(TimeoutCause))
  {
  }

  /** The outcome is what the settling write says, or the expiry that the attempt set out to settle. */
  predicate OutcomeOk(x: Situation, log: seq<Write>, outcome: Outcome) {
    Settled(log) ==> outcome == if FirstWrite(x) == Some(Expire) then ExpiryOutcome(x) else OutcomeOf(Last(log))
  }

  /** The situation or the last answer says that the lease is lost. */
  predicate IsLost(x: Situation, before: seq<Write>, log: seq<Write>) {
    Open(log) && (SaysLost(x) || (|log| > |before| && TellsLost(Last(log))))
  }

  /** An error that is neither a stop nor a lost lease comes from an answer that decides nothing, or from a failure that cannot be sent. */
  predicate IsUnclear(before: seq<Write>, log: seq<Write>, stopped: bool) {
    Open(log) && (|log| > |before| ==> Unclear(Last(log), stopped))
  }

  /** `log` goes on from `before`, starting with the given write. */
  predicate Continues(before: seq<Write>, log: seq<Write>, first: Option<Kind>) {
    && before <= log
    && (first.None? ==> log == before)
    && (first.Some? ==> |log| > |before| && log[|before|].kind == first.value)
  }

  /** Answers of PostgreSQL, the retries that the clock allows, and stops during a wait, for each write. */
  class Attempt {
    const fastTier: bool
    const answers: nat -> Answer
    const retries: nat -> nat
    const stops: nat -> bool
    var log: seq<Write>

    constructor (fastTier: bool, answers: nat -> Answer, retries: nat -> nat, stops: nat -> bool, log: seq<Write>)
      ensures this.fastTier == fastTier && this.answers == answers && this.log == log
    {
      this.fastTier := fastTier;
      this.answers, this.retries, this.stops, this.log := answers, retries, stops, log;
    }

    method Send(kind: Kind) returns (answer: Answer)
      requires Open(log)
      modifies this
      ensures log == old(log) + [Write(kind, answer)] && answer == answers(|old(log)|)
      ensures if Settles(Write(kind, answer)) then Settled(log) else Open(log)
    {
      answer := answers(|log|);
      log := log + [Write(kind, answer)];
      assert log[..|log| - 1] == old(log);
    }

    /** A fast-tier task sends the batched completion first, and the ordinary one if its queue left the tier. */
    method CompleteTask() returns (error: Error)
      requires Open(log)
      modifies this
      ensures Continues(old(log), log, Some(Complete))
      ensures |log| <= |old(log)| + 2 && forall i :: |old(log)| <= i < |log| ==> log[i].kind == Complete
      ensures |log| == |old(log)| + 2 <==> fastTier && log[|old(log)|].answer == WrongTier
      ensures if error == NoError then Settled(log) else Open(log)
      ensures error == match Last(log).answer case Accepted => NoError case Rejected => StaleLease case _ => OtherError
      ensures Trail(log, fastTier, |old(log)|) && (error != StaleLease ==> Done(log, fastTier, |old(log)|))
    {
      var answer := Send(Complete);
      if fastTier && answer == WrongTier {
        answer := Send(Complete);
      }
      return match answer case Accepted => NoError case Rejected => StaleLease case _ => OtherError;
    }

    method CancellationAccepted() returns (accepted: Option<bool>)
      requires Open(log)
      modifies this
      ensures Continues(old(log), log, Some(Cancel))
      ensures log == old(log) + [Write(Cancel, answers(|old(log)|))]
      ensures if accepted == Some(true) then Settled(log) else Open(log)
      ensures accepted == match answers(|old(log)|) case Accepted => Some(true) case Rejected => Some(false) case _ => None
    {
      var answer := Send(Cancel);
      return match answer case Accepted => Some(true) case Rejected => Some(false) case _ => None;
    }

    method AcknowledgeCancellation() returns (error: Error)
      requires Open(log)
      modifies this
      ensures Continues(old(log), log, Some(Cancel))
      ensures log == old(log) + [Write(Cancel, answers(|old(log)|))]
      ensures if error == NoError then Settled(log) else Open(log)
      ensures error == NoError || error == OtherError || (error == StaleLease && TellsLost(Last(log)))
      ensures error == OtherError ==> Unclear(Last(log), stops(|log|))
    {
      var accepted := CancellationAccepted();
      if accepted.None? {
        return OtherError;
      }
      return if accepted.value then NoError else StaleLease;
    }

    /** Repeats the write on `NotDue`, at most `left` times more. */
    method ExpireOwnership() returns (status: Option<Answer>)
      requires Open(log)
      modifies this
      ensures Continues(old(log), log, Some(Expire))
      ensures if status == Some(Deadline) || status == Some(Timeout)
              then Settled(log) && Last(log) == Write(Expire, status.value) else Open(log)
      ensures forall i :: |old(log)| <= i < |log| - 1 ==> log[i] == Write(Expire, NotDue)
      ensures log == old(log) + [Write(Expire, answers(|old(log)|))] || answers(|old(log)|) == NotDue
      ensures Last(log).kind == Expire && (status.Some? ==> status == ParseStatus(Last(log).answer))
      ensures Trail(log, fastTier, |old(log)|) && (status.None? ==> Unclear(Last(log), stops(|log|)))
      ensures |log| <= |old(log)| + 1 + retries(|old(log)|)
      ensures status == Some(NotDue) ==> |log| == |old(log)| + 1 + retries(|old(log)|)
      ensures ParseStatus(Last(log).answer).Some? && Last(log).answer != NotDue ==> status == Some(Last(log).answer)
    {
      var left := retries(|log|);
      while true
        invariant Open(log) && old(log) <= log && (log == old(log) || log[|old(log)|].kind == Expire)
        invariant |log| + left == |old(log)| + retries(|old(log)|)
        invariant forall i :: |old(log)| <= i < |log| ==> log[i] == Write(Expire, NotDue)
        invariant log == old(log) || answers(|old(log)|) == NotDue
        decreases left
      {
        var answer := Send(Expire);
        status := ParseStatus(answer);
        if status != Some(NotDue) || left == 0 {
          return;
        }
        left := left - 1;
        if stops(|log|) {
          return None;
        }
      }
    }

    /** The cancellation was rejected too, so an expiry may have won. */
    method ReconcileExpiry() returns (outcome: Outcome, error: Error)
      requires Open(log) && |log| > 1 && Refused(log[|log| - 2]) && Last(log) == Write(Cancel, Rejected)
      modifies this
      ensures Continues(old(log), log, Some(Expire)) && FullTrail(log, fastTier, |old(log)| - 2)
      ensures if error == NoError then Settled(log) && outcome == OutcomeOf(Last(log)) else Open(log) && outcome == LeaseLost
      ensures outcome == Canceled || outcome == DeadlineExceeded || outcome == TimedOut || outcome == LeaseLost
      ensures error == NoError || error == OtherError || (error == StaleLease && TellsLost(Last(log)))
      ensures error == OtherError ==> Unclear(Last(log), stops(|log|))
    {
      var status := ExpireOwnership();
      ghost var from := |old(log)| - 2;
      TrailExpires(old(log), log, fastTier, from);
      if status.None? {
        return LeaseLost, OtherError;
      }
      match status.value {
        case CancelRequested =>
          ghost var before := log;
          error := AcknowledgeCancellation();
          TrailCancels(before, Last(log).answer, fastTier, from);
          outcome := if error == NoError then Canceled else LeaseLost;
        case Deadline => return DeadlineExceeded, NoError;
        case Timeout => return TimedOut, NoError;
        case _ => return LeaseLost, StaleLease;
      }
    }

    /** Follows a refused settlement with the write that the answer calls for, and returns its outcome. */
    method ReconcileRejected() returns (outcome: Outcome, error: Error)
      requires Open(log) && |log| > 0 && Refused(Last(log))
      modifies this
      ensures Continues(old(log), log, Some(Cancel)) && FullTrail(log, fastTier, |old(log)| - 1)
      ensures if error == NoError then Settled(log) && outcome == OutcomeOf(Last(log)) else Open(log) && outcome == LeaseLost
      ensures outcome == Canceled || outcome == DeadlineExceeded || outcome == TimedOut || outcome == LeaseLost
      ensures error == NoError || error == OtherError || (error == StaleLease && TellsLost(Last(log)))
      ensures error == OtherError ==> Unclear(Last(log), stops(|log|))
    {
      var accepted := CancellationAccepted();
      if accepted.None? {
        return LeaseLost, OtherError;
      }
      if accepted.value {
        return Canceled, NoError;
      }
      outcome, error := ReconcileExpiry();
    }

    method SettleExpiration() returns (error: Error)
      requires Open(log)
      modifies this
      ensures Continues(old(log), log, Some(Expire))
      ensures if error == NoError then Settled(log) else Open(log)
      ensures error == NoError || error == OtherError || ((error == StaleLease || error == ExpirationNotDue) && TellsLost(Last(log)))
      ensures answers(|old(log)|) == CancelRequested && answers(|old(log)| + 1) == Accepted ==>
                error == NoError && Last(log) == Write(Cancel, Accepted)
      ensures FullTrail(log, fastTier, |old(log)|) && (error == OtherError ==> Unclear(Last(log), stops(|log|)))
    {
      var status := ExpireOwnership();
      if status.None? {
        return OtherError;
      }
      match status.value {
        case CancelRequested =>
          ghost var before := log;
          error := AcknowledgeCancellation();
          TrailCancels(before, Last(log).answer, fastTier, |old(log)|);
        case Deadline => error := NoError;
        case Timeout => error := NoError;
        case Stale => error := StaleLease;
        case _ => error := ExpirationNotDue;
      }
    }

    method FailAttempt(sendable: bool) returns (outcome: Outcome, error: Error)
      requires Open(log)
      modifies this
      ensures Continues(old(log), log, if sendable then Some(Fail) else None)
      ensures if error == NoError then Settled(log) && outcome == OutcomeOf(Last(log)) else Open(log)
      ensures error == NoError || error == OtherError || (error == StaleLease && |log| > |old(log)| && TellsLost(Last(log)))
      ensures FullTrail(log, fastTier, |old(log)|)
      ensures error == OtherError ==> if sendable then Unclear(Last(log), stops(|log|)) else log == old(log)
    {
      if !sendable {
        return Unknown, OtherError;
      }
      var state := Send(Fail);
      match state {
        case Ready => return Retry, NoError;
        case Scheduled => return Retry, NoError;
        case Failed => return FailedOutcome, NoError;
        case CancelRequested =>
          ghost var before := log;
          error := AcknowledgeCancellation();
          TrailCancels(before, Last(log).answer, fastTier, |old(log)|);
          outcome := Canceled;
        case Deadline => return DeadlineExceeded, NoError;
        case Timeout => return TimedOut, NoError;
        case Stale => outcome, error := ReconcileRejected();
        case _ => return Unknown, OtherError;
      }
    }

    /** The outcome is the one that the release status implies, or the reconciled cause. */
    method ReleaseOwned() returns (outcome: Option<Outcome>, error: Error)
      requires Open(log)
      modifies this
      ensures Continues(old(log), log, Some(Release))
      ensures error == NoError ==> outcome.Some?
      ensures if error == NoError && outcome != Some(LeaseLost)
              then Settled(log) && outcome == Some(OutcomeOf(Last(log))) else Open(log)
      ensures Open(log) && outcome.Some? ==> outcome == Some(Canceled) || outcome == Some(LeaseLost)
      ensures outcome != Some(Succeeded)
      ensures FullTrail(log, fastTier, |old(log)|)
    {
      var status := Send(Release);
      match status {
        case Released => return Some(ReleasedOutcome), NoError;
        case CancelRequested =>
          ghost var before := log;
          error := AcknowledgeCancellation();
          TrailCancels(before, Last(log).answer, fastTier, |old(log)|);
          outcome := Some(Canceled);
        case Deadline => return Some(DeadlineExceeded), NoError;
        case Timeout => return Some(TimedOut), NoError;
        case Stale =>
          var reconciled: Outcome;
          reconciled, error := ReconcileRejected();
          outcome := Some(reconciled);
        case NotDue => return Some(LeaseLost), NoError;
        case _ => return None, OtherError;
      }
    }

    /** A value completes the task; an error, or a value that cannot be stored, returns it to its queue. */
    method SettleAfterShutdown(handler: Handler) returns (outcome: Outcome)
      requires Open(log)
      modifies this
      ensures Continues(old(log), log, Some(if handler == Returned(true) then Complete else Release))
      ensures Open(log) || Settled(log)
      ensures Settled(log) ==> outcome == OutcomeOf(Last(log))
      ensures Open(log) ==> outcome == Canceled || outcome == LeaseLost
      ensures FullTrail(log, fastTier, |old(log)|)
    {
      outcome := Canceled;
      if handler == Returned(true) {
        var error := CompleteTask();
        if error == NoError {
          outcome := Succeeded;
        } else if error == StaleLease {
          ghost var before := log;
          outcome, error := ReconcileRejected();
          TrailJoins(before, log, fastTier, |old(log)|);
        }
      } else {
        var released, _ := ReleaseOwned();
        if released.Some? {
          outcome := released.value;
        }
      }
    }

    /**
     The whole attempt, once the handler returned. It stops at the first write that settles it, so it
     never observes two. A suspended attempt writes nothing. Without an error, a write settled it, or it
     is suspended, or its lease is lost; a lost lease is never an error. The outcome is what the settling
     write says, unless the attempt set out to settle an expiry: then it is that expiry.
     */
    method Execute(x: Situation) returns (outcome: Outcome, error: Error)
      requires Consistent(x)
      requires if x.ownership.Owned? && x.ownership.expirationSettled
               then Settled(log) && Last(log) == Write(Expire, x.ownership.status) else Open(log)
      modifies this
      ensures Continues(old(log), log, FirstWrite(x)) && FullTrail(log, fastTier, |old(log)|)
      ensures Open(log) || Settled(log)
      ensures error == NoError || error == Stopped || error == OtherError
      ensures error == Stopped <==> EndsWithStop(x)
      ensures x.ownership.Owned? && x.suspended ==> log == old(log) && outcome == Suspended && error == NoError
      ensures SaysLost(x) ==> outcome == LeaseLost && error == NoError
      ensures error == NoError && Open(log) && !x.suspended ==> outcome == LeaseLost && IsLost(x, old(log), log)
      ensures error == OtherError ==> IsUnclear(old(log), log, stops(|log|))
      ensures !(x.ownership.Owned? && x.suspended) ==> OutcomeOk(x, log, outcome)
      ensures FirstWrite(x) == Some(Expire) && answers(|old(log)|) == CancelRequested && answers(|old(log)| + 1) == Accepted ==>
                Settled(log) && Last(log) == Write(Cancel, Accepted)
    {
      outcome, error := SettleOwned(x);
      // Two errors become an outcome and go no further.
      if error == StaleLease || error == ExpirationNotDue {
        return LeaseLost, NoError;
      }
    }

    method SettleInterrupted(x: Situation) returns (outcome: Outcome)
      requires Open(log) && x.ownership.Interrupted?
      modifies this
      ensures Continues(old(log), log, ShutdownWrite(x)) && FullTrail(log, fastTier, |old(log)|)
      ensures Open(log) || Settled(log)
      ensures Settled(log) ==> outcome == OutcomeOf(Last(log))
    {
      outcome := Unknown;
      if StoppedForShutdown(x) {
        outcome := SettleAfterShutdown(x.handler);
      }
    }

    /** The verdict is an expiry, which the supervisor saw settled or did not. */
    method SettleVerdict(ownership: Ownership) returns (error: Error)
      requires ownership.Owned? && (if ownership.expirationSettled then Settled(log) else Open(log))
      modifies this
      ensures Continues(old(log), log, if ownership.expirationSettled then None else Some(Expire))
      ensures FullTrail(log, fastTier, |old(log)|)
      ensures if error == NoError then Settled(log) else Open(log)
      ensures error == NoError || error == OtherError || ((error == StaleLease || error == ExpirationNotDue) && TellsLost(Last(log)))
      ensures error == OtherError ==> Unclear(Last(log), stops(|log|))
      ensures !ownership.expirationSettled && answers(|old(log)|) == CancelRequested && answers(|old(log)| + 1) == Accepted ==>
                error == NoError && Last(log) == Write(Cancel, Accepted)
    {
      if ownership.expirationSettled {
        return NoError;
      }
      error := SettleExpiration();
    }

    method SettleOwned(x: Situation) returns (outcome: Outcome, error: Error)
      requires Consistent(x)
      requires if x.ownership.Owned? && x.ownership.expirationSettled
               then Settled(log) && Last(log) == Write(Expire, x.ownership.status) else Open(log)
      modifies this
      ensures Continues(old(log), log, FirstWrite(x)) && FullTrail(log, fastTier, |old(log)|)
      ensures Open(log) || Settled(log)
      ensures error == Stopped <==> EndsWithStop(x)
      ensures x.ownership.Owned? && x.suspended ==> log == old(log) && outcome == Suspended && error == NoError
      ensures SaysLost(x) ==> error == StaleLease || error == ExpirationNotDue
      ensures error == NoError && !(x.ownership.Owned? && x.suspended) ==> Settled(log)
      ensures error == OtherError ==> IsUnclear(old(log), log, stops(|log|))
      ensures error == StaleLease || error == ExpirationNotDue ==> IsLost(x, old(log), log)
      ensures !(x.ownership.Owned? && x.suspended) ==> OutcomeOk(x, log, outcome)
      ensures FirstWrite(x) == Some(Expire) && answers(|old(log)|) == CancelRequested && answers(|old(log)| + 1) == Accepted ==>
                Settled(log) && Last(log) == Write(Cancel, Accepted)
    {
      if x.ownership.Interrupted? {
        outcome := SettleInterrupted(x);
        return outcome, Stopped;
      }
      if x.suspended {
        return Suspended, NoError;
      }
      outcome, error := SettleByVerdict(x);
    }

    /** The supervisor's verdict decides first. */
    method SettleByVerdict(x: Situation) returns (outcome: Outcome, error: Error)
      requires Consistent(x) && x.ownership.Owned? && !x.suspended
      requires if x.ownership.expirationSettled then Settled(log) && Last(log) == Write(Expire, x.ownership.status) else Open(log)
      modifies this
      ensures Continues(old(log), log, FirstWrite(x)) && FullTrail(log, fastTier, |old(log)|)
      ensures Open(log) || Settled(log)
      ensures error == Stopped <==> EndsWithStop(x)
      ensures SaysLost(x) ==> error == StaleLease || error == ExpirationNotDue
      ensures error == NoError ==> Settled(log)
      ensures error == OtherError ==> IsUnclear(old(log), log, stops(|log|))
      ensures error == StaleLease || error == ExpirationNotDue ==> IsLost(x, old(log), log)
      ensures OutcomeOk(x, log, outcome)
      ensures FirstWrite(x) == Some(Expire) && answers(|old(log)|) == CancelRequested && answers(|old(log)| + 1) == Accepted ==>
                Settled(log) && Last(log) == Write(Cancel, Accepted)
    {
      match x.ownership.status {
        case CancelRequested =>
          error := AcknowledgeCancellation();
          return Canceled, error;
        case Deadline =>
          outcome := DeadlineExceeded;
          error := SettleVerdict(x.ownership);
        case Timeout =>
          outcome := TimedOut;
          error := SettleVerdict(x.ownership);
        case Stale => return LeaseLost, StaleLease;
        case NotDue => return Unknown, ExpirationNotDue;
        case _ => outcome, error := SettleByCause(x);
      }
    }

    /** Ownership was accepted, so the cause of the handler's cancellation decides next. */
    method SettleByCause(x: Situation) returns (outcome: Outcome, error: Error)
      requires Open(log) && ByCause(x) && (x.stop.0 ==> x.stop.1)
      modifies this
      ensures Continues(old(log), log, FirstWriteByCause(x)) && FullTrail(log, fastTier, |old(log)|)
      ensures Open(log) || Settled(log)
      ensures error == Stopped <==> EndsWithStop(x)
      ensures SaysLost(x) ==> error == StaleLease
      ensures error == NoError ==> Settled(log)
      ensures error == OtherError ==> IsUnclear(old(log), log, stops(|log|))
      ensures error == StaleLease || error == ExpirationNotDue ==> IsLost(x, old(log), log)
      ensures OutcomeOk(x, log, outcome)
      ensures FirstWriteByCause(x) == Some(Expire) && answers(|old(log)|) == CancelRequested && answers(|old(log)| + 1) == Accepted ==>
                Settled(log) && Last(log) == Write(Cancel, Accepted)
    {
      if x.cause == Some(CancellationRequested) {
        error := AcknowledgeCancellation();
        return Canceled, error;
      }
      if x.cause == Some(DeadlineCause) {
        error := SettleExpiration();
        return DeadlineExceeded, error;
      }
      if x.cause == Some(TimeoutCause) {
        error := SettleExpiration();
        return TimedOut, error;
      }
      if x.cause == Some(LostLease) {
        return LeaseLost, StaleLease;
      }
      if x.stop.1 {
        outcome := Canceled;
        if StoppedForShutdown(x) {
          outcome := SettleAfterShutdown(x.handler);
        }
        return outcome, Stopped;
      }
      outcome, error := SettleResult(x.handler, x.sendable);
    }

    method SettleResult(handler: Handler, sendable: bool) returns (outcome: Outcome, error: Error)
      requires Open(log)
      modifies this
      ensures Continues(old(log), log, ResultWrite(handler, sendable)) && FullTrail(log, fastTier, |old(log)|)
      ensures if error == NoError then Settled(log) && outcome == OutcomeOf(Last(log)) else Open(log)
      ensures error == NoError || error == OtherError || (error == StaleLease && |log| > |old(log)| && TellsLost(Last(log)))
      ensures error == OtherError ==> |log| > |old(log)| ==> Unclear(Last(log), stops(|log|))
    {
      if handler != Returned(true) {
        outcome, error := FailAttempt(sendable);
        return;
      }
      outcome := Succeeded;
      error := CompleteTask();
      if error == StaleLease {
        ghost var before := log;
        outcome, error := ReconcileRejected();
        TrailJoins(before, log, fastTier, |old(log)|);
      }
    }
  }

  function ParseStatus(answer: Answer): Option<Answer> {
    match answer
    case Accepted => Some(answer)
    case CancelRequested => Some(answer)
    case Deadline => Some(answer)
    case Timeout => Some(answer)
    case Stale => Some(answer)
    case NotDue => Some(answer)
    case _ => None
  }
}
