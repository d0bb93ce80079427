/**
 What an attempt reports is what became of its task. `TaskRow` is what PostgreSQL knows of the attempt while it
 settles, and `AnswerTo` how it then answers each write.
 */
module SettlementTruth {
  import opened Prelude
  import opened Settlement

  /**
   `owned`: the row is active under the fence of the attempt. `leased`: its lease has not expired.
   `deadlineFirst` tells which of two passed limits came first, and `moreAttempts` and `delayed` what a
   failure leads to.
   */
  datatype TaskRow = TaskRow(
    owned: bool,
    leased: bool,
    cancelAsked: bool,
    deadlinePassed: bool,
    timeoutPassed: bool,
    deadlineFirst: bool,
    moreAttempts: bool,
    delayed: bool)

  /** The answer to an expiry. The lease need not be alive for it. */
  function ExpireAnswer(r: TaskRow): Answer {
    if !r.owned then Stale
    else if r.cancelAsked then CancelRequested
    else if r.deadlinePassed && (!r.timeoutPassed || r.deadlineFirst) then Deadline
    else if r.timeoutPassed then Timeout
    else NotDue
  }

  function AnswerTo(r: TaskRow, kind: Kind): Answer {
    match kind
    case Complete =>
      if r.owned && r.leased && !r.cancelAsked && !r.deadlinePassed && !r.timeoutPassed then Accepted else Rejected
    case Cancel => if r.owned && r.leased && r.cancelAsked then Accepted else Rejected
    case Expire => ExpireAnswer(r)
    case Fail =>
      if !r.owned || !r.leased then Stale
      else if r.cancelAsked then CancelRequested
      else if r.deadlinePassed || r.timeoutPassed then ExpireAnswer(r)
      else if !r.moreAttempts then Failed
      else if r.delayed then Scheduled
      else Ready
    case Release =>
      if !r.owned || !r.leased then Stale
      else if r.cancelAsked then CancelRequested
      else if r.deadlinePassed || r.timeoutPassed then ExpireAnswer(r)
      else Released
  }

  /** Every answer is the one that the row gives. A batched completion alone may find that its queue left the fast tier. */
  predicate Truthful(log: seq<Write>, from: nat, fast: bool, r: TaskRow) {
    forall i :: from <= i < |log| ==>
      log[i].answer == AnswerTo(r, log[i].kind) || (fast && i == from && log[i] == Write(Complete, WrongTier))
  }

  // ----- What becomes of the task ----------------------------------------------------------------------------

  /** The cancellation or the expiry that settles the attempt, if one can. */
  function Overruled(r: TaskRow): Option<Outcome> {
    if !r.owned then None
    else if r.cancelAsked then (if r.leased then Some(Canceled) else None)
    else if r.deadlinePassed && (!r.timeoutPassed || r.deadlineFirst) then Some(DeadlineExceeded)
    else if r.timeoutPassed then Some(TimedOut)
    else None
  }

  /** The attempt may still settle by itself. */
  predicate Free(r: TaskRow) { r.owned && r.leased && !r.cancelAsked && !r.deadlinePassed && !r.timeoutPassed }

  /** What becomes of the task when the attempt first sends a write of this kind. Without one, the lease is lost. */
  function Fate(r: TaskRow, first: Kind): Option<Outcome> {
    if Free(r) then
      match first
      case Complete => Some(Succeeded)
      case Release => Some(ReleasedOutcome)
      case Fail => Some(if r.moreAttempts then Retry else FailedOutcome)
      case _ => None
    else if first == Cancel then (if r.owned && r.leased && r.cancelAsked then Some(Canceled) else None)
    else Overruled(r)
  }

  /** The last answer settles the attempt just as `fate` says, or tells that the lease is lost. */
  predicate Tells(log: seq<Write>, fate: Option<Outcome>)
    requires |log| > 0
  {
    && (Settles(Last(log)) <==> fate.Some?)
    && (fate.Some? ==> OutcomeOf(Last(log)) == fate.value)
    && (fate.None? ==> TellsLost(Last(log)))
  }

  // ----- The trail finds it ----------------------------------------------------------------------------------

  /** A cancellation that is not followed by an expiry is the last write. */
  lemma CancelEnds(log: seq<Write>, fast: bool, from: nat, r: TaskRow, i: nat)
    requires from <= i < |log| && FullTrail(log, fast, from) && Truthful(log, from, fast, r) && log[i].kind == Cancel
    requires i == from || !Refused(log[i - 1]) || (r.owned && r.leased && r.cancelAsked)
    ensures i == |log| - 1 && Tells(log, if r.owned && r.leased && r.cancelAsked then Some(Canceled) else None)
  {
    assert log[i].answer == AnswerTo(r, Cancel);
    assert Next(log, fast, from, i).None?;
  }

  lemma {:induction false} ExpireEnds(log: seq<Write>, fast: bool, from: nat, r: TaskRow, i: nat)
    requires from <= i < |log| && FullTrail(log, fast, from) && Truthful(log, from, fast, r) && log[i].kind == Expire
    ensures Tells(log, Overruled(r))
    decreases |log| - i
  {
    assert log[i].answer == ExpireAnswer(r);
    if i < |log| - 1 {
      assert Next(log, fast, from, i) == Some(log[i + 1].kind);
      if log[i].answer == NotDue {
        ExpireEnds(log, fast, from, r, i + 1);
      } else {
        CancelEnds(log, fast, from, r, i + 1);
      }
    }
  }

  /** From the first write that is answered for its task, the trail ends where the fate of the task says. */
  lemma TrailTells(log: seq<Write>, fast: bool, from: nat, r: TaskRow, i: nat)
    requires from <= i < |log| && FullTrail(log, fast, from) && Truthful(log, from, fast, r)
    requires log[i].answer == AnswerTo(r, log[i].kind) && (i == from || log[i - 1] == Write(Complete, WrongTier))
    ensures Tells(log, Fate(r, log[i].kind))
  {
    if log[i].kind == Expire {
      ExpireEnds(log, fast, from, r, i);
    } else if log[i].kind == Cancel {
      CancelEnds(log, fast, from, r, i);
    } else if Refused(log[i]) {
      RefusedTells(log, fast, from, r, i);
    } else if i < |log| - 1 {
      assert Next(log, fast, from, i) == Some(log[i + 1].kind);
      CancelEnds(log, fast, from, r, i + 1);
    }
  }

  /** A refused settlement: the cancellation is tried, and then the expiry. */
  lemma RefusedTells(log: seq<Write>, fast: bool, from: nat, r: TaskRow, i: nat)
    requires from <= i < |log| && FullTrail(log, fast, from) && Truthful(log, from, fast, r)
    requires log[i].answer == AnswerTo(r, log[i].kind) && Refused(log[i])
    ensures Tells(log, Overruled(r))
  {
    assert Next(log, fast, from, i) == Some(Cancel);
    assert log[i + 1].kind == Cancel && log[i + 1].answer == AnswerTo(r, Cancel);
    if r.owned && r.leased && r.cancelAsked {
      CancelEnds(log, fast, from, r, i + 1);
    } else {
      assert Next(log, fast, from, i + 1) == Some(Expire);
      ExpireEnds(log, fast, from, r, i + 2);
    }
  }

  /**
   The writes of an attempt end where the fate of its task says: they find the cancellation or the expiry that
   overruled a settlement, whatever was tried first, and take a lease for lost only when nothing can settle it.
   */
  lemma WritesFindFate(log: seq<Write>, fast: bool, from: nat, r: TaskRow)
    requires from < |log| && FullTrail(log, fast, from) && Truthful(log, from, fast, r)
    ensures Tells(log, Fate(r, log[from].kind))
  {
    if log[from].answer == AnswerTo(r, log[from].kind) {
      TrailTells(log, fast, from, r, from);
    } else {
      assert Next(log, fast, from, from) == Some(Complete);
      TrailTells(log, fast, from, r, from + 1);
    }
  }

  /**
   So the attempt settles exactly when its task has such a fate, and its outcome names it, except for an
   expiry that it set out to settle itself. Without one it reports a lost lease, unless the run stops it.
   */
  method ReportFate(attempt: Attempt, x: Situation, ghost r: TaskRow) returns (outcome: Outcome, error: Error)
    requires Consistent(x) && Open(attempt.log) && FirstWrite(x).Some? && !x.suspended
    requires x.ownership.Owned? ==> !x.ownership.expirationSettled
    modifies attempt
    ensures var log, from, fate := attempt.log, |old(attempt.log)|, Fate(r, FirstWrite(x).value);
            Truthful(log, from, attempt.fastTier, r) ==>
              && (Settled(log) <==> fate.Some?)
              && (fate.Some? && FirstWrite(x) != Some(Expire) ==> outcome == fate.value)
              && (fate.Some? && !EndsWithStop(x) ==> error == NoError)
              && (fate.None? && error == NoError ==> outcome == LeaseLost)
  {
    outcome, error := attempt.Execute(x);
    if Truthful(attempt.log, |old(attempt.log)|, attempt.fastTier, r) {
      WritesFindFate(attempt.log, attempt.fastTier, |old(attempt.log)|, r);
    }
  }
}
