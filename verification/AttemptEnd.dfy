/**
 One attempt from its first expiry request to its last write: the supervisor's verdict is what the
 settlement starts from, and the writes of both stand in one log.
 */
module AttemptEnd {
  import opened Prelude
  import Settlement
  import Supervisor

  function AnswerOf(status: Supervisor.Status): Settlement.Answer {
    match status
    case Accepted => Settlement.Accepted
    case CancelRequested => Settlement.CancelRequested
    case DeadlineExceeded => Settlement.Deadline
    case TimeoutExceeded => Settlement.Timeout
    case Stale => Settlement.Stale
    case NotDue => Settlement.NotDue
  }

  function OwnershipOf(verdict: Supervisor.Verdict): Settlement.Ownership {
    match verdict
    case Verdict(status, settled) => Settlement.Owned(AnswerOf(status), settled)
    case Interrupted => Settlement.Interrupted
  }

  function CauseOf(cause: Option<Supervisor.Cause>): Option<Settlement.Cause> {
    match cause
    case None => None
    case Some(c) => Some(
      match c.kind
      case Cancellation => Settlement.CancellationRequested
      case Deadline => Settlement.DeadlineCause
      case Timeout => Settlement.TimeoutCause
      case LeaseLost => Settlement.LostLease
      case Shutdown => Settlement.OtherCause)
  }

  // ----- The supervisor's writes ---------------------------------------------------------------------------

  /** The write whose answer the supervisor takes in this step, if it takes one. */
  function Observed(s: Supervisor.State, e: Supervisor.Event): seq<Settlement.Write> {
    if !e.TakeAnswer? || !Supervisor.Enabled(s, e) then []
    else [Settlement.Write(Settlement.Expire, if s.request.Answered? then AnswerOf(s.request.status) else Settlement.Broken)]
  }

  function Requests(events: seq<Supervisor.Event>): seq<Settlement.Write> {
    if |events| == 0 then []
    else
      var before := events[..|events| - 1];
      Requests(before) + Observed(Supervisor.Run(Supervisor.Init, before), events[|events| - 1])
  }

  /** The log is settled exactly when the verdict says so, and then by the expiry that the verdict names. */
  predicate Agree(s: Supervisor.State, log: seq<Settlement.Write>) {
    if Supervisor.Settled(s)
    then Settlement.Settled(log) && Settlement.Last(log) == Settlement.Write(Settlement.Expire, AnswerOf(s.verdicts[0].status))
    else Settlement.Open(log)
  }

  /** Only an answer to the supervisor's own request makes a verdict settled. */
  lemma OthersSettleNothing(s: Supervisor.State, e: Supervisor.Event)
    requires Supervisor.Inv(s) && !e.TakeAnswer?
    ensures Supervisor.Settled(Supervisor.Step(s, e)) <==> Supervisor.Settled(s)
    ensures Supervisor.Settled(s) ==> Supervisor.Step(s, e).verdicts == s.verdicts
  {
  }

  lemma AnswerAgrees(s: Supervisor.State, log: seq<Settlement.Write>)
    requires Supervisor.Inv(s) && Agree(s, log) && Supervisor.Enabled(s, Supervisor.TakeAnswer)
    ensures Agree(Supervisor.AnswerTaken(s), log + Observed(s, Supervisor.TakeAnswer))
  {
    var after := log + Observed(s, Supervisor.TakeAnswer);
    assert after[..|after| - 1] == log;
  }

  lemma StepAgrees(s: Supervisor.State, e: Supervisor.Event, log: seq<Settlement.Write>)
    requires Supervisor.Inv(s) && Agree(s, log)
    ensures Agree(Supervisor.Step(s, e), log + Observed(s, e))
  {
    if e.TakeAnswer? && Supervisor.Enabled(s, e) {
      AnswerAgrees(s, log);
    } else {
      assert log + Observed(s, e) == log;
      if !e.TakeAnswer? {
        OthersSettleNothing(s, e);
      }
    }
  }

  lemma {:induction false} RunAgrees(events: seq<Supervisor.Event>)
    ensures Agree(Supervisor.Run(Supervisor.Init, events), Requests(events))
  {
    if |events| > 0 {
      var before := events[..|events| - 1];
      RunAgrees(before);
      Supervisor.RunInv(Supervisor.Init, before);
      StepAgrees(Supervisor.Run(Supervisor.Init, before), events[|events| - 1], Requests(before));
    }
  }

  // ----- From the verdict to the last write ------------------------------------------------------------------

  /** `x` is what the attempt reads once the supervisor has given its verdict. */
  predicate Starts(events: seq<Supervisor.Event>, x: Settlement.Situation) {
    var s := Supervisor.Run(Supervisor.Init, events);
    && |s.verdicts| > 0 && x.ownership == OwnershipOf(s.verdicts[0]) && x.cause == CauseOf(s.cause)
    && (x.stop.0 ==> x.stop.1)
  }

  /** Every verdict of every run of the supervisor gives the settlement a situation that it can start from. */
  lemma VerdictIsConsistent(events: seq<Supervisor.Event>, x: Settlement.Situation)
    requires Starts(events, x)
    ensures Settlement.Consistent(x)
    ensures if x.ownership.Owned? && x.ownership.expirationSettled
            then Settlement.Settled(Requests(events))
                 && Settlement.Last(Requests(events)) == Settlement.Write(Settlement.Expire, x.ownership.status)
            else Settlement.Open(Requests(events))
  {
    RunAgrees(events);
    Supervisor.SettledVerdictIsExpiry(events);
  }

  /** What a verdict against the attempt leads to: the write that it asks for, or the outcome that it names. */
  predicate VerdictDecides(v: Supervisor.Verdict, start: nat, log: seq<Settlement.Write>, outcome: Settlement.Outcome) {
    v.Verdict? ==>
      match v.status
      case CancelRequested => |log| > start && log[start].kind == Settlement.Cancel
      case DeadlineExceeded =>
        if v.settled then outcome == Settlement.DeadlineExceeded else |log| > start && log[start].kind == Settlement.Expire
      case TimeoutExceeded =>
        if v.settled then outcome == Settlement.TimedOut else |log| > start && log[start].kind == Settlement.Expire
      case Stale => |log| == start && outcome == Settlement.LeaseLost
      case NotDue => |log| == start && outcome == Settlement.LeaseLost
      case Accepted => true
  }

  lemma VerdictLeads(
    v: Supervisor.Verdict, x: Settlement.Situation, before: seq<Settlement.Write>, log: seq<Settlement.Write>, outcome: Settlement.Outcome)
    requires x.ownership == OwnershipOf(v) && !x.suspended && Settlement.Continues(before, log, Settlement.FirstWrite(x))
    requires Settlement.OutcomeOk(x, log, outcome) && (Settlement.SaysLost(x) ==> outcome == Settlement.LeaseLost)
    requires v.Verdict? && v.settled ==>
               Settlement.Settled(before) && Settlement.Last(before) == Settlement.Write(Settlement.Expire, x.ownership.status)
    ensures VerdictDecides(v, |before|, log, outcome)
  {
  }

  /**
   Whatever the supervisor went through and whatever PostgreSQL answers, the whole attempt observes at
   most one settling write, and none after it. Without an error there is one, unless the attempt is
   suspended or its lease is lost, and a lost lease is never an error. An expiry that the supervisor saw
   settled is that write. The outcome is what the write says, but for an attempt that sets out to settle
   an expiry, whose outcome is that expiry.
   */
  method EndAttempt(
    events: seq<Supervisor.Event>, x: Settlement.Situation,
    fastTier: bool, answers: nat -> Settlement.Answer, retries: nat -> nat, stops: nat -> bool)
    returns (log: seq<Settlement.Write>, outcome: Settlement.Outcome, error: Settlement.Error)
    requires Starts(events, x)
    ensures Settlement.Continues(Requests(events), log, Settlement.FirstWrite(x))
    ensures Settlement.FullTrail(log, fastTier, |Requests(events)|)
    ensures Settlement.Settlings(log) <= 1
    ensures Settlement.Settlings(log) == 1 ==> |log| > 0 && Settlement.Settles(Settlement.Last(log))
    ensures error == Settlement.NoError || error == Settlement.Stopped || error == Settlement.OtherError
    ensures error == Settlement.Stopped <==> Settlement.EndsWithStop(x)
    ensures error == Settlement.OtherError ==> Settlement.Settlings(log) == 0
    ensures error == Settlement.NoError && Settlement.Settlings(log) == 0 && !x.suspended ==>
              outcome == Settlement.LeaseLost && Settlement.IsLost(x, Requests(events), log)
    ensures Settlement.SaysLost(x) ==> outcome == Settlement.LeaseLost && error == Settlement.NoError
    ensures x.ownership.Owned? && x.suspended ==> outcome == Settlement.Suspended && error == Settlement.NoError
    ensures !(x.ownership.Owned? && x.suspended) ==> Settlement.OutcomeOk(x, log, outcome)
    ensures Supervisor.Settled(Supervisor.Run(Supervisor.Init, events)) ==>
              log == Requests(events) && Settlement.Settlings(log) == 1
    ensures !x.suspended ==> VerdictDecides(Supervisor.Run(Supervisor.Init, events).verdicts[0], |Requests(events)|, log, outcome)
  {
    VerdictIsConsistent(events, x);
    RunAgrees(events);
    var attempt := new Settlement.Attempt(fastTier, answers, retries, stops, Requests(events));
    outcome, error := attempt.Execute(x);
    log := attempt.log;
    Settlement.SettlesOnce(log);
    if !x.suspended {
      VerdictLeads(Supervisor.Run(Supervisor.Init, events).verdicts[0], x, Requests(events), log, outcome);
    }
  }

  /**
   The outcome need not be what the settling write says: whenever the attempt sets out to settle an expiry,
   PostgreSQL can ask for a cancellation instead, and the attempt acknowledges that and reports the expiry.
   In every other situation `EndAttempt` shows that the two agree.
   */
  method ExpiryReportsOtherSettlement(events: seq<Supervisor.Event>, x: Settlement.Situation, fastTier: bool)
    returns (log: seq<Settlement.Write>, outcome: Settlement.Outcome)
    requires Starts(events, x) && Settlement.FirstWrite(x) == Some(Settlement.Expire)
    ensures Requests(events) <= log && Settlement.Settlings(log) == 1
    ensures Settlement.Last(log) == Settlement.Write(Settlement.Cancel, Settlement.Accepted)
    ensures outcome == Settlement.ExpiryOutcome(x) != Settlement.OutcomeOf(Settlement.Last(log))
  {
    VerdictIsConsistent(events, x);
    var start := |Requests(events)|;
    var answers := (k: nat) => if k == start then Settlement.CancelRequested else Settlement.Accepted;
    var attempt := new Settlement.Attempt(fastTier, answers, _ => 0, _ => false, Requests(events));
    var error;
    outcome, error := attempt.Execute(x);
    log := attempt.log;
    Settlement.SettlesOnce(log);
  }
}
