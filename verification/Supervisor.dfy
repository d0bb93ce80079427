/**
 The ownership supervisor of one attempt, beside the handler, the heartbeat loop and one request that
 asks PostgreSQL to expire the attempt. `Run` folds any list of events, and a disabled event changes
 nothing. The handler may return, the run may stop, and a heartbeat result may arrive, at any time.
 */
module Supervisor {
  import opened Prelude

  datatype Status = Accepted | CancelRequested | DeadlineExceeded | TimeoutExceeded | Stale | NotDue

  datatype Kind = Cancellation | Deadline | Timeout | LeaseLost | Shutdown

  /** Who cancelled the handler. A stale heartbeat can be the effect of an expiry that PostgreSQL settled. */
  datatype Source = Loop | Watchdog | Heartbeat(byExpiry: bool) | Outside

  datatype Cause = Cause(kind: Kind, source: Source)

  /** `settled` says that PostgreSQL settled the expiry, so that the attempt does not write it again. */
  datatype Verdict = Verdict(status: Status, settled: bool) | Interrupted

  /** A heartbeat result on its way: chosen, then compared with `expiring`, then delivered. */
  datatype Beat =
    | Idle
    | Chosen(status: Status, byExpiry: bool)
    | Loaded(status: Status, byExpiry: bool, cancels: bool)
    | Delivering(status: Status)

  /** The expiry request: sent, settled in PostgreSQL without an answer yet, or answered. */
  datatype Request = NoRequest | Sent | SettledInPg(status: Status) | Failed | Answered(status: Status)

  datatype State = State(
    running: bool,
    handlerRunning: bool,
    asking: bool,
    expiring: bool,
    request: Request,
    expired: bool,
    pending: Option<Status>,
    inbox: Option<Status>,
    beat: Beat,
    verdicts: seq<Verdict>,
    cause: Option<Cause>)

  datatype Event =
    | CancelOutside(kind: Kind)
    | TakeReturn
    | TakeRelease
    | TakeStop
    | TakeResult
    | TakeRenewal(late: bool)
    | WatchdogFires
    | ExpirationFires
    | PgExpires(status: Status)
    | RequestFails
    | RequestAnswers(status: Status)
    | TakeAnswer
    | BeatArrives(status: Status)
    | BeatLoads
    | BeatCancels
    | BeatDelivers

  const Init := State(true, true, false, false, NoRequest, false, None, None, Idle, [], None)

  function CauseOf(status: Status): Kind {
    match status
    case CancelRequested => Cancellation
    case DeadlineExceeded => Deadline
    case TimeoutExceeded => Timeout
    case _ => LeaseLost
  }

  predicate IsExpiry(status: Status) { status == DeadlineExceeded || status == TimeoutExceeded }

  // ----- Steps -----------------------------------------------------------------------------------------

  /** The first cause stays. */
  function Cancel(s: State, kind: Kind, source: Source): State {
    if s.cause.None? then s.(cause := Some(Cause(kind, source))) else s
  }

  function Exit(s: State): State { s.(running := false) }

  function Deliver(s: State, verdict: Verdict): State { s.(verdicts := s.verdicts + [verdict], handlerRunning := false) }

  /** Cancels the handler for `status` and reports it, unless the handler has been acknowledged. */
  function EndWith(s: State, status: Status, settled: bool): State {
    Exit(Deliver(Cancel(s, CauseOf(status), Loop), Verdict(status, settled)))
  }

  function LoseLease(s: State): State {
    if s.handlerRunning then Exit(Deliver(Cancel(s, LeaseLost, Watchdog), Verdict(Stale, false))) else Exit(s)
  }

  function ReturnTaken(s: State): State { Deliver(s, Verdict(Accepted, false)) }

  function StopTaken(s: State): State { if s.handlerRunning then Exit(Deliver(s, Interrupted)) else Exit(s) }

  /** A result that arrives during an expiry request waits for its answer. */
  function ResultTaken(s: State): State {
    var t := s.(inbox := None);
    if s.inbox.None? then s
    else if s.asking then t.(pending := s.inbox)
    else if s.handlerRunning then EndWith(t, s.inbox.value, false)
    else Exit(t)
  }

  function ExpirationTaken(s: State): State {
    if !s.handlerRunning then Exit(s) else s.(expiring := true, asking := true, request := Sent)
  }

  /** An answer that decides the attempt ends it. Any other one lets a waiting heartbeat result decide. */
  function AnswerTaken(s: State): State {
    var t := s.(asking := false, request := NoRequest);
    if s.request.Answered? && s.request.status != NotDue && s.request.status != Accepted
    then EndWith(t, s.request.status, IsExpiry(s.request.status))
    else if s.pending.Some? then EndWith(t.(expiring := false), s.pending.value, false)
    else t.(expiring := false)
  }

  /** While an expiry request runs, a stale status does not cancel the handler. */
  function BeatLoaded(s: State): State {
    if !s.beat.Chosen? then s
    else s.(beat := Loaded(s.beat.status, s.beat.byExpiry, s.beat.status != Stale || !s.expiring))
  }

  function BeatCancelled(s: State): State {
    if !s.beat.Loaded? then s
    else
      var t := s.(beat := Delivering(s.beat.status));
      if s.beat.cancels then Cancel(t, CauseOf(s.beat.status), Heartbeat(s.beat.byExpiry)) else t
  }

  /** A second result for the same attempt is dropped. */
  function BeatDelivered(s: State): State {
    if !s.beat.Delivering? then s
    else s.(beat := Idle, inbox := if s.inbox.None? then Some(s.beat.status) else s.inbox)
  }

  predicate Enabled(s: State, e: Event) {
    match e
    case CancelOutside(_) => true
    case TakeReturn => s.running && s.handlerRunning && !s.asking
    case TakeRelease => s.running && |s.verdicts| > 0
    case TakeStop => s.running
    case TakeResult => s.running && s.inbox.Some?
    case TakeRenewal(_) => s.running
    case WatchdogFires => s.running
    case ExpirationFires => s.running && !s.asking
    case PgExpires(status) => s.request.Sent? && !s.expired && IsExpiry(status)
    case RequestFails => s.request.Sent? || s.request.SettledInPg?
    case RequestAnswers(status) => (s.request.Sent? && !IsExpiry(status)) || s.request == SettledInPg(status)
    case TakeAnswer => s.running && s.asking && (s.request.Failed? || s.request.Answered?)
    case BeatArrives(status) => s.beat.Idle? && status != Accepted
    case BeatLoads => s.beat.Chosen?
    case BeatCancels => s.beat.Loaded?
    case BeatDelivers => s.beat.Delivering?
  }

  function Step(s: State, e: Event): State {
    if !Enabled(s, e) then s
    else
      match e
      case CancelOutside(kind) => Cancel(s, kind, Outside)
      case TakeReturn => ReturnTaken(s)
      case TakeRelease => Exit(s)
      case TakeStop => StopTaken(s)
      case TakeResult => ResultTaken(s)
      case TakeRenewal(late) => if late then LoseLease(s) else s
      case WatchdogFires => LoseLease(s)
      case ExpirationFires => ExpirationTaken(s)
      case PgExpires(status) => s.(request := SettledInPg(status), expired := true)
      case RequestFails => s.(request := Failed)
      case RequestAnswers(status) => s.(request := Answered(status))
      case TakeAnswer => AnswerTaken(s)
      case BeatArrives(status) => s.(beat := Chosen(status, status == Stale && s.expired))
      case BeatLoads => BeatLoaded(s)
      case BeatCancels => BeatCancelled(s)
      case BeatDelivers => BeatDelivered(s)
  }

  function Run(s: State, events: seq<Event>): State {
    if |events| == 0 then s else Step(Run(s, events[..|events| - 1]), events[|events| - 1])
  }

  // ----- The invariant ---------------------------------------------------------------------------------

  /** The request has settled the expiry, and the supervisor can still receive its answer. */
  predicate HoldsExpiry(request: Request) {
    request.SettledInPg? || (request.Answered? && IsExpiry(request.status))
  }

  predicate Settled(s: State) { |s.verdicts| > 0 && s.verdicts[0].Verdict? && s.verdicts[0].settled }

  /** PostgreSQL settled the expiry, and its answer was lost. */
  predicate Lost(s: State) { s.expired && !HoldsExpiry(s.request) && !Settled(s) }

  /** The supervisor has told the attempt that it saw the handler's return while the lease was its own. */
  predicate Acknowledged(s: State) { exists v :: v in s.verdicts && v.Verdict? && v.status == Accepted }

  predicate FlowOk(s: State) {
    && |s.verdicts| == (if s.handlerRunning then 0 else 1)
    && (s.handlerRunning ==> s.running)
    && (s.asking ==> s.expiring && (s.running ==> s.handlerRunning))
    && (s.request != NoRequest ==> s.asking)
    && (s.asking ==> !Acknowledged(s))
  }

  predicate FromSupervisor(cause: Option<Cause>) {
    cause.Some? && (cause.value.source.Loop? || cause.value.source.Watchdog?)
  }

  predicate ExpiryOk(s: State) {
    && (HoldsExpiry(s.request) ==> s.expired && s.expiring && !Settled(s))
    && (s.request.SettledInPg? ==> IsExpiry(s.request.status))
    && (Settled(s) ==> s.expired && s.expiring && !s.running && s.request == NoRequest
                       && IsExpiry(s.verdicts[0].status) && s.cause.Some?
                       && (FromSupervisor(s.cause) ==> s.cause.value == Cause(CauseOf(s.verdicts[0].status), Loop)))
    && (s.running ==> !FromSupervisor(s.cause))
  }

  predicate CauseOk(s: State) {
    && (s.beat.Chosen? && s.beat.byExpiry ==> s.expired && s.beat.status == Stale)
    && (s.beat.Loaded? && s.beat.byExpiry && s.beat.cancels ==> Lost(s))
    && (s.cause.Some? && s.cause.value.source == Heartbeat(true) ==> Lost(s))
  }

  predicate Inv(s: State) { FlowOk(s) && ExpiryOk(s) && CauseOk(s) }

  lemma CancelInv(s: State, kind: Kind)
    requires Inv(s)
    ensures Inv(Cancel(s, kind, Outside))
  {
  }

  lemma ReturnTakenInv(s: State)
    requires Inv(s) && Enabled(s, TakeReturn)
    ensures Inv(ReturnTaken(s))
  {
  }

  lemma ExitInv(s: State)
    requires Inv(s) && Enabled(s, TakeRelease)
    ensures Inv(Exit(s))
  {
  }

  lemma StopTakenInv(s: State)
    requires Inv(s) && Enabled(s, TakeStop)
    ensures Inv(StopTaken(s))
  {
  }

  lemma ResultTakenInv(s: State)
    requires Inv(s) && Enabled(s, TakeResult)
    ensures Inv(ResultTaken(s))
  {
  }

  lemma LoseLeaseInv(s: State)
    requires Inv(s) && s.running
    ensures Inv(LoseLease(s))
  {
  }

  lemma ExpirationTakenInv(s: State)
    requires Inv(s) && Enabled(s, ExpirationFires)
    ensures Inv(ExpirationTaken(s))
  {
  }

  lemma AnswerTakenInv(s: State)
    requires Inv(s) && Enabled(s, TakeAnswer)
    ensures Inv(AnswerTaken(s))
  {
  }

  lemma BeatLoadedInv(s: State)
    requires Inv(s)
    ensures Inv(BeatLoaded(s))
  {
  }

  lemma BeatCancelledInv(s: State)
    requires Inv(s)
    ensures Inv(BeatCancelled(s))
  {
  }

  lemma BeatDeliveredInv(s: State)
    requires Inv(s)
    ensures Inv(BeatDelivered(s))
  {
  }

  lemma StepInv(s: State, e: Event)
    requires Inv(s)
    ensures Inv(Step(s, e))
  {
    if Enabled(s, e) {
      match e {
        case CancelOutside(kind) => CancelInv(s, kind);
        case TakeReturn => ReturnTakenInv(s);
        case TakeRelease => ExitInv(s);
        case TakeStop => StopTakenInv(s);
        case TakeResult => ResultTakenInv(s);
        case TakeRenewal(_) => LoseLeaseInv(s);
        case WatchdogFires => LoseLeaseInv(s);
        case ExpirationFires => ExpirationTakenInv(s);
        case PgExpires(_) =>
        case RequestFails =>
        case RequestAnswers(_) =>
        case TakeAnswer => AnswerTakenInv(s);
        case BeatArrives(_) =>
        case BeatLoads => BeatLoadedInv(s);
        case BeatCancels => BeatCancelledInv(s);
        case BeatDelivers => BeatDeliveredInv(s);
      }
    }
  }

  lemma {:induction false} RunInv(s: State, events: seq<Event>)
    requires Inv(s)
    ensures Inv(Run(s, events))
  {
    if |events| > 0 {
      var before, e := Run(s, events[..|events| - 1]), events[|events| - 1];
      RunInv(s, events[..|events| - 1]);
      StepInv(before, e);
    }
  }

  // ----- The promises ------------------------------------------------------------------------------------

  /**
   A supervisor never gives two verdicts, and one that has ended gave exactly one, so the attempt waits
   for it without end only while the handler runs.
   */
  lemma ExactlyOneVerdict(events: seq<Event>)
    ensures var s := Run(Init, events);
            |s.verdicts| <= 1 && (!s.running ==> |s.verdicts| == 1) && (s.running && s.handlerRunning ==> s.verdicts == [])
  {
    RunInv(Init, events);
  }

  /** Only a settled expiry is reported as settled, and it is a deadline or a timeout. */
  lemma SettledVerdictIsExpiry(events: seq<Event>)
    ensures var s := Run(Init, events); Settled(s) ==> s.expired && IsExpiry(s.verdicts[0].status)
  {
    RunInv(Init, events);
  }

  /**
   An expiry request is in flight only while the return of the handler has not been acknowledged, also
   after the supervisor has ended. A supervisor that runs has given no verdict at all then.
   */
  lemma RequestOnlyWhileHandlerRuns(events: seq<Event>)
    ensures var s := Run(Init, events);
            s.request != NoRequest ==> !Acknowledged(s) && (s.running ==> s.handlerRunning && s.verdicts == [])
  {
    RunInv(Init, events);
  }

  /**
   When the supervisor receives a deadline or a timeout, that becomes the cause, unless another source
   cancelled the handler first. A stale heartbeat that this expiry produced is never that source.
   */
  lemma ExpiryIsTheCause(events: seq<Event>)
    ensures var s := Run(Init, events);
            Settled(s) ==>
              && s.cause.Some?
              && (|| s.cause.value == Cause(CauseOf(s.verdicts[0].status), Loop)
                  || s.cause.value.source == Outside
                  || s.cause.value.source == Heartbeat(false))
  {
    RunInv(Init, events);
  }

  // ----- Which verdict, and from where -------------------------------------------------------------------------

  /** The answer to the expiry request decides the attempt. */
  predicate Decides(request: Request) {
    request.Answered? && request.status != NotDue && request.status != Accepted
  }

  /**
   What makes the supervisor give its verdict: the return of the handler, the stop of the run, the end of the
   local window, a heartbeat result outside an expiry request, the answer that decides the attempt, or the
   heartbeat result that waited for an answer that does not.
   */
  function VerdictOf(s: State, e: Event): Option<Verdict> {
    if !Enabled(s, e) || !s.handlerRunning then None
    else
      match e
      case TakeReturn => Some(Verdict(Accepted, false))
      case TakeStop => Some(Interrupted)
      case WatchdogFires => Some(Verdict(Stale, false))
      case TakeRenewal(late) => if late then Some(Verdict(Stale, false)) else None
      case TakeResult => if s.asking then None else Some(Verdict(s.inbox.value, false))
      case TakeAnswer =>
        if Decides(s.request) then Some(Verdict(s.request.status, IsExpiry(s.request.status)))
        else if s.pending.Some? then Some(Verdict(s.pending.value, false))
        else None
      case _ => None
  }

  lemma AnswerVerdict(s: State)
    requires FlowOk(s) && Enabled(s, TakeAnswer)
    ensures AnswerTaken(s).verdicts
         == s.verdicts + if VerdictOf(s, TakeAnswer).Some? then [VerdictOf(s, TakeAnswer).value] else []
  {
  }

  lemma BeatVerdict(s: State, e: Event)
    requires e.BeatArrives? || e.BeatLoads? || e.BeatCancels? || e.BeatDelivers?
    ensures Step(s, e).verdicts == s.verdicts
  {
  }

  /** A step gives exactly that verdict. */
  lemma VerdictExactly(s: State, e: Event)
    requires FlowOk(s)
    ensures Step(s, e).verdicts == s.verdicts + if VerdictOf(s, e).Some? then [VerdictOf(s, e).value] else []
  {
    if e.TakeAnswer? && Enabled(s, e) {
      AnswerVerdict(s);
    } else if e.BeatArrives? || e.BeatLoads? || e.BeatCancels? || e.BeatDelivers? {
      BeatVerdict(s, e);
    }
  }

  /** A verdict against the attempt cancels its handler for that reason, and ends the supervisor. */
  lemma VerdictNamesCause(s: State, e: Event)
    requires FlowOk(s) && VerdictOf(s, e).Some? && !e.TakeReturn?
    ensures !Step(s, e).running
    ensures !e.TakeStop? ==> Step(s, e).cause.Some?
    ensures !e.TakeStop? && s.cause.None? ==> Step(s, e).cause.value.kind == CauseOf(VerdictOf(s, e).value.status)
    ensures s.cause.Some? ==> Step(s, e).cause == s.cause
  {
  }

  // What each part hands on.

  /** While the handler runs, an expiry that is due is asked for, one request at a time. */
  lemma ExpiryIsAsked(s: State)
    requires Enabled(s, ExpirationFires) && s.handlerRunning
    ensures Step(s, ExpirationFires) == s.(request := Sent, asking := true, expiring := true)
    ensures !Enabled(Step(s, ExpirationFires), ExpirationFires)
  {
  }

  /** A heartbeat result that comes during a request is kept until its answer. */
  lemma ResultWaits(s: State)
    requires Enabled(s, TakeResult) && s.asking
    ensures Step(s, TakeResult) == s.(inbox := None, pending := s.inbox)
  {
  }

  /** An answer that decides nothing ends the request, and stale results cancel the handler again. */
  lemma AnswerEndsRequest(s: State)
    requires Enabled(s, TakeAnswer)
    ensures var t := Step(s, TakeAnswer);
            !t.asking && t.request == NoRequest && (t.expiring <==> s.expiring && Decides(s.request))
  {
  }

  lemma BeatIsLoaded(s: State, status: Status)
    requires s.beat.Idle? && status != Accepted
    ensures Step(Step(s, BeatArrives(status)), BeatLoads)
         == s.(beat := Loaded(status, status == Stale && s.expired, status != Stale || !s.expiring))
  {
    assert Step(s, BeatArrives(status)) == s.(beat := Chosen(status, status == Stale && s.expired));
  }

  lemma BeatIsDelivered(s: State)
    requires s.beat.Loaded?
    ensures Step(Step(s, BeatCancels), BeatDelivers)
         == s.(beat := Idle, inbox := if s.inbox.None? then Some(s.beat.status) else s.inbox,
               cause := if s.cause.None? && s.beat.cancels
                        then Some(Cause(CauseOf(s.beat.status), Heartbeat(s.beat.byExpiry))) else s.cause)
  {
    assert Step(s, BeatCancels) == BeatCancelled(s);
  }

  /**
   A heartbeat result reaches the inbox if that is empty, and cancels the handler on its way, unless it is
   stale while an expiry request runs or the handler has a cause.
   */
  lemma BeatReachesSupervisor(s: State, status: Status)
    requires s.beat.Idle? && status != Accepted
    ensures var t := Step(Step(Step(Step(s, BeatArrives(status)), BeatLoads), BeatCancels), BeatDelivers);
            t == s.(inbox := if s.inbox.None? then Some(status) else s.inbox,
                    cause := if s.cause.Some? || (status == Stale && s.expiring) then s.cause
                             else Some(Cause(CauseOf(status), Heartbeat(status == Stale && s.expired))))
  {
    BeatIsLoaded(s, status);
    BeatIsDelivered(s.(beat := Loaded(status, status == Stale && s.expired, status != Stale || !s.expiring)));
  }

  /** An expiry that PostgreSQL settles for the request is reported as settled; a request that fails lets the attempt go on. */
  lemma RequestIsAnswered(s: State, status: Status)
    requires FlowOk(s) && s.running && s.asking && s.request.Sent? && !s.expired && IsExpiry(status)
    ensures Step(Step(Step(s, PgExpires(status)), RequestAnswers(status)), TakeAnswer).verdicts == s.verdicts + [Verdict(status, true)]
    ensures s.pending.None? ==>
              Step(Step(s, RequestFails), TakeAnswer) == s.(request := NoRequest, asking := false, expiring := false)
  {
    var a := Step(s, PgExpires(status));
    assert a == s.(request := SettledInPg(status), expired := true);
    var b := Step(a, RequestAnswers(status));
    assert b == s.(request := Answered(status), expired := true);
    AnswerVerdict(b);
    assert Step(s, RequestFails) == s.(request := Failed);
  }

  /** The heartbeat loop chose this result at some event, or is about to deliver it. */
  predicate Arrived(events: seq<Event>, status: Status) { BeatArrives(status) in events }

  /** Every result that is on its way, in the inbox or waiting came from the heartbeat loop. */
  predicate FromHeartbeat(s: State, events: seq<Event>) {
    && (s.inbox.Some? ==> Arrived(events, s.inbox.value))
    && (s.pending.Some? ==> Arrived(events, s.pending.value))
    && (!s.beat.Idle? ==> Arrived(events, s.beat.status))
    && (s.request.Answered? ==> RequestAnswers(s.request.status) in events)
  }

  /** Where a verdict can come from. */
  predicate Sourced(v: Verdict, events: seq<Event>) {
    match v
    case Interrupted => TakeStop in events
    case Verdict(status, settled) =>
      if settled then RequestAnswers(status) in events && IsExpiry(status)
      else
        || (status == Accepted && TakeReturn in events)
        || Arrived(events, status)
        || RequestAnswers(status) in events
        || (status == Stale && (WatchdogFires in events || TakeRenewal(true) in events))
  }

  lemma MoreSources(s: State, events: seq<Event>, e: Event)
    requires FromHeartbeat(s, events)
    ensures FromHeartbeat(s, events + [e])
  {
    assert forall x :: x in events ==> x in events + [e];
  }

  /** A result moves from the heartbeat loop to the inbox and from there to the waiting place, unchanged. */
  lemma InboxMoves(s: State, e: Event)
    ensures var t := Step(s, e); t.inbox.Some? && t.inbox != s.inbox ==> s.beat == Delivering(t.inbox.value)
  {
  }

  lemma PendingMoves(s: State, e: Event)
    ensures var t := Step(s, e); t.pending.Some? && t.pending != s.pending ==> t.pending == s.inbox
  {
  }

  predicate Carries(beat: Beat, status: Status) { !beat.Idle? && beat.status == status }

  lemma BeatStays(s: State, e: Event)
    requires !e.BeatArrives? && !e.BeatLoads? && !e.BeatCancels? && !e.BeatDelivers?
    ensures Step(s, e).beat == s.beat
  {
  }

  lemma BeatMoves(s: State, e: Event)
    ensures var t := Step(s, e); !t.beat.Idle? ==> Carries(s.beat, t.beat.status) || e == BeatArrives(t.beat.status)
  {
    if !e.BeatArrives? && !e.BeatLoads? && !e.BeatCancels? && !e.BeatDelivers? {
      BeatStays(s, e);
    }
  }

  lemma RequestMoves(s: State, e: Event)
    ensures var t := Step(s, e); t.request.Answered? ==> t.request == s.request || e == RequestAnswers(t.request.status)
  {
  }

  lemma StepSources(s: State, events: seq<Event>, e: Event)
    requires FromHeartbeat(s, events) && e in events
    ensures FromHeartbeat(Step(s, e), events)
  {
    InboxMoves(s, e);
    PendingMoves(s, e);
    BeatMoves(s, e);
    RequestMoves(s, e);
  }

  lemma VerdictSources(s: State, events: seq<Event>, e: Event)
    requires FlowOk(s) && FromHeartbeat(s, events) && e in events && VerdictOf(s, e).Some?
    ensures Sourced(VerdictOf(s, e).value, events)
  {
  }

  lemma MoreSourced(v: Verdict, events: seq<Event>, e: Event)
    requires Sourced(v, events)
    ensures Sourced(v, events + [e])
  {
    assert forall x :: x in events ==> x in events + [e];
  }

  /** In every run, the status of the verdict is one that arrived: nothing is made up, and nothing is exchanged. */
  lemma {:induction false} VerdictIsSourced(events: seq<Event>)
    ensures FromHeartbeat(Run(Init, events), events)
    ensures forall v :: v in Run(Init, events).verdicts ==> Sourced(v, events)
  {
    if |events| > 0 {
      var front, e := events[..|events| - 1], events[|events| - 1];
      var s := Run(Init, front);
      VerdictIsSourced(front);
      RunInv(Init, front);
      VerdictExactly(s, e);
      assert events == front + [e];
      MoreSources(s, front, e);
      StepSources(s, events, e);
      forall v | v in Run(Init, events).verdicts ensures Sourced(v, events) {
        if v in s.verdicts {
          MoreSourced(v, front, e);
        } else {
          VerdictSources(s, events, e);
        }
      }
    }
  }

  // ----- The supervising loop, in place --------------------------------------------------------------------

  class Loops {
    var running: bool
    var handlerRunning: bool
    var asking: bool
    var expiring: bool
    var request: Request
    var expired: bool
    var pending: Option<Status>
    var inbox: Option<Status>
    var beat: Beat
    var verdicts: seq<Verdict>
    var cause: Option<Cause>

    function View(): State
      reads this
    {
      State(running, handlerRunning, asking, expiring, request, expired, pending, inbox, beat, verdicts, cause)
    }

    constructor ()
      ensures View() == Init && Inv(View())
    {
      running, handlerRunning, asking, expiring, request, expired := true, true, false, false, NoRequest, false;
      pending, inbox, beat, verdicts, cause := None, None, Idle, [], None;
    }

    method CancelHandler(kind: Kind, source: Source)
      modifies `cause
      ensures View() == Cancel(old(View()), kind, source)
    {
      if cause.None? {
        cause := Some(Cause(kind, source));
      }
    }

    method SendVerdict(verdict: Verdict)
      modifies `verdicts, `handlerRunning
      ensures View() == Deliver(old(View()), verdict)
    {
      verdicts := verdicts + [verdict];
      handlerRunning := false;
    }

    method EndAttempt(status: Status, settled: bool)
      modifies this
      ensures View() == EndWith(old(View()), status, settled)
    {
      CancelHandler(CauseOf(status), Loop);
      SendVerdict(Verdict(status, settled));
      running := false;
    }

    method ReceiveResult()
      requires inbox.Some?
      modifies this
      ensures View() == ResultTaken(old(View()))
    {
      var result := inbox.value;
      inbox := None;
      if asking {
        pending := Some(result);
        return;
      }
      if handlerRunning {
        EndAttempt(result, false);
      } else {
        running := false;
      }
    }

    method FireWatchdog()
      modifies this
      ensures View() == LoseLease(old(View()))
    {
      if handlerRunning {
        CancelHandler(LeaseLost, Watchdog);
        SendVerdict(Verdict(Stale, false));
      }
      running := false;
    }

    method StartExpiry()
      modifies this
      ensures View() == ExpirationTaken(old(View()))
    {
      if !handlerRunning {
        running := false;
        return;
      }
      expiring := true;
      asking := true;
      request := Sent;
    }

    method ReceiveAnswer()
      requires request.Failed? || request.Answered?
      modifies this
      ensures View() == AnswerTaken(old(View()))
    {
      var answer := request;
      asking := false;
      request := NoRequest;
      if answer.Answered? && answer.status != NotDue && answer.status != Accepted {
        EndAttempt(answer.status, answer.status == DeadlineExceeded || answer.status == TimeoutExceeded);
        return;
      }
      expiring := false;
      if pending.Some? {
        EndAttempt(pending.value, false);
      }
    }

    /** What the heartbeat loop does with a rejected renewal before it delivers it. */
    method RejectRenewal()
      requires beat.Loaded?
      modifies this
      ensures View() == BeatCancelled(old(View()))
    {
      var status, byExpiry, cancels := beat.status, beat.byExpiry, beat.cancels;
      beat := Delivering(status);
      if cancels {
        CancelHandler(CauseOf(status), Heartbeat(byExpiry));
      }
    }

    /** What PostgreSQL does with the expiry request, and how its answer arrives. */
    method MoveRequest(e: Event)
      requires Enabled(View(), e) && (e.PgExpires? || e.RequestFails? || e.RequestAnswers?)
      modifies `request, `expired
      ensures View() == Step(old(View()), e)
    {
      match e {
        case PgExpires(status) => request, expired := SettledInPg(status), true;
        case RequestFails => request := Failed;
        case RequestAnswers(status) => request := Answered(status);
      }
    }

    /** A heartbeat result on its way to the supervisor. */
    method MoveBeat(e: Event)
      requires Enabled(View(), e) && (e.BeatArrives? || e.BeatLoads? || e.BeatCancels? || e.BeatDelivers?)
      modifies this
      ensures View() == Step(old(View()), e)
    {
      match e {
        case BeatArrives(status) => beat := Chosen(status, status == Stale && expired);
        case BeatLoads => beat := Loaded(beat.status, beat.byExpiry, beat.status != Stale || !expiring);
        case BeatCancels => RejectRenewal();
        case BeatDelivers =>
          inbox := if inbox.None? then Some(beat.status) else inbox;
          beat := Idle;
      }
    }

    /** One case of the select, or one step beside it: the state follows `Step`, and the invariant stays. */
    method TakeStep(e: Event)
      requires Inv(View()) && Enabled(View(), e)
      modifies this
      ensures View() == Step(old(View()), e) && Inv(View())
    {
      StepInv(View(), e);
      match e {
        case CancelOutside(kind) => CancelHandler(kind, Outside);
        case TakeReturn => SendVerdict(Verdict(Accepted, false));
        case TakeRelease => running := false;
        case TakeStop =>
          if handlerRunning {
            SendVerdict(Interrupted);
          }
          running := false;
        case TakeResult => ReceiveResult();
        case TakeRenewal(late) =>
          if late {
            FireWatchdog();
          }
        case WatchdogFires => FireWatchdog();
        case ExpirationFires => StartExpiry();
        case TakeAnswer => ReceiveAnswer();
        case PgExpires(_) => MoveRequest(e);
        case RequestFails => MoveRequest(e);
        case RequestAnswers(_) => MoveRequest(e);
        case _ => MoveBeat(e);
      }
    }
  }
}
