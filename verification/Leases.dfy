/**
 Leases: the local lease window of an attempt against the expiry that PostgreSQL granted.

 Several workers claim tasks, send heartbeat rounds and supervise attempts. PostgreSQL grants a lease
 under a new fence, renews it while it has not expired, also for a round that its worker no longer
 waits for, and recovers it after it expired. It also ends
 a lease before its expiry: at a timeout or deadline of the attempt, and when a settling write of the
 attempt commits, whose answer may be late or lost. Time is one clock that all of them read. `Run`
 folds any list of events; a disabled event changes nothing.
 */
module Leases {
  import opened Prelude

  /**
   How a lease stands: it holds its task, or was recovered after its expiry, or ended at a timeout or
   deadline of the attempt, or ended with a settling write of the attempt.
   */
  datatype Fate = Held | Recovered | TimedOut | Written

  /** What PostgreSQL knows of one fence: its task, the expiry it last granted, and how the lease stands. */
  datatype Lease = Lease(task: nat, expiry: nat, fate: Fate)

  /**
   One attempt as its supervisor sees it. `renewed` is the one-place channel of accepted renewals.
   `open` ends when the supervisor gives the lease up or the attempt settles.
   */
  datatype Attempt = Attempt(worker: nat, leaseEnd: nat, renewed: Option<nat>, registered: bool, open: bool)

  /** A heartbeat round in flight. `accepted` are the members whose lease PostgreSQL renewed in it. */
  datatype Round = Round(sentAt: nat, members: set<nat>, accepted: set<nat>)

  /** A claim that PostgreSQL granted and whose answer has not arrived. */
  datatype Answer = Answer(worker: nat, sentAt: nat)

  datatype State = State(
    now: nat,
    duration: nat,
    claims: seq<Answer>,            // claim statements on their way
    answers: map<nat, Answer>,      // by fence
    leases: map<nat, Lease>,        // by fence
    attempts: map<nat, Attempt>,    // by fence
    rounds: map<nat, Round>,        // by worker, at most one each
    abandoned: set<nat>)            // the members of rounds that failed, by fence

  datatype Event =
    | Tick(passed: nat)
    | SendClaim(worker: nat)
    | GrantClaim(claim: nat, task: nat, fence: nat)
    | StartAttempt(fence: nat)
    | StartRound(worker: nat)
    | RenewLease(worker: nat, fence: nat)
    | FailRound(worker: nat)
    | RenewLate(fence: nat)
    | ReturnRound(worker: nat)
    | TakeRenewal(fence: nat)
    | Watchdog(fence: nat)
    | Unregister(fence: nat)
    | GiveUp(fence: nat)
    | Write(fence: nat)
    | AnswerWrite(fence: nat)
    | TimeOut(fence: nat)
    | Recover(fence: nat)

  function Init(duration: nat): State { State(0, duration, [], map[], map[], map[], map[], {}) }

  /** PostgreSQL lets only this fence act on its task. */
  predicate Owns(s: State, f: nat) { f in s.leases && s.leases[f].fate.Held? }

  predicate TaskIsFree(s: State, task: nat) {
    forall f :: f in s.leases && Owns(s, f) ==> s.leases[f].task != task
  }

  /** The members a round sends: the attempts of its worker that are registered now. */
  function Registered(s: State, worker: nat): set<nat> {
    set f | f in s.attempts && s.attempts[f].worker == worker && s.attempts[f].registered
  }

  /** A renewal is dropped while the supervisor has not taken the last one. */
  function Renewed(a: Attempt, sentAt: nat): Attempt {
    if a.renewed.None? then a.(renewed := Some(sentAt)) else a
  }

  /** At or past `leaseEnd` the attempt closes and leaves the registry; before it, `leaseEnd` moves on. */
  function Taken(a: Attempt, now: nat, duration: nat): Attempt
    requires a.renewed.Some?
  {
    if now >= a.leaseEnd then a.(renewed := None, registered := false, open := false)
    else a.(renewed := None, leaseEnd := a.renewed.value + duration)
  }

  predicate Enabled(s: State, e: Event) {
    match e
    case Tick(_) => true
    case SendClaim(_) => true
    case GrantClaim(i, task, fence) => i < |s.claims| && fence !in s.leases && TaskIsFree(s, task)
    case StartAttempt(f) => f in s.answers && f !in s.attempts
    case StartRound(w) => w !in s.rounds
    case RenewLease(w, f) =>
      w in s.rounds && f in s.rounds[w].members && Owns(s, f) && s.now < s.leases[f].expiry
    case FailRound(w) => w in s.rounds
    case RenewLate(f) => f in s.abandoned && Owns(s, f) && s.now < s.leases[f].expiry
    case ReturnRound(w) => w in s.rounds
    case TakeRenewal(f) => f in s.attempts && s.attempts[f].open && s.attempts[f].renewed.Some?
    case Watchdog(f) => f in s.attempts && s.attempts[f].open && s.now >= s.attempts[f].leaseEnd
    case Unregister(f) => f in s.attempts
    case GiveUp(f) => f in s.attempts
    case Write(f) => f in s.attempts && Owns(s, f)
    case AnswerWrite(f) => f in s.attempts && f in s.leases && s.leases[f].fate.Written?
    case TimeOut(f) => Owns(s, f)
    case Recover(f) => Owns(s, f) && s.now >= s.leases[f].expiry
  }

  function Step(s: State, e: Event): State {
    if !Enabled(s, e) then s
    else
      match e
      case Tick(passed) => s.(now := s.now + passed)
      case SendClaim(w) => s.(claims := s.claims + [Answer(w, s.now)])
      case GrantClaim(i, task, f) =>
        s.(claims := s.claims[..i] + s.claims[i + 1..],
           leases := s.leases[f := Lease(task, s.now + s.duration, Held)],
           answers := s.answers[f := s.claims[i]])
      case StartAttempt(f) =>
        s.(answers := s.answers - {f},
           attempts := s.attempts[f := Attempt(s.answers[f].worker,
                                               s.answers[f].sentAt + s.duration, None, true, true)])
      case StartRound(w) => s.(rounds := s.rounds[w := Round(s.now, Registered(s, w), {})])
      case RenewLease(w, f) =>
        s.(leases := s.leases[f := s.leases[f].(expiry := s.now + s.duration)],
           rounds := s.rounds[w := s.rounds[w].(accepted := s.rounds[w].accepted + {f})])
      case FailRound(w) => s.(rounds := s.rounds - {w}, abandoned := s.abandoned + s.rounds[w].members)
      case RenewLate(f) => s.(leases := s.leases[f := s.leases[f].(expiry := s.now + s.duration)])
      case ReturnRound(w) =>
        s.(rounds := s.rounds - {w},
           attempts := map f | f in s.attempts ::
             if f in s.rounds[w].accepted && s.attempts[f].registered then Renewed(s.attempts[f], s.rounds[w].sentAt)
             else s.attempts[f])
      case TakeRenewal(f) => s.(attempts := s.attempts[f := Taken(s.attempts[f], s.now, s.duration)])
      case Watchdog(f) => s.(attempts := s.attempts[f := s.attempts[f].(registered := false, open := false)])
      case Unregister(f) => s.(attempts := s.attempts[f := s.attempts[f].(registered := false)])
      case GiveUp(f) => s.(attempts := s.attempts[f := s.attempts[f].(registered := false, open := false)])
      case Write(f) => s.(leases := s.leases[f := s.leases[f].(fate := Written)])
      case AnswerWrite(f) => s.(attempts := s.attempts[f := s.attempts[f].(registered := false, open := false)])
      case TimeOut(f) => s.(leases := s.leases[f := s.leases[f].(fate := TimedOut)])
      case Recover(f) => s.(leases := s.leases[f := s.leases[f].(fate := Recovered)])
  }

  function Run(s: State, events: seq<Event>): State {
    if |events| == 0 then s else Step(Run(s, events[..|events| - 1]), events[|events| - 1])
  }

  /** The attempt may still act: its supervisor has not given it up and its window has not ended. */
  predicate WindowOpen(s: State, f: nat) {
    f in s.attempts && s.attempts[f].open && s.now < s.attempts[f].leaseEnd
  }

  // ----- The invariant ---------------------------------------------------------------------------

  /** What was sent at `sentAt` cannot outlast what PostgreSQL granted under `f`. */
  predicate Covered(s: State, f: nat, sentAt: nat) {
    f in s.leases && sentAt <= s.now && sentAt + s.duration <= s.leases[f].expiry
  }

  predicate EndOk(s: State, f: nat)
    requires f in s.attempts
  {
    var a := s.attempts[f];
    && f in s.leases
    && a.leaseEnd <= s.now + s.duration
    && a.leaseEnd <= s.leases[f].expiry
    && (a.renewed.Some? ==> Covered(s, f, a.renewed.value) && a.leaseEnd <= a.renewed.value + s.duration)
  }

  predicate RoundOk(s: State, w: nat)
    requires w in s.rounds
  {
    var r := s.rounds[w];
    && r.sentAt <= s.now
    && (forall f :: f in r.accepted ==> f in r.members && Covered(s, f, r.sentAt))
    && (forall f :: f in r.members ==>
          && f in s.attempts && s.attempts[f].worker == w
          && s.attempts[f].leaseEnd <= r.sentAt + s.duration
          && (s.attempts[f].renewed.Some? ==> s.attempts[f].renewed.value <= r.sentAt))
  }

  /** Only a lease whose last grant has expired was recovered. */
  predicate LeaseOk(s: State, f: nat)
    requires f in s.leases
  {
    s.leases[f].expiry <= s.now + s.duration && (s.leases[f].fate.Recovered? ==> s.now >= s.leases[f].expiry)
  }

  predicate AnswersOk(s: State) {
    && (forall i :: 0 <= i < |s.claims| ==> s.claims[i].sentAt <= s.now)
    && (forall f :: f in s.answers ==> Covered(s, f, s.answers[f].sentAt) && f !in s.attempts)
  }

  /** No two fences hold one task. */
  predicate OwnersOk(s: State) {
    forall f, g :: f in s.leases && g in s.leases && Owns(s, f) && Owns(s, g) && s.leases[f].task == s.leases[g].task ==> f == g
  }

  ghost predicate Inv(s: State) {
    && AnswersOk(s)
    && OwnersOk(s)
    && (forall f :: f in s.leases ==> LeaseOk(s, f))
    && (forall f :: f in s.attempts ==> EndOk(s, f))
    && (forall w :: w in s.rounds ==> RoundOk(s, w))
  }

  // ----- Every step keeps the invariant ----------------------------------------------------------

  lemma StepEnd(s: State, e: Event, f: nat)
    requires Enabled(s, e) && f in Step(s, e).attempts
    requires f in s.attempts ==> EndOk(s, f)
    requires f in s.answers ==> Covered(s, f, s.answers[f].sentAt)
    requires e.ReturnRound? ==> RoundOk(s, e.worker)
    ensures EndOk(Step(s, e), f)
  {
  }

  lemma StepMember(s: State, e: Event, w: nat, f: nat)
    requires Enabled(s, e) && w in Step(s, e).rounds && f in Step(s, e).rounds[w].members
    requires w in s.rounds ==> RoundOk(s, w)
    requires e.ReturnRound? ==> RoundOk(s, e.worker)
    requires f in s.attempts ==> EndOk(s, f)
    ensures var t := Step(s, e);
            && f in t.attempts && t.attempts[f].worker == w
            && t.attempts[f].leaseEnd <= t.rounds[w].sentAt + t.duration
            && (t.attempts[f].renewed.Some? ==> t.attempts[f].renewed.value <= t.rounds[w].sentAt)
  {
  }

  lemma StepAccepted(s: State, e: Event, w: nat, f: nat)
    requires Enabled(s, e) && w in Step(s, e).rounds && f in Step(s, e).rounds[w].accepted
    requires w in s.rounds ==> RoundOk(s, w)
    requires f in s.leases ==> LeaseOk(s, f)
    ensures var t := Step(s, e); f in t.rounds[w].members && Covered(t, f, t.rounds[w].sentAt)
  {
  }

  lemma StepRound(s: State, e: Event, w: nat)
    requires Inv(s) && Enabled(s, e) && w in Step(s, e).rounds
    ensures RoundOk(Step(s, e), w)
  {
    var t := Step(s, e);
    forall f | f in t.rounds[w].members
      ensures f in t.attempts && t.attempts[f].worker == w
              && t.attempts[f].leaseEnd <= t.rounds[w].sentAt + t.duration
              && (t.attempts[f].renewed.Some? ==> t.attempts[f].renewed.value <= t.rounds[w].sentAt)
    {
      StepMember(s, e, w, f);
    }
    forall f | f in t.rounds[w].accepted ensures f in t.rounds[w].members && Covered(t, f, t.rounds[w].sentAt) {
      StepAccepted(s, e, w, f);
    }
    assert w in s.rounds ==> RoundOk(s, w);
  }

  lemma StepLease(s: State, e: Event, f: nat)
    requires Enabled(s, e) && f in Step(s, e).leases && (f in s.leases ==> LeaseOk(s, f))
    ensures LeaseOk(Step(s, e), f)
  {
  }

  lemma StepOwners(s: State, e: Event)
    requires OwnersOk(s) && Enabled(s, e)
    ensures OwnersOk(Step(s, e))
  {
    var t := Step(s, e);
    forall f, g | f in t.leases && g in t.leases && Owns(t, f) && Owns(t, g) && t.leases[f].task == t.leases[g].task
      ensures f == g
    {
      assert Owns(s, f) || (e.GrantClaim? && f == e.fence);
      assert Owns(s, g) || (e.GrantClaim? && g == e.fence);
    }
  }

  lemma StepAnswers(s: State, e: Event)
    requires AnswersOk(s) && Enabled(s, e)
    requires forall f :: f in s.attempts ==> f in s.leases
    requires forall f :: f in s.leases ==> LeaseOk(s, f)
    ensures AnswersOk(Step(s, e))
  {
  }

  lemma StepInv(s: State, e: Event)
    requires Inv(s)
    ensures Inv(Step(s, e))
  {
    if Enabled(s, e) {
      forall f | f in Step(s, e).attempts ensures EndOk(Step(s, e), f) {
        StepEnd(s, e, f);
      }
      forall w | w in Step(s, e).rounds ensures RoundOk(Step(s, e), w) {
        StepRound(s, e, w);
      }
      forall f | f in Step(s, e).leases ensures LeaseOk(Step(s, e), f) {
        StepLease(s, e, f);
      }
      StepOwners(s, e);
      assert forall f :: f in s.attempts ==> EndOk(s, f);
      StepAnswers(s, e);
    }
  }

  lemma {:induction false} RunInv(s: State, events: seq<Event>)
    requires Inv(s)
    ensures Inv(Run(s, events))
  {
    if |events| > 0 {
      RunInv(s, events[..|events| - 1]);
      StepInv(Run(s, events[..|events| - 1]), events[|events| - 1]);
    }
  }

  // ----- The promises ----------------------------------------------------------------------------

  /**
   In every run, no attempt's local window outlasts the expiry that PostgreSQL last granted to its
   fence; the same holds for an answer that has not arrived. So recovery of an expired lease finds
   the window of its attempt ended.
   */
  lemma LocalWindowWithinGrant(duration: nat, events: seq<Event>)
    ensures var s := Run(Init(duration), events);
            && (forall f :: f in s.attempts ==> f in s.leases && s.attempts[f].leaseEnd <= s.leases[f].expiry)
            && (forall f :: f in s.answers ==> f in s.leases && s.answers[f].sentAt + duration <= s.leases[f].expiry)
            && (forall f :: Enabled(s, Recover(f)) ==> !WindowOpen(s, f))
  {
    var s := Run(Init(duration), events);
    RunInv(Init(duration), events);
    DurationStays(Init(duration), events);
    assert forall f :: f in s.attempts ==> EndOk(s, f);
  }

  /** Nothing but a timeout, a deadline or its own unanswered write takes the fence from an open window. */
  lemma OpenWindowLosesFenceExactly(duration: nat, events: seq<Event>, f: nat)
    requires WindowOpen(Run(Init(duration), events), f)
    ensures var s := Run(Init(duration), events);
            f in s.leases && (!Owns(s, f) <==> s.leases[f].fate.TimedOut? || s.leases[f].fate.Written?)
  {
    var s := Run(Init(duration), events);
    RunInv(Init(duration), events);
    assert EndOk(s, f);
    assert LeaseOk(s, f);
  }

  lemma {:induction false} DurationStays(s: State, events: seq<Event>)
    ensures Run(s, events).duration == s.duration
  {
    if |events| > 0 {
      DurationStays(s, events[..|events| - 1]);
    }
  }

  lemma StepKeepsClosed(s: State, e: Event, f: nat)
    requires f in s.attempts && !WindowOpen(s, f)
    ensures f in Step(s, e).attempts && !WindowOpen(Step(s, e), f)
  {
  }

  /** However a run goes on, a window that has closed never opens again. */
  lemma {:induction false} ClosedWindowStaysClosed(s: State, events: seq<Event>, f: nat)
    requires f in s.attempts && !WindowOpen(s, f)
    ensures f in Run(s, events).attempts && !WindowOpen(Run(s, events), f)
  {
    if |events| > 0 {
      ClosedWindowStaysClosed(s, events[..|events| - 1], f);
      StepKeepsClosed(Run(s, events[..|events| - 1]), events[|events| - 1], f);
    }
  }

  lemma StepKeepsLeaseEnd(s: State, e: Event, f: nat)
    requires f in s.attempts && EndOk(s, f)
    ensures f in Step(s, e).attempts && s.attempts[f].leaseEnd <= Step(s, e).attempts[f].leaseEnd
  {
  }

  /** However a run goes on, the local end of a lease never moves back. */
  lemma {:induction false} LeaseEndNeverMovesBack(s: State, events: seq<Event>, f: nat)
    requires Inv(s) && f in s.attempts
    ensures f in Run(s, events).attempts && s.attempts[f].leaseEnd <= Run(s, events).attempts[f].leaseEnd
  {
    if |events| > 0 {
      LeaseEndNeverMovesBack(s, events[..|events| - 1], f);
      RunInv(s, events[..|events| - 1]);
      StepKeepsLeaseEnd(Run(s, events[..|events| - 1]), events[|events| - 1], f);
    }
  }

  // ----- The ends of a window, of a round and of a lease ---------------------------------------------

  /** An open attempt can be ended exactly from the end of its window on, by the watchdog or by a renewal that comes too late. */
  lemma WindowEndsOnTime(s: State, f: nat)
    requires f in s.attempts && s.attempts[f].open
    ensures Enabled(s, Watchdog(f)) <==> s.now >= s.attempts[f].leaseEnd
    ensures Enabled(s, Watchdog(f)) ==> Left(Step(s, Watchdog(f)), f)
    ensures Enabled(s, Watchdog(f)) && s.attempts[f].renewed.Some? ==> Left(Step(s, TakeRenewal(f)), f)
  {
  }

  /** The supervisor has given the attempt up, and the heartbeat loop no longer knows it. */
  predicate Left(s: State, f: nat) { f in s.attempts && !s.attempts[f].open && !s.attempts[f].registered }

  /** An attempt that gives up, or whose write is answered, leaves; one that unregisters keeps its window. */
  lemma AttemptLeaves(s: State, f: nat)
    requires f in s.attempts
    ensures Left(Step(s, GiveUp(f)), f)
    ensures Enabled(s, AnswerWrite(f)) ==> Left(Step(s, AnswerWrite(f)), f)
    ensures var t := Step(s, Unregister(f)); f in t.attempts && t.attempts[f] == s.attempts[f].(registered := false)
  {
  }

  predicate Unregistered(s: State, f: nat) { f in s.attempts && !s.attempts[f].registered }

  lemma StepKeepsUnregistered(s: State, e: Event, f: nat)
    requires Unregistered(s, f)
    ensures Unregistered(Step(s, e), f)
  {
  }

  /** A round names exactly the attempts of its worker that are registered when it starts, so it names no attempt that left before. */
  lemma {:induction false} RoundNamesRegistered(s: State, events: seq<Event>, w: nat, f: nat)
    requires Enabled(Run(s, events), StartRound(w))
    ensures var t := Run(s, events);
            var round := Step(t, StartRound(w)).rounds[w];
            && round.sentAt == t.now && round.accepted == {}
            && (f in round.members <==> f in t.attempts && t.attempts[f].worker == w && t.attempts[f].registered)
            && (Unregistered(s, f) ==> f !in round.members)
  {
    if Unregistered(s, f) {
      StaysUnregistered(s, events, f);
    }
  }

  lemma {:induction false} StaysUnregistered(s: State, events: seq<Event>, f: nat)
    requires Unregistered(s, f)
    ensures Unregistered(Run(s, events), f)
  {
    if |events| > 0 {
      StaysUnregistered(s, events[..|events| - 1], f);
      StepKeepsUnregistered(Run(s, events[..|events| - 1]), events[|events| - 1], f);
    }
  }

  /** A round that returned or failed lets its worker start the next one. */
  lemma RoundMakesRoom(s: State, e: Event)
    requires Enabled(s, e) && (e.ReturnRound? || e.FailRound?)
    ensures Enabled(Step(s, e), StartRound(e.worker))
  {
  }

  /** A lease that was recovered, timed out or settled leaves its task to the next claim. */
  lemma EndedLeaseFreesTask(s: State, e: Event)
    requires Inv(s) && Enabled(s, e) && (e.Recover? || e.TimeOut? || e.Write?)
    ensures !Owns(Step(s, e), e.fence) && TaskIsFree(Step(s, e), s.leases[e.fence].task)
  {
    var t := Step(s, e);
    forall f | f in t.leases && Owns(t, f) ensures t.leases[f].task != s.leases[e.fence].task {
      assert Owns(s, f) && Owns(s, e.fence) && f != e.fence;
    }
  }

  /** A renewal runs for a whole lease from when PostgreSQL accepts it, also if the worker no longer waits for it. */
  lemma RenewalExtends(s: State, e: Event)
    requires Enabled(s, e) && (e.RenewLease? || e.RenewLate?)
    ensures e.fence in Step(s, e).leases && Step(s, e).leases[e.fence] == s.leases[e.fence].(expiry := s.now + s.duration)
    ensures e.RenewLate? ==> Step(s, e).attempts == s.attempts && Step(s, e).rounds == s.rounds
  {
  }

  // ----- A renewal reaches its supervisor ------------------------------------------------------------

  /** The round of `w` is neither answered nor given up. */
  predicate RoundStays(events: seq<Event>, w: nat) {
    forall i :: 0 <= i < |events| ==> events[i] != ReturnRound(w) && events[i] != FailRound(w)
  }

  lemma {:induction false} RoundFlies(s: State, events: seq<Event>, w: nat)
    requires w in s.rounds && RoundStays(events, w)
    ensures var t := Run(s, events);
            w in t.rounds && t.rounds[w].sentAt == s.rounds[w].sentAt && s.rounds[w].accepted <= t.rounds[w].accepted
  {
    if |events| > 0 {
      RoundFlies(s, events[..|events| - 1], w);
    }
  }

  lemma StepKeepsSlot(s: State, e: Event, f: nat)
    requires f in s.attempts && s.attempts[f].renewed.Some? && e != TakeRenewal(f)
    ensures f in Step(s, e).attempts && Step(s, e).attempts[f].renewed == s.attempts[f].renewed
  {
  }

  /** Without a turn of the supervisor, the slot keeps what it holds. */
  lemma {:induction false} SlotKeeps(s: State, events: seq<Event>, f: nat)
    requires f in s.attempts && s.attempts[f].renewed.Some? && TakeRenewal(f) !in events
    ensures f in Run(s, events).attempts && Run(s, events).attempts[f].renewed == s.attempts[f].renewed
  {
    if |events| > 0 {
      SlotKeeps(s, events[..|events| - 1], f);
      StepKeepsSlot(Run(s, events[..|events| - 1]), events[|events| - 1], f);
    }
  }

  /** What PostgreSQL accepts in a round that a worker sent at `at` is in the slot once the round is answered. */
  lemma {:induction false} AcceptedRenewalIsReported(s: State, w: nat, f: nat, flight: seq<Event>, rest: seq<Event>)
    requires w !in s.rounds && RoundStays(flight, w) && RoundStays(rest, w)
    requires var sent := Run(Step(s, StartRound(w)), flight); Enabled(sent, RenewLease(w, f))
    ensures var sent := Run(Step(s, StartRound(w)), flight);
            var before := Run(Step(sent, RenewLease(w, f)), rest);
            f in before.attempts && before.attempts[f].registered ==>
              && Enabled(before, ReturnRound(w))
              && var after := Step(before, ReturnRound(w));
                 && f in after.attempts && after.attempts[f].registered
                 && after.attempts[f].leaseEnd == before.attempts[f].leaseEnd
                 && after.attempts[f].renewed == if before.attempts[f].renewed.None? then Some(s.now) else before.attempts[f].renewed
  {
    var started := Step(s, StartRound(w));
    RoundFlies(started, flight, w);
    var sent := Run(started, flight);
    RoundFlies(Step(sent, RenewLease(w, f)), rest, w);
  }

  /**
   Once the slot of an open attempt holds `at`, the supervisor's next turn inside the window ends the lease
   at `at + duration`, and until then the watchdog leaves the attempt alone, however the run goes on.
   */
  lemma {:induction false} ReportedRenewalMovesWindow(s: State, f: nat, at: nat, wait: seq<Event>, later: seq<Event>)
    requires Inv(s) && f in s.attempts && s.attempts[f].renewed == Some(at) && TakeRenewal(f) !in wait
    requires WindowOpen(Run(s, wait), f)
    ensures var t := Step(Run(s, wait), TakeRenewal(f));
            && f in t.attempts && t.attempts[f].leaseEnd == at + s.duration && t.attempts[f].open
            && t.attempts[f].renewed.None?
            && (Run(t, later).now < at + s.duration ==> !Enabled(Run(t, later), Watchdog(f)))
  {
    SlotKeeps(s, wait, f);
    DurationStays(s, wait);
    RunInv(s, wait);
    var t := Step(Run(s, wait), TakeRenewal(f));
    StepInv(Run(s, wait), TakeRenewal(f));
    LeaseEndNeverMovesBack(t, later, f);
  }

  // ----- Two windows of one task --------------------------------------------------------------------

  /** Two attempts of one task may both still act. */
  predicate Overlap(s: State, f: nat, g: nat) {
    f != g && WindowOpen(s, f) && WindowOpen(s, g) && f in s.leases && g in s.leases && s.leases[f].task == s.leases[g].task
  }

  predicate LostFence(s: State, f: nat) { f in s.leases && (s.leases[f].fate.TimedOut? || s.leases[f].fate.Written?) }

  /** In every run, of two open windows of one task one has lost its fence before its expiry. */
  lemma OverlapNeedsLostFence(duration: nat, events: seq<Event>, f: nat, g: nat)
    requires Overlap(Run(Init(duration), events), f, g)
    ensures LostFence(Run(Init(duration), events), f) || LostFence(Run(Init(duration), events), g)
  {
    OpenWindowLosesFenceExactly(duration, events, f);
    OpenWindowLosesFenceExactly(duration, events, g);
    RunInv(Init(duration), events);
  }

  lemma {:induction false} RunAppend(s: State, events: seq<Event>, e: Event)
    ensures Run(s, events + [e]) == Step(Run(s, events), e)
  {
    assert (events + [e])[..|events|] == events;
  }

  /** The claim of fence `f` by worker `w`, all at the present instant. */
  function Claimed(s: State, w: nat, f: nat): State {
    s.(leases := s.leases[f := Lease(0, s.now + s.duration, Held)],
       attempts := s.attempts[f := Attempt(w, s.now + s.duration, None, true, true)])
  }

  lemma {:induction false} ClaimRun(s: State, w: nat, f: nat, events: seq<Event>) returns (longer: seq<Event>)
    requires Run(Init(s.duration), events) == s
    requires s.claims == [] && s.answers == map[] && f !in s.leases && f !in s.attempts && TaskIsFree(s, 0)
    ensures Run(Init(s.duration), longer) == Claimed(s, w, f)
  {
    var sent := s.(claims := [Answer(w, s.now)]);
    assert Step(s, SendClaim(w)) == sent;
    RunAppend(Init(s.duration), events, SendClaim(w));
    longer := events + [SendClaim(w)];
    var granted := s.(leases := s.leases[f := Lease(0, s.now + s.duration, Held)], answers := map[f := Answer(w, s.now)]);
    assert sent.claims[..0] + sent.claims[1..] == [];
    assert Enabled(sent, GrantClaim(0, 0, f));
    assert Step(sent, GrantClaim(0, 0, f)) == granted;
    RunAppend(Init(s.duration), longer, GrantClaim(0, 0, f));
    longer := longer + [GrantClaim(0, 0, f)];
    assert granted.answers - {f} == map[];
    assert Step(granted, StartAttempt(f)) == Claimed(s, w, f);
    RunAppend(Init(s.duration), longer, StartAttempt(f));
    longer := longer + [StartAttempt(f)];
  }

  /** A task is claimed, its lease ends with `end` before its expiry, and another worker claims the task. */
  lemma {:induction false} OverlapRun(duration: nat, end: Event) returns (events: seq<Event>)
    requires duration > 0 && (end == TimeOut(1) || end == Write(1))
    ensures var s := Run(Init(duration), events);
            Overlap(s, 1, 2) && Owns(s, 2) && s.leases[1].fate == if end.TimeOut? then TimedOut else Written
  {
    assert Run(Init(duration), []) == Init(duration);
    events := ClaimRun(Init(duration), 0, 1, []);
    var first := Claimed(Init(duration), 0, 1);
    var ended := Step(first, end);
    RunAppend(Init(duration), events, end);
    events := events + [end];
    events := ClaimRun(ended, 1, 2, events);
  }

  /** What is left of `Overlap` when `g` holds the task: how the other lease stands. */
  predicate OverlapsHolder(duration: nat, events: seq<Event>, f: nat, g: nat, fate: Fate) {
    var s := Run(Init(duration), events);
    Overlap(s, f, g) && Owns(s, g) && s.leases[f].fate == fate
  }

  /**
   A run in which an attempt with an open window stands beside the holder of its task exists exactly
   when a lease has a duration and ended at a timeout or deadline, or with a write not yet answered.
   */
  lemma {:induction false} OverlapExactly(duration: nat, fate: Fate)
    ensures (exists events, f, g :: OverlapsHolder(duration, events, f, g, fate))
       <==> duration > 0 && (fate.TimedOut? || fate.Written?)
  {
    if events, f, g :| OverlapsHolder(duration, events, f, g, fate) {
      OverlapNeedsLostFence(duration, events, f, g);
      var s := Run(Init(duration), events);
      RunInv(Init(duration), events);
      DurationStays(Init(duration), events);
      assert EndOk(s, f);
    }
    if duration > 0 && (fate.TimedOut? || fate.Written?) {
      var events := OverlapRun(duration, if fate.TimedOut? then TimeOut(1) else Write(1));
      assert OverlapsHolder(duration, events, 1, 2, fate);
    }
  }

  /** Whether the step starts an attempt inside its window while another attempt of the task is inside its own. */
  predicate StartsOverlap(s: State, e: Event) {
    && e.StartAttempt? && Enabled(s, e) && e.fence in s.leases && s.now < s.answers[e.fence].sentAt + s.duration
    && exists f :: f in s.attempts && f in s.leases && WindowOpen(s, f) && s.leases[f].task == s.leases[e.fence].task
  }

  lemma StartedOverlaps(s: State, e: Event, f: nat)
    requires Inv(s) && e.StartAttempt? && Enabled(s, e) && e.fence in s.leases
    requires s.now < s.answers[e.fence].sentAt + s.duration
    requires f in s.leases && WindowOpen(s, f) && s.leases[f].task == s.leases[e.fence].task
    ensures Overlap(Step(s, e), f, e.fence)
  {
  }

  lemma WasOpen(s: State, e: Event, f: nat)
    requires f in s.attempts && EndOk(s, f) && WindowOpen(Step(s, e), f) && f in Step(s, e).leases
    ensures WindowOpen(s, f) && f in s.leases && s.leases[f].task == Step(s, e).leases[f].task
  {
    if !WindowOpen(s, f) {
      StepKeepsClosed(s, e, f);
    }
  }

  lemma StepOverlaps(s: State, e: Event, f: nat, g: nat)
    requires Inv(s) && Overlap(Step(s, e), f, g) && !Overlap(s, f, g)
    ensures StartsOverlap(s, e)
  {
    if f in s.attempts {
      WasOpen(s, e, f);
    }
    if g in s.attempts {
      WasOpen(s, e, g);
    }
  }

  /** A step leads to two open windows of one task exactly when it starts an attempt beside an open window of its task. */
  lemma StepOverlapsExactly(s: State, e: Event)
    requires Inv(s) && forall f, g :: !Overlap(s, f, g)
    ensures (exists f, g :: Overlap(Step(s, e), f, g)) <==> StartsOverlap(s, e)
  {
    if f, g :| Overlap(Step(s, e), f, g) {
      StepOverlaps(s, e, f, g);
    }
    if StartsOverlap(s, e) {
      var f :| f in s.attempts && f in s.leases && WindowOpen(s, f) && s.leases[f].task == s.leases[e.fence].task;
      StartedOverlaps(s, e, f);
    }
  }

  // ----- The worker's side, in place ---------------------------------------------------------------

  datatype Status = Accepted | Busy | Stale | CancelRequested | DeadlineExceeded | TimeoutExceeded

  class Member {
    var worker: nat
    var leaseEnd: nat
    var renewed: Option<nat>
    var registered: bool
    var open: bool
    var expiring: bool
    var cause: Option<Status>
    var result: Option<Status>

    function View(): Attempt
      reads this
    {
      Attempt(worker, leaseEnd, renewed, registered, open)
    }

    method CancelHandler(status: Status)
      modifies this`cause
      ensures cause == if old(cause).None? then Some(status) else old(cause)
    {
      if cause.None? {
        cause := Some(status);
      }
    }

    /** Hands the first result to the supervisor without blocking. */
    method Deliver(status: Status)
      modifies this`result
      ensures result == if old(result).None? then Some(status) else old(result)
    {
      if result.None? {
        result := Some(status);
      }
    }

    /**
     A verdict against the lease cancels the handler, unless it is a stale one while an expiry request
     runs, and is delivered. The first cause stays, and a later result is dropped.
     */
    method Judge(status: Status)
      modifies this`cause, this`result
      ensures result == if old(result).None? then Some(status) else old(result)
      ensures cause == if old(cause).None? && (status != Stale || !expiring) then Some(status) else old(cause)
    {
      if status != Stale || !expiring {
        CancelHandler(status);
      }
      Deliver(status);
    }

    /** Fills the one-place slot for renewals; a full slot keeps what it holds. */
    method Renew(sentAt: nat)
      modifies this`renewed
      ensures View() == Renewed(old(View()), sentAt)
      ensures renewed == if old(renewed).None? then Some(sentAt) else old(renewed)
    {
      if renewed.None? {
        renewed := Some(sentAt);
      }
    }

    /** The supervisor receives a renewal: it moves the window, or gives up one that has ended. */
    method Take(now: nat, duration: nat)
      requires renewed.Some?
      modifies this
      ensures View() == Taken(old(View()), now, duration)
      ensures renewed.None?
      ensures now < old(leaseEnd) ==>
                open == old(open) && registered == old(registered) && leaseEnd == old(renewed).value + duration
      ensures now >= old(leaseEnd) ==> !open && !registered && leaseEnd == old(leaseEnd)
    {
      var sentAt := renewed.value;
      renewed := None;
      if now >= leaseEnd {
        registered, open := false, false;
        return;
      }
      leaseEnd := sentAt + duration;
    }
  }

  /** The positions of the members whose lease the round reported busy. */
  function BusyOf(statuses: seq<Status>, registered: seq<bool>, n: nat): seq<nat>
    requires n <= |statuses| == |registered|
  {
    if n == 0 then []
    else BusyOf(statuses, registered, n - 1) + if registered[n - 1] && statuses[n - 1].Busy? then [n - 1] else []
  }

  lemma {:induction false} BusyOfExactly(statuses: seq<Status>, registered: seq<bool>, n: nat)
    requires n <= |statuses| == |registered|
    ensures forall i :: i in BusyOf(statuses, registered, n) <==> 0 <= i < n && registered[i] && statuses[i].Busy?
  {
    if n > 0 {
      BusyOfExactly(statuses, registered, n - 1);
    }
  }

  predicate IsVerdict(status: Status) { !status.Accepted? && !status.Busy? }

  /** What a status does to the member at its position: it fills the slot, or is left to the watchdog, or judges. */
  twostate predicate Refreshed(member: Member, registered: bool, status: Status, sentAt: nat)
    reads member
  {
    && member.worker == old(member.worker) && member.leaseEnd == old(member.leaseEnd) && member.expiring == old(member.expiring)
    && member.registered == old(member.registered) && member.open == old(member.open)
    && member.renewed == (if registered && status.Accepted? && old(member.renewed).None? then Some(sentAt) else old(member.renewed))
    && member.result == (if registered && IsVerdict(status) && old(member.result).None? then Some(status) else old(member.result))
    && member.cause == (if registered && IsVerdict(status) && old(member.cause).None? && (status != Stale || !old(member.expiring))
                        then Some(status) else old(member.cause))
  }

  method RefreshMember(member: Member, status: Status, sentAt: nat)
    modifies member
    ensures Refreshed(member, true, status, sentAt)
  {
    match status
    case Accepted => member.Renew(sentAt);
    case Busy =>
    case _ => member.Judge(status);
  }

  /**
   A round's answer counts only for the member that it sent, at that member's position, and only if
   the member is still registered when the answers arrive.
   */
  method RefreshOwnership(members: seq<Member>, registered: seq<bool>, statuses: seq<Status>, sentAt: nat)
    returns (busy: seq<nat>)
    requires |members| == |statuses| == |registered|
    requires forall i, j :: 0 <= i < j < |members| ==> members[i] != members[j]
    modifies members
    ensures forall i :: 0 <= i < |members| ==> Refreshed(members[i], registered[i], statuses[i], sentAt)
    ensures busy == BusyOf(statuses, registered, |members|)
    ensures forall i :: i in busy <==> 0 <= i < |members| && registered[i] && statuses[i].Busy?
  {
    busy := [];
    var i := 0;
    while i < |members|
      invariant 0 <= i <= |members|
      invariant forall k :: i <= k < |members| ==> unchanged(members[k])
      invariant forall k :: 0 <= k < i ==> Refreshed(members[k], registered[k], statuses[k], sentAt)
      invariant busy == BusyOf(statuses, registered, i)
    {
      if registered[i] {
        RefreshMember(members[i], statuses[i], sentAt);
        if statuses[i].Busy? {
          busy := busy + [i];
        }
      }
      i := i + 1;
    }
    BusyOfExactly(statuses, registered, |members|);
  }

  /** In milliseconds: with a nearer deadline, nothing is selected. */
  const BUSY_RETRY_MINIMUM := 20

  predicate Retryable(a: Attempt, now: nat) { a.registered && a.leaseEnd > now }

  /** The indices below `n` at which `Retryable` holds, in order. */
  function RetryableOf(busy: seq<Attempt>, now: nat, n: nat): seq<nat>
    requires n <= |busy|
  {
    if n == 0 then [] else RetryableOf(busy, now, n - 1) + if Retryable(busy[n - 1], now) then [n - 1] else []
  }

  lemma {:induction false} RetryableOfExactly(busy: seq<Attempt>, now: nat, n: nat)
    requires n <= |busy|
    ensures forall i :: i in RetryableOf(busy, now, n) <==> 0 <= i < n && Retryable(busy[i], now)
  {
    if n > 0 {
      RetryableOfExactly(busy, now, n - 1);
    }
  }

  /**
   `deadline` is the least of `now + bound`, `next` and every `leaseEnd` of a retryable attempt.
   `selection` names the retryable attempts, or none of them when `deadline` is too near.
   */
  method BusyRetrySelection(busy: seq<Attempt>, now: nat, next: nat, bound: nat) returns (selection: seq<nat>, deadline: nat)
    ensures deadline <= now + bound && deadline <= next
    ensures forall i :: 0 <= i < |busy| && Retryable(busy[i], now) ==> deadline <= busy[i].leaseEnd
    ensures deadline == now + bound || deadline == next || exists i :: 0 <= i < |busy| && Retryable(busy[i], now) && deadline == busy[i].leaseEnd
    ensures selection == if deadline - now < BUSY_RETRY_MINIMUM then [] else RetryableOf(busy, now, |busy|)
    ensures deadline - now < 20 ==> selection == []
    ensures deadline - now >= 20 ==> forall i :: i in selection <==> 0 <= i < |busy| && busy[i].registered && busy[i].leaseEnd > now
  {
    RetryableOfExactly(busy, now, |busy|);
    deadline := now + bound;
    if next < deadline {
      deadline := next;
    }
    selection := [];
    var i := 0;
    while i < |busy|
      invariant 0 <= i <= |busy|
      invariant deadline <= now + bound && deadline <= next
      invariant forall k :: 0 <= k < i && Retryable(busy[k], now) ==> deadline <= busy[k].leaseEnd
      invariant deadline == now + bound || deadline == next || exists k :: 0 <= k < i && Retryable(busy[k], now) && deadline == busy[k].leaseEnd
      invariant selection == RetryableOf(busy, now, i)
    {
      if busy[i].registered && busy[i].leaseEnd > now {
        selection := selection + [i];
        if busy[i].leaseEnd < deadline {
          deadline := busy[i].leaseEnd;
        }
      }
      i := i + 1;
    }
    if deadline - now < BUSY_RETRY_MINIMUM {
      selection := [];
    }
  }
}
