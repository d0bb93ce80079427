/**
 How many executions of one run can be under way, and how many finished ones can wait for the loop. An
 execution whose slot was handed over may still be ending while its replacement hands over in turn, so
 neither number has a bound in the concurrency alone.
 */
module DispatchResults {
  import opened Prelude
  import opened Dispatch
  import opened DispatchProofs

  /**
   The executions that returned and whose results the loop has not received. Those results are in the
   buffer, or their sends are blocked because it is full.
   */
  function Finished(run: nat, es: seq<Entry>): nat {
    if |es| == 0 then 0
    else
      var e := es[|es| - 1];
      Finished(run, es[..|es| - 1]) + if e.Slot? && e.run == run && e.stage.Ended? then 1 else 0
  }

  lemma {:induction false} FinishedAppend(run: nat, es: seq<Entry>, e: Entry)
    ensures Finished(run, es + [e]) == Finished(run, es) + if e.Slot? && e.run == run && e.stage.Ended? then 1 else 0
  {
    assert (es + [e])[..|es|] == es;
  }

  /** Finished executions are among the active ones. */
  lemma {:induction false} FinishedAreActive(run: nat, es: seq<Entry>)
    ensures Finished(run, es) <= Total(Active, None, run, es)
  {
    if |es| > 0 {
      FinishedAreActive(run, es[..|es| - 1]);
    }
  }

  // ----- Runs that hand slots over again and again ---------------------------------------------------

  /** The last line of the ledger is an execution that works and holds its slot. */
  predicate NewestWorks(s: State) {
    |s.ledger| > 0 && s.ledger[|s.ledger| - 1].Slot? && var e := s.ledger[|s.ledger| - 1];
    e.run == s.run && !e.handedOver && !e.released && e.stage.Working?
  }

  /** All slots are taken, no claim is in flight, and `n` executions that handed over have finished. */
  predicate Full(s: State, n: nat) {
    && s.live && !s.stopping && s.endedRunSlots == 0 && s.reserved == 0
    && s.wholeClaims == 0 && s.cohortClaims == Zeros(|s.capacity|) && NewestWorks(s)
    && s.handedOver == n && s.active == s.concurrency + n && Finished(s.run, s.ledger) == n
  }

  /** The loop hands a slot over in this step. */
  predicate HandsOver(s: State, e: Event) {
    e.ReserveCompletion? && Enabled(s, e) && GrantsCompletion(s, e.slot, e.gateOpen)
  }

  /** Every grant of the run finds fewer than `limit` executions handed over. */
  predicate Guarded(s: State, limit: nat, events: seq<Event>) {
    |events| == 0
    || (var front := Run(s, events[..|events| - 1]);
        && Guarded(s, limit, events[..|events| - 1])
        && (HandsOver(front, events[|events| - 1]) ==> front.handedOver < limit))
  }

  lemma {:induction false} RunAppend(s: State, limit: nat, events: seq<Event>, e: Event)
    ensures Run(s, events + [e]) == Step(Run(s, events), e)
    ensures Guarded(s, limit, events + [e])
       <==> Guarded(s, limit, events) && (HandsOver(Run(s, events), e) ==> Run(s, events).handedOver < limit)
  {
    assert (events + [e])[..|events|] == events;
  }

  /** Launches change only the counters of launched tasks, and each one ends the ledger with its own line. */
  lemma {:induction false} LaunchAdds(s: State, preferred: Option<nat>)
    ensures var t := Launch(s, preferred);
            && t.live == s.live && t.stopping == s.stopping && t.run == s.run && t.capacity == s.capacity
            && t.concurrency == s.concurrency && t.endedRunSlots == s.endedRunSlots && t.reserved == s.reserved
            && t.wholeClaims == s.wholeClaims && t.cohortClaims == s.cohortClaims && t.handedOver == s.handedOver
            && t.active == s.active + 1 && Finished(t.run, t.ledger) == Finished(s.run, s.ledger) && NewestWorks(t)
  {
    FinishedAppend(s.run, s.ledger, Slot(s.run, LaunchCohort(s, preferred), false, false, Working));
  }

  lemma {:induction false} LaunchAllAdds(s: State, tasks: nat, preferred: Option<nat>)
    ensures var t := LaunchAll(s, tasks, preferred);
            && t.live == s.live && t.stopping == s.stopping && t.run == s.run && t.capacity == s.capacity
            && t.concurrency == s.concurrency && t.endedRunSlots == s.endedRunSlots && t.reserved == s.reserved
            && t.wholeClaims == s.wholeClaims && t.cohortClaims == s.cohortClaims && t.handedOver == s.handedOver
            && t.active == s.active + tasks && Finished(t.run, t.ledger) == Finished(s.run, s.ledger)
            && (tasks > 0 ==> NewestWorks(t))
  {
    if tasks > 0 {
      LaunchAllAdds(s, tasks - 1, preferred);
      LaunchAdds(LaunchAll(s, tasks - 1, preferred), preferred);
    }
  }

  /** One claim for every slot, which returns a task for each. */
  lemma {:induction false} FillRun(concurrency: nat, cohorts: nat, limit: nat) returns (events: seq<Event>)
    requires 1 <= cohorts <= concurrency
    ensures Full(Run(Init(concurrency, cohorts), events), 0) && Guarded(Init(concurrency, cohorts), limit, events)
  {
    var s := Init(concurrency, cohorts);
    RunAppend(s, limit, [], BeginRun);
    events := [] + [BeginRun];
    var begun := s.(live := true);
    assert Run(s, events) == begun;
    RunAppend(s, limit, events, StartWholeClaim);
    events := events + [StartWholeClaim];
    var started := StartClaim(begun, concurrency, None, 0);
    assert Run(s, events) == started;
    RunAppend(s, limit, events, SettleClaim(0, concurrency, false));
    events := events + [SettleClaim(0, concurrency, false)];
    var ended := EndClaim(started, 0);
    assert Finished(0, ended.ledger) == 0 by {
      assert ended.ledger[..0] == [];
    }
    LaunchAllAdds(ended, concurrency, None);
  }

  /** Three steps by which a full worker stays full and has one finished execution more. */
  lemma {:induction false} HandOver(s: State, n: nat)
    requires Inv(s) && Full(s, n)
    ensures var i := |s.ledger| - 1;
            Full(Step(Step(Step(s, ReserveCompletion(i, true)), SettleCompletion(i, 1)), ExecutionEnds(i)), n + 1)
  {
    var i := |s.ledger| - 1;
    var e := s.ledger[i];
    assert InRange(e, |s.capacity|);
    var asked := ReserveFor(s, i);
    assert Step(s, ReserveCompletion(i, true)) == asked;
    var settled := EndCompletion(asked, i, true);
    var t := Step(asked, SettleCompletion(i, 1));
    assert t == Launch(settled, Some(e.cohort)) by {
      assert LaunchAll(settled, 0, Some(e.cohort)) == settled;
    }
    var u := Step(t, ExecutionEnds(i));
    var done, next := Slot(e.run, e.cohort, true, true, Ended), t.ledger[|t.ledger| - 1];
    assert s.ledger == s.ledger[..i] + [e];
    assert u.ledger == s.ledger[..i] + [done] + [next];
    FinishedAppend(s.run, s.ledger[..i], e);
    FinishedAppend(s.run, s.ledger[..i], done);
    FinishedAppend(s.run, s.ledger[..i] + [done], next);
  }

  /**
   Whatever the concurrency, and for every `n`, some run has `n` executions beyond the concurrency under way,
   and `n` finished ones whose results wait for the loop. No guard of `n` or more at the grants prevents it.
   */
  lemma {:induction false} ExecutionsPileUp(concurrency: nat, cohorts: nat, n: nat, limit: nat) returns (events: seq<Event>)
    requires 1 <= cohorts <= concurrency && n <= limit
    ensures var s := Run(Init(concurrency, cohorts), events);
            s.handedOver == n && s.active == concurrency + n && Finished(s.run, s.ledger) == n
    ensures Full(Run(Init(concurrency, cohorts), events), n) && Guarded(Init(concurrency, cohorts), limit, events)
  {
    var init := Init(concurrency, cohorts);
    if n == 0 {
      events := FillRun(concurrency, cohorts, limit);
    } else {
      events := ExecutionsPileUp(concurrency, cohorts, n - 1, limit);
      var s := Run(init, events);
      InitInv(concurrency, cohorts);
      RunInv(init, events);
      HandOver(s, n - 1);
      var i := |s.ledger| - 1;
      RunAppend(init, limit, events, ReserveCompletion(i, true));
      events := events + [ReserveCompletion(i, true)];
      RunAppend(init, limit, events, SettleCompletion(i, 1));
      events := events + [SettleCompletion(i, 1)];
      RunAppend(init, limit, events, ExecutionEnds(i));
      events := events + [ExecutionEnds(i)];
    }
    ConstantsStay(init, events);
  }

  // ----- When twice the concurrency is enough --------------------------------------------------------

  lemma StepHandsOver(s: State, e: Event)
    requires Inv(s)
    ensures Step(s, e).handedOver <= s.handedOver + if HandsOver(s, e) then 1 else 0
  {
    InvTotals(s);
    if Enabled(s, e) && e.SettleClaim? {
      LaunchAllAdds(EndClaim(s, e.claim), e.tasks, s.ledger[e.claim].target);
    } else if Enabled(s, e) && e.SettleCompletion? {
      LaunchAllAdds(EndCompletion(s, e.slot, e.tasks > 0), e.tasks, Some(s.ledger[e.slot].cohort));
    }
  }

  /** Guarded grants hand over no more than the limit at a time. */
  lemma {:induction false} GuardedHandsOverFew(concurrency: nat, cohorts: nat, limit: nat, events: seq<Event>)
    requires 1 <= cohorts <= concurrency && Guarded(Init(concurrency, cohorts), limit, events)
    ensures Run(Init(concurrency, cohorts), events).handedOver <= limit
  {
    if |events| > 0 {
      var init, front := Init(concurrency, cohorts), events[..|events| - 1];
      GuardedHandsOverFew(concurrency, cohorts, limit, front);
      InitInv(concurrency, cohorts);
      RunInv(init, front);
      StepHandsOver(Run(init, front), events[|events| - 1]);
    }
  }

  /** In every guarded run, the finished and the active executions stay within the concurrency and the limit. */
  lemma GuardedGrantsBound(concurrency: nat, cohorts: nat, limit: nat, events: seq<Event>)
    requires 1 <= cohorts <= concurrency && Guarded(Init(concurrency, cohorts), limit, events)
    ensures var s := Run(Init(concurrency, cohorts), events);
            Finished(s.run, s.ledger) <= s.active <= concurrency + limit
  {
    var s := Run(Init(concurrency, cohorts), events);
    GuardedHandsOverFew(concurrency, cohorts, limit, events);
    SlotsStayWithinConcurrency(concurrency, cohorts, events);
    InitInv(concurrency, cohorts);
    RunInv(Init(concurrency, cohorts), events);
    InvTotals(s);
    FinishedAreActive(s.run, s.ledger);
  }

  /** If the run is guarded, then at most twice the concurrency of executions are under way. */
  predicate WithinTwice(concurrency: nat, cohorts: nat, limit: nat, events: seq<Event>)
    requires 1 <= cohorts <= concurrency
  {
    Guarded(Init(concurrency, cohorts), limit, events) ==> Run(Init(concurrency, cohorts), events).active <= 2 * concurrency
  }

  /** A guard at the grants keeps every run within twice the concurrency exactly when it is at most the concurrency. */
  lemma {:induction false} TwiceConcurrencyExactly(concurrency: nat, cohorts: nat, limit: nat)
    requires 1 <= cohorts <= concurrency
    ensures (forall events :: WithinTwice(concurrency, cohorts, limit, events)) <==> limit <= concurrency
  {
    if limit <= concurrency {
      forall events ensures WithinTwice(concurrency, cohorts, limit, events) {
        if Guarded(Init(concurrency, cohorts), limit, events) {
          GuardedGrantsBound(concurrency, cohorts, limit, events);
        }
      }
    } else {
      var events := ExecutionsPileUp(concurrency, cohorts, concurrency + 1, limit);
      assert !WithinTwice(concurrency, cohorts, limit, events);
    }
  }
}
