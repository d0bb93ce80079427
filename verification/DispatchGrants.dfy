/**
 When the dispatch loop starts a claim and when it grants a fused one, in terms of the ledger: which lines are
 in flight and how many slots are promised. Each rule holds in both directions, for every step of every run.
 */
module DispatchGrants {
  import opened Prelude
  import opened Dispatch
  import opened DispatchProofs

  // ----- What the ledger says ------------------------------------------------------------------------------

  /** The fused claim of execution `i` is in flight. */
  predicate ClaimsAt(s: State, i: nat) { IsSlot(s, i) && s.ledger[i].stage.Claiming? }

  /** Execution `i` of the current run works and has its slot. */
  predicate WorksAt(s: State, i: nat) {
    IsSlot(s, i) && s.ledger[i].run == s.run && s.ledger[i].stage.Working? && !s.ledger[i].released
  }

  /** Line `j` is a plain claim in flight. */
  predicate InFlight(s: State, j: nat) {
    j < |s.ledger| && s.ledger[j].Claim? && s.ledger[j].run == s.run && !s.ledger[j].settled
  }

  ghost predicate AnyInFlight(s: State) { exists j: nat :: InFlight(s, j) }

  /** A plain claim in flight may bring tasks for the cohort. */
  ghost predicate MayFill(s: State, cohort: nat) {
    exists j: nat :: InFlight(s, j) && (s.ledger[j].target.None? || s.ledger[j].target == Some(cohort))
  }

  /** The slots that a line of the ledger keeps from others, of the whole worker or of one cohort. */
  function PromisedBy(e: Entry, run: nat, whole: bool): int {
    match e
    case Slot(_, _, handedOver, released, stage) =>
      if e.run == run
      then (if stage.Observed? || handedOver then 0 else 1) + (if stage.Claiming? then stage.limit else 0)
      else if whole && !released then 1 else 0
    case Claim(_, limit, _, share, settled) => if e.run != run || settled then 0 else if whole then limit else share
  }

  function Promised(es: seq<Entry>, run: nat): int {
    if |es| == 0 then 0 else Promised(es[..|es| - 1], run) + PromisedBy(es[|es| - 1], run, true)
  }

  function PromisedIn(es: seq<Entry>, run: nat, cohort: nat): int {
    if |es| == 0 then 0
    else
      var e := es[|es| - 1];
      PromisedIn(es[..|es| - 1], run, cohort) + if CohortOf(e) == Some(cohort) then PromisedBy(e, run, false) else 0
  }

  lemma {:induction false} PromisedIsTotal(es: seq<Entry>, run: nat)
    ensures Promised(es, run)
         == Total(EndedHeld, None, run, es) + Total(Active, None, run, es) - Total(HandedOver, None, run, es)
            + Total(Reserved, None, run, es)
  {
    if |es| > 0 {
      PromisedIsTotal(es[..|es| - 1], run);
    }
  }

  lemma {:induction false} PromisedInIsTotal(es: seq<Entry>, run: nat, c: nat)
    ensures PromisedIn(es, run, c)
         == Total(Active, Some(c), run, es) - Total(HandedOver, Some(c), run, es) + Total(Share, Some(c), run, es)
  {
    if |es| > 0 {
      PromisedInIsTotal(es[..|es| - 1], run, c);
    }
  }

  /** The loop's arithmetic is exact: what is free is what no line of the ledger has been promised. */
  lemma FreeIsUnpromised(s: State)
    requires Inv(s)
    ensures FreeSlots(s) == s.concurrency - Promised(s.ledger, s.run)
    ensures forall c :: 0 <= c < |s.capacity| ==> CohortFree(s, c) == s.capacity[c] - PromisedIn(s.ledger, s.run, c)
  {
    InvTotals(s);
    PromisedIsTotal(s.ledger, s.run);
    forall c | 0 <= c < |s.capacity| ensures CohortFree(s, c) == s.capacity[c] - PromisedIn(s.ledger, s.run, c) {
      PromisedInIsTotal(s.ledger, s.run, c);
      assert CohortCounters(s, CActive)[c] == Total(Active, Some(c), s.run, s.ledger);
      assert CohortCounters(s, CHandedOver)[c] == Total(HandedOver, Some(c), s.run, s.ledger);
      assert CohortCounters(s, CShare)[c] == Total(Share, Some(c), s.run, s.ledger);
    }
  }

  // ----- The counters of claims in flight --------------------------------------------------------------------

  lemma {:induction false} SomeLineCounts(kind: Kind, cohort: Option<nat>, run: nat, es: seq<Entry>)
    requires kind == Plain || kind == Whole
    ensures Total(kind, cohort, run, es) >= 0
    ensures Total(kind, cohort, run, es) > 0 <==>
              exists j :: 0 <= j < |es| && (cohort.None? || CohortOf(es[j]) == cohort) && Weight(kind, run, es[j]) > 0
  {
    if |es| > 0 {
      var n := |es| - 1;
      SomeLineCounts(kind, cohort, run, es[..n]);
      if Total(kind, cohort, run, es[..n]) > 0 {
        var j :| 0 <= j < n && (cohort.None? || CohortOf(es[..n][j]) == cohort) && Weight(kind, run, es[..n][j]) > 0;
        assert es[j] == es[..n][j];
      }
      if j :| 0 <= j < |es| && (cohort.None? || CohortOf(es[j]) == cohort) && Weight(kind, run, es[j]) > 0 {
        assert j < n ==> es[..n][j] == es[j];
      }
    }
  }

  lemma PlainIsCounted(s: State)
    requires Inv(s)
    ensures s.claimsInFlight > 0 <==> AnyInFlight(s)
  {
    InvTotals(s);
    SomeLineCounts(Plain, None, s.run, s.ledger);
    if j :| 0 <= j < |s.ledger| && Weight(Plain, s.run, s.ledger[j]) > 0 {
      assert InFlight(s, j);
    }
    if j: nat :| InFlight(s, j) {
      assert Weight(Plain, s.run, s.ledger[j]) > 0;
    }
  }

  lemma WholeIsCounted(s: State)
    requires Inv(s)
    ensures s.wholeClaims > 0 <==> exists j: nat :: InFlight(s, j) && s.ledger[j].target.None?
  {
    assert Counter(s, Whole) == Total(Whole, None, s.run, s.ledger);
    SomeLineCounts(Whole, None, s.run, s.ledger);
    if j :| 0 <= j < |s.ledger| && Weight(Whole, s.run, s.ledger[j]) > 0 {
      assert InFlight(s, j) && s.ledger[j].target.None?;
    }
    if j: nat :| InFlight(s, j) && s.ledger[j].target.None? {
      assert Weight(Whole, s.run, s.ledger[j]) > 0;
    }
  }

  lemma CohortIsCounted(s: State, c: nat)
    requires Inv(s) && c < |s.capacity|
    ensures At(s.cohortClaims, c) > 0 <==> exists j: nat :: InFlight(s, j) && s.ledger[j].target == Some(c)
  {
    assert CohortCounters(s, CPlain)[c] == Total(Plain, Some(c), s.run, s.ledger);
    SomeLineCounts(Plain, Some(c), s.run, s.ledger);
    if j :| 0 <= j < |s.ledger| && CohortOf(s.ledger[j]) == Some(c) && Weight(Plain, s.run, s.ledger[j]) > 0 {
      assert InFlight(s, j) && s.ledger[j].target == Some(c);
    }
    if j: nat :| InFlight(s, j) && s.ledger[j].target == Some(c) {
      assert Weight(Plain, s.run, s.ledger[j]) > 0;
    }
  }

  lemma MayFillIsCounted(s: State, c: nat)
    requires Inv(s) && c < |s.capacity|
    ensures s.wholeClaims > 0 || At(s.cohortClaims, c) > 0 <==> MayFill(s, c)
  {
    WholeIsCounted(s);
    CohortIsCounted(s, c);
    if j: nat :| InFlight(s, j) && s.ledger[j].target.None? {
      assert MayFill(s, c);
    }
    if j: nat :| InFlight(s, j) && s.ledger[j].target == Some(c) {
      assert MayFill(s, c);
    }
    if j: nat :| InFlight(s, j) && (s.ledger[j].target.None? || s.ledger[j].target == Some(c)) {
      assert s.ledger[j].target.None? || s.ledger[j].target == Some(c);
    }
  }

  // ----- Launches --------------------------------------------------------------------------------------------

  /** Every task that a claim returns starts one execution of the run, and no other line changes. */
  lemma {:induction false} LaunchAllLedger(s: State, tasks: nat, preferred: Option<nat>)
    ensures var t := LaunchAll(s, tasks, preferred);
            && |t.ledger| == |s.ledger| + tasks && t.ledger[..|s.ledger|] == s.ledger
            && t.run == s.run && t.live == s.live && t.stopping == s.stopping && t.completionClaims == s.completionClaims
            && forall i :: |s.ledger| <= i < |t.ledger| ==>
                 t.ledger[i].Slot? && t.ledger[i].run == s.run && !t.ledger[i].handedOver && !t.ledger[i].released
                 && t.ledger[i].stage.Working?
  {
    if tasks > 0 {
      LaunchAllLedger(s, tasks - 1, preferred);
      var u := LaunchAll(s, tasks - 1, preferred);
      assert Launch(u, preferred).ledger[..|s.ledger|] == u.ledger[..|s.ledger|];
    }
  }

  // ----- Fused claims ----------------------------------------------------------------------------------------

  /** The slots that a fused claim of the cohort can ask for: what is free to both, and its own. */
  function Takeable(s: State, cohort: nat): int { Min(FreeSlots(s), CohortFree(s, cohort)) + 1 }

  /** Execution `i` asks while the gate is open and the run goes on, and a quarter of the slots is at stake if tasks may come anyway. */
  ghost predicate MayGrant(s: State, e: Event, i: nat) {
    && e == ReserveCompletion(i, true) && s.live && !s.stopping && WorksAt(s, i)
    && (MayFill(s, s.ledger[i].cohort) ==> 4 * Takeable(s, s.ledger[i].cohort) >= s.concurrency)
  }

  lemma GrantIsExact(s: State, i: nat, gateOpen: bool)
    requires Inv(s) && IsSlot(s, i)
    ensures GrantsCompletion(s, i, gateOpen) <==>
              s.ledger[i].run == s.run && !s.stopping && gateOpen
              && (MayFill(s, s.ledger[i].cohort) ==> 4 * Takeable(s, s.ledger[i].cohort) >= s.concurrency)
  {
    assert InRange(s.ledger[i], |s.capacity|);
    MayFillIsCounted(s, s.ledger[i].cohort);
  }

  /** A settled claim adds working executions, and of the lines there were it changes at most its own. */
  lemma SettledLedger(s: State, e: Event, i: nat)
    requires (e.SettleClaim? || e.SettleCompletion?) && Enabled(s, e)
    ensures |Step(s, e).ledger| == |s.ledger| + e.tasks
    ensures i < |s.ledger| && i != (if e.SettleClaim? then e.claim else e.slot) ==> Step(s, e).ledger[i] == s.ledger[i]
    ensures ClaimsAt(Step(s, e), i) ==> ClaimsAt(s, i) && Step(s, e).ledger[i] == s.ledger[i]
    ensures Step(s, e).completionClaims <= s.completionClaims && Step(s, e).run == s.run
    ensures s.stopping ==> Step(s, e).stopping
  {
    if e.SettleClaim? {
      var ended := EndClaim(s, e.claim);
      LaunchAllLedger(ended, e.tasks, s.ledger[e.claim].target);
      assert i < |s.ledger| ==> Step(s, e).ledger[..|s.ledger|][i] == ended.ledger[i];
    } else {
      var ended := EndCompletion(s, e.slot, e.tasks > 0);
      LaunchAllLedger(ended, e.tasks, Some(s.ledger[e.slot].cohort));
      assert i < |s.ledger| ==> Step(s, e).ledger[..|s.ledger|][i] == ended.ledger[i];
    }
  }

  /** No step but a granted request puts a fused claim in flight. */
  lemma OthersGrantNothing(s: State, e: Event, i: nat)
    requires !e.ReserveCompletion? || !Enabled(s, e)
    ensures ClaimsAt(Step(s, e), i) ==> ClaimsAt(s, i) && Step(s, e).ledger[i] == s.ledger[i]
  {
    if Enabled(s, e) && (e.SettleClaim? || e.SettleCompletion?) {
      SettledLedger(s, e, i);
    }
  }

  /** A fused claim goes into flight exactly when it may be granted; it then asks for every slot that it can, and leaves none. */
  lemma GrantedExactly(s: State, e: Event, i: nat)
    requires Inv(s)
    ensures ClaimsAt(Step(s, e), i) && !ClaimsAt(s, i) <==> MayGrant(s, e, i)
    ensures MayGrant(s, e, i) ==>
              var t, c := Step(s, e), s.ledger[i].cohort;
              && t.ledger[i].stage == Claiming(Takeable(s, c)) && Min(FreeSlots(t), CohortFree(t, c)) == 0
              && t.completionClaims == s.completionClaims + 1
  {
    if e.ReserveCompletion? && Enabled(s, e) {
      GrantIsExact(s, e.slot, e.gateOpen);
      assert InRange(s.ledger[e.slot], |s.capacity|);
    } else {
      OthersGrantNothing(s, e, i);
    }
  }

  // ----- Whole runs --------------------------------------------------------------------------------------------

  /** No fused claim of `t` is missing in `s`. */
  ghost predicate NoneNew(s: State, t: State) {
    && (forall i: nat :: ClaimsAt(t, i) ==> ClaimsAt(s, i) && t.ledger[i] == s.ledger[i])
    && t.completionClaims <= s.completionClaims
  }

  lemma StepGrantsNone(s: State, e: Event)
    requires Inv(s) && (e.ReserveCompletion? ==> !e.gateOpen || s.stopping)
    ensures NoneNew(s, Step(s, e))
  {
    forall i: nat | ClaimsAt(Step(s, e), i) ensures ClaimsAt(s, i) && Step(s, e).ledger[i] == s.ledger[i] {
      if e.ReserveCompletion? && Enabled(s, e) {
        GrantIsExact(s, e.slot, e.gateOpen);
      } else {
        OthersGrantNothing(s, e, i);
      }
    }
    StepCompletions(s, e);
  }

  lemma StepCompletions(s: State, e: Event)
    requires Inv(s) && (e.ReserveCompletion? ==> !e.gateOpen || s.stopping)
    ensures Step(s, e).completionClaims <= s.completionClaims
  {
    if Enabled(s, e) && (e.SettleClaim? || e.SettleCompletion?) {
      SettledLedger(s, e, 0);
    } else if Enabled(s, e) && e.ReserveCompletion? {
      GrantIsExact(s, e.slot, e.gateOpen);
    } else if e.EndRun? {
      assert Counter(s, Completing) == Total(Completing, None, s.run, s.ledger);
      TotalNonNegative(Completing, s.run, s.ledger);
    }
  }

  predicate GateClosed(events: seq<Event>) {
    forall k :: 0 <= k < |events| ==> events[k].ReserveCompletion? ==> !events[k].gateOpen
  }

  /** While the gate is closed, no run of any length puts a fused claim in flight. */
  lemma {:induction false} ClosedGateGrantsNothing(s: State, events: seq<Event>)
    requires Inv(s) && GateClosed(events)
    ensures NoneNew(s, Run(s, events))
  {
    if |events| > 0 {
      var front := events[..|events| - 1];
      assert forall k :: 0 <= k < |front| ==> front[k] == events[k];
      ClosedGateGrantsNothing(s, front);
      RunInv(s, front);
      StepGrantsNone(Run(s, front), events[|events| - 1]);
    }
  }

  lemma StepRun(s: State, e: Event)
    ensures s.run <= Step(s, e).run && (Step(s, e).run == s.run && s.live && s.stopping ==> Step(s, e).live && Step(s, e).stopping)
  {
    if Enabled(s, e) {
      if e.SettleClaim? {
        LaunchAllLedger(EndClaim(s, e.claim), e.tasks, s.ledger[e.claim].target);
      } else if e.SettleCompletion? {
        LaunchAllLedger(EndCompletion(s, e.slot, e.tasks > 0), e.tasks, Some(s.ledger[e.slot].cohort));
      }
    }
  }

  lemma {:induction false} RunsAdvance(s: State, events: seq<Event>)
    ensures s.run <= Run(s, events).run
  {
    if |events| > 0 {
      RunsAdvance(s, events[..|events| - 1]);
      StepRun(Run(s, events[..|events| - 1]), events[|events| - 1]);
    }
  }

  /** Once a run is stopping it stays so until its end, and puts no fused claim in flight, whatever the gate. */
  lemma {:induction false} StoppingGrantsNothing(s: State, events: seq<Event>)
    requires Inv(s) && s.live && s.stopping && Run(s, events).run == s.run
    ensures NoneNew(s, Run(s, events)) && Run(s, events).live && Run(s, events).stopping
  {
    if |events| > 0 {
      var front, e := events[..|events| - 1], events[|events| - 1];
      RunsAdvance(s, front);
      StepRun(Run(s, front), e);
      StoppingGrantsNothing(s, front);
      RunInv(s, front);
      StepGrantsNone(Run(s, front), e);
    }
  }

  /** In every reachable state, a step grants a fused claim exactly under these conditions. */
  lemma GrantsInEveryRun(concurrency: nat, cohorts: nat, events: seq<Event>, e: Event, i: nat)
    requires 1 <= cohorts <= concurrency
    ensures var s := Run(Init(concurrency, cohorts), events);
            ClaimsAt(Step(s, e), i) && !ClaimsAt(s, i) <==> MayGrant(s, e, i)
  {
    InitInv(concurrency, cohorts);
    RunInv(Init(concurrency, cohorts), events);
    GrantedExactly(Run(Init(concurrency, cohorts), events), e, i);
  }

  // ----- Plain claims ------------------------------------------------------------------------------------------

  /** A claim for the whole worker starts with all free slots: at least one, and a quarter of all beside another claim. */
  ghost predicate MayStartWhole(s: State, e: Event) {
    && e == StartWholeClaim && s.live && !s.stopping && FreeSlots(s) > 0
    && (AnyInFlight(s) ==> 4 * FreeSlots(s) >= s.concurrency)
  }

  /** A claim for a cohort starts alone. */
  ghost predicate MayStartCohort(s: State, e: Event) {
    e.StartCohortClaim? && s.live && !s.stopping && |s.capacity| > 1 && FreeSlots(s) > 0 && !AnyInFlight(s)
  }

  lemma QuarterIsRefillBatch(concurrency: nat, free: int)
    ensures free >= RefillBatch(concurrency) <==> 4 * free >= concurrency
  {
  }

  /** The loop sends a plain claim exactly when it may, and the line says what for. */
  lemma StartsExactly(s: State, e: Event)
    requires Inv(s) && (e.StartWholeClaim? || e.StartCohortClaim?)
    ensures Step(s, e) != s <==> MayStartWhole(s, e) || MayStartCohort(s, e)
    ensures MayStartWhole(s, e) ==>
              Step(s, e).ledger == s.ledger + [Claim(s.run, FreeSlots(s), None, 0, false)] && FreeSlots(Step(s, e)) == 0
    ensures MayStartCohort(s, e) ==>
              var c := Roomiest(s);
              var share := Min(FreeSlots(s), CohortFree(s, c));
              && Step(s, e).ledger == s.ledger + [Claim(s.run, if e.allFast then share else FreeSlots(s), Some(c), share, false)]
              && share > 0 && forall b :: 0 <= b < |s.capacity| ==> CohortFree(s, b) <= CohortFree(s, c)
  {
    PlainIsCounted(s);
    InvTotals(s);
    QuarterIsRefillBatch(s.concurrency, FreeSlots(s));
    if MayStartCohort(s, e) {
      RoomiestHasRoom(s);
      RoomiestIsFirstMaximum(s, |s.capacity|);
    }
  }

  /** The shares of the cohorts differ by at most one slot, and the first ones take the remainder. */
  lemma {:induction false} CapacityOf(even: nat, extra: nat, n: nat, c: nat)
    requires c < n
    ensures Capacities(even, extra, n)[c] == even + if c < extra then 1 else 0
  {
    if c < n - 1 {
      CapacityOf(even, extra, n - 1, c);
    }
  }
}
