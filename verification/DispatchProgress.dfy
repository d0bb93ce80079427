/**
 How runs begin, stop and end, and what becomes of a slot, step by step. The loop never gets stuck: from every
 state that a run can reach, some continuation gives every slot back within the run, and another one ends it.
 */
module DispatchProgress {
  import opened Prelude
  import opened Dispatch
  import opened DispatchProofs
  import opened DispatchGrants

  // ----- The phases of the loop ----------------------------------------------------------------------------

  /** An error reaches the loop: a plain claim in flight fails, or a result of this run does. */
  predicate Fails(s: State, e: Event) {
    || (e.SettleClaim? && e.failed && InFlight(s, e.claim) && e.tasks <= s.ledger[e.claim].limit)
    || (e.Observe? && e.failed && IsSlot(s, e.slot) && s.ledger[e.slot].run == s.run && s.ledger[e.slot].stage.Ended?)
  }

  /** No claim of either sort is in flight. */
  ghost predicate Quiet(s: State) { !AnyInFlight(s) && forall i: nat :: !ClaimsAt(s, i) }

  lemma {:induction false} NoWeight(kind: Kind, run: nat, es: seq<Entry>)
    requires forall i :: 0 <= i < |es| ==> Weight(kind, run, es[i]) == 0
    ensures Total(kind, None, run, es) == 0
  {
    if |es| > 0 {
      NoWeight(kind, run, es[..|es| - 1]);
    }
  }

  lemma {:induction false} SomeCompletes(run: nat, es: seq<Entry>, i: nat)
    requires i < |es| && Weight(Completing, run, es[i]) == 1
    ensures Total(Completing, None, run, es) >= 1
  {
    var front := es[..|es| - 1];
    if i < |front| {
      assert front[i] == es[i];
      SomeCompletes(run, front, i);
    } else {
      TotalCompleting(run, front);
    }
  }

  lemma {:induction false} TotalCompleting(run: nat, es: seq<Entry>)
    ensures Total(Completing, None, run, es) >= 0
  {
    if |es| > 0 {
      TotalCompleting(run, es[..|es| - 1]);
    }
  }

  lemma QuietIsCounted(s: State)
    requires Inv(s)
    ensures s.claimsInFlight <= 0 && s.completionClaims <= 0 <==> Quiet(s)
  {
    PlainIsCounted(s);
    assert Counter(s, Completing) == Total(Completing, None, s.run, s.ledger);
    if i: nat :| ClaimsAt(s, i) {
      assert EntryOk(s.ledger[i], s.run);
      SomeCompletes(s.run, s.ledger, i);
    }
    if forall i: nat :: !ClaimsAt(s, i) {
      forall i | 0 <= i < |s.ledger| ensures Weight(Completing, s.run, s.ledger[i]) == 0 {
        assert !ClaimsAt(s, i);
      }
      NoWeight(Completing, s.run, s.ledger);
    }
  }

  /**
   A run begins only after the one before it, stops at a stop or at the first error, and ends exactly when it
   is stopping and no claim is in flight. The next one then starts afresh.
   */
  lemma PhaseExactly(s: State, e: Event)
    requires Inv(s)
    ensures var t := Step(s, e);
            && (!s.live && t.live <==> !s.live && e == BeginRun)
            && (t.run != s.run <==> e == EndRun && s.live && s.stopping && Quiet(s))
            && (t.run != s.run ==> t.run == s.run + 1 && !t.live && !t.stopping)
            && (s.live && !t.live ==> t.run != s.run)
            && (t.run == s.run ==> (t.stopping <==> s.stopping || (s.live && (e == Stop || Fails(s, e)))))
  {
    QuietIsCounted(s);
    if Enabled(s, e) {
      if e.SettleClaim? {
        LaunchAllLedger(EndClaim(s, e.claim), e.tasks, s.ledger[e.claim].target);
      } else if e.SettleCompletion? {
        LaunchAllLedger(EndCompletion(s, e.slot, e.tasks > 0), e.tasks, Some(s.ledger[e.slot].cohort));
      }
    }
  }

  // ----- What happens to a slot ----------------------------------------------------------------------------

  /** Execution `i` ended, or a fused claim of its own brought tasks that replace it. */
  predicate GivesUpSlot(s: State, e: Event, i: nat) {
    IsSlot(s, i) && !s.ledger[i].released
    && ((e == ExecutionEnds(i) && s.ledger[i].stage.Working?)
        || (e.SettleCompletion? && e.slot == i && s.live && s.ledger[i].run == s.run && s.ledger[i].stage.Claiming?
            && 0 < e.tasks <= s.ledger[i].stage.limit))
  }

  /** A slot comes back exactly then, whichever run has it; a result is received exactly in its own run, before that stops. */
  predicate SlotFollows(s: State, e: Event, i: nat, after: Entry)
    requires IsSlot(s, i)
  {
    var before := s.ledger[i];
    && after.Slot? && after.run == before.run && after.cohort == before.cohort
    && (after.released <==> before.released || GivesUpSlot(s, e, i))
    && (after.stage.Ended? && !before.stage.Ended? <==> e == ExecutionEnds(i) && before.stage.Working?)
    && (after.stage.Observed? && !before.stage.Observed? <==>
          e.Observe? && e.slot == i && s.live && !s.stopping && before.run == s.run && before.stage.Ended?)
  }

  lemma SlotExactly(s: State, e: Event, i: nat)
    requires IsSlot(s, i)
    ensures |Step(s, e).ledger| >= |s.ledger| && SlotFollows(s, e, i, Step(s, e).ledger[i])
  {
    if Enabled(s, e) && e.SettleClaim? {
      SettledLedger(s, e, i);
    } else if Enabled(s, e) && e.SettleCompletion? {
      CompletionLedger(s, e.slot, e.tasks, i);
    } else {
      OtherSlot(s, e, i);
    }
  }

  lemma OtherSlot(s: State, e: Event, i: nat)
    requires IsSlot(s, i) && (Enabled(s, e) ==> !e.SettleClaim? && !e.SettleCompletion?)
    ensures |Step(s, e).ledger| >= |s.ledger| && SlotFollows(s, e, i, Step(s, e).ledger[i])
  {
  }

  lemma CompletionLedger(s: State, k: nat, tasks: nat, i: nat)
    requires Enabled(s, SettleCompletion(k, tasks)) && IsSlot(s, i)
    ensures var t := Step(s, SettleCompletion(k, tasks));
            |t.ledger| >= |s.ledger| && SlotFollows(s, SettleCompletion(k, tasks), i, t.ledger[i])
  {
    var ended := EndCompletion(s, k, tasks > 0);
    LaunchAllLedger(ended, tasks, Some(s.ledger[k].cohort));
    assert Step(s, SettleCompletion(k, tasks)).ledger[..|s.ledger|][i] == ended.ledger[i];
  }

  /** Tasks join the preferred cohort as long as it has room. */
  lemma {:induction false} LaunchesJoin(s: State, tasks: nat, cohort: nat, room: int)
    requires Shape(s) && cohort < |s.capacity| && room <= CohortFree(s, cohort)
    ensures var t := LaunchAll(s, tasks, Some(cohort));
            && |t.ledger| == |s.ledger| + tasks && Shape(t) && t.capacity == s.capacity
            && (tasks <= room ==> CohortFree(t, cohort) >= room - tasks)
            && forall k :: |s.ledger| <= k < |t.ledger| && k - |s.ledger| < room ==> CohortOf(t.ledger[k]) == Some(cohort)
  {
    if tasks > 0 {
      LaunchesJoin(s, tasks - 1, cohort, room);
    }
  }

  /** The tasks that replace an execution join its cohort. */
  lemma ReplacementsJoinCohort(s: State, i: nat, tasks: nat)
    requires Inv(s) && Enabled(s, SettleCompletion(i, tasks))
    ensures var t := Step(s, SettleCompletion(i, tasks));
            |t.ledger| == |s.ledger| + tasks
            && forall k :: |s.ledger| <= k < |t.ledger| ==> CohortOf(t.ledger[k]) == Some(s.ledger[i].cohort)
  {
    assert InRange(s.ledger[i], |s.capacity|) && CohortFree(s, s.ledger[i].cohort) >= 0;
    LaunchesJoin(EndCompletion(s, i, tasks > 0), tasks, s.ledger[i].cohort, tasks);
  }

  /** The tasks of a claim for a cohort join it, up to the share that the claim reserved there. */
  lemma ClaimedJoinCohort(s: State, i: nat, tasks: nat, failed: bool)
    requires Inv(s) && Enabled(s, SettleClaim(i, tasks, failed)) && s.ledger[i].target.Some?
    ensures var t := Step(s, SettleClaim(i, tasks, failed));
            |t.ledger| == |s.ledger| + tasks
            && forall k :: |s.ledger| <= k < |t.ledger| && k - |s.ledger| < s.ledger[i].share ==>
                 CohortOf(t.ledger[k]) == s.ledger[i].target
  {
    var c := s.ledger[i].target.value;
    assert InRange(s.ledger[i], |s.capacity|) && CohortFree(s, c) >= 0;
    LaunchesJoin(EndClaim(s, i), tasks, c, s.ledger[i].share);
  }

  // ----- One line ends -------------------------------------------------------------------------------------

  /** Nothing more happens to line `i`: its result is known, unless its run no longer takes results. */
  predicate Over(s: State, i: nat) {
    i < |s.ledger| ==>
      match s.ledger[i]
      case Claim(_, _, _, _, settled) => settled
      case Slot(run, _, _, released, stage) => released && (stage.Observed? || (stage.Ended? && (s.stopping || run != s.run)))
  }

  /** How many events line `i` is away from its end. */
  function Rank(e: Entry): nat {
    match e
    case Claim(_, _, _, _, settled) => if settled then 0 else 1
    case Slot(_, _, _, _, stage) => if stage.Claiming? then 3 else if stage.Working? then 2 else if stage.Ended? then 1 else 0
  }

  function Next(s: State, i: nat): Event
    requires i < |s.ledger|
  {
    match s.ledger[i]
    case Claim(_, _, _, _, _) => SettleClaim(i, 0, false)
    case Slot(_, _, _, _, stage) =>
      if stage.Claiming? then SettleCompletion(i, 0) else if stage.Working? then ExecutionEnds(i) else Observe(i, false)
  }

  /** The two states are in the same phase of the same run. */
  predicate SamePhase(s: State, t: State) {
    && t.run == s.run && t.live == s.live && t.stopping == s.stopping && |t.ledger| == |s.ledger|
    && t.concurrency == s.concurrency && t.capacity == s.capacity
  }

  lemma NextBringsNearer(s: State, i: nat)
    requires Inv(s) && i < |s.ledger| && !Over(s, i)
    ensures var t := Step(s, Next(s, i));
            && SamePhase(s, t) && Rank(t.ledger[i]) < Rank(s.ledger[i])
            && forall j :: 0 <= j < |s.ledger| && j != i ==> t.ledger[j] == s.ledger[j]
  {
    assert EntryOk(s.ledger[i], s.run) && (!s.live ==> s.ledger[i].run < s.run);
  }

  lemma LineCanBeOver(s: State, i: nat) returns (events: seq<Event>)
    requires Inv(s) && i < |s.ledger|
    ensures var t := Run(s, events);
            && Inv(t) && SamePhase(s, t) && Over(t, i)
            && forall j :: 0 <= j < |s.ledger| && j != i ==> t.ledger[j] == s.ledger[j]
    decreases Rank(s.ledger[i])
  {
    events := [];
    if !Over(s, i) {
      var e := Next(s, i);
      NextBringsNearer(s, i);
      StepInv(s, e);
      var rest := LineCanBeOver(Step(s, e), i);
      events := [e] + rest;
      RunFirst(s, e, rest);
    }
  }

  lemma {:induction false} RunConcat(s: State, front: seq<Event>, back: seq<Event>)
    ensures Run(s, front + back) == Run(Run(s, front), back)
  {
    if |back| == 0 {
      assert front + back == front;
    } else {
      var n := |back| - 1;
      assert (front + back)[..|front + back| - 1] == front + back[..n];
      RunConcat(s, front, back[..n]);
    }
  }

  lemma RunOne(s: State, e: Event)
    ensures Run(s, [e]) == Step(s, e)
  {
    assert [e][..0] == [] && Run(s, []) == s;
  }

  lemma RunFirst(s: State, e: Event, rest: seq<Event>)
    ensures Run(s, [e] + rest) == Run(Step(s, e), rest)
  {
    RunOne(s, e);
    RunConcat(s, [e], rest);
  }

  lemma RunLast(s: State, front: seq<Event>, e: Event)
    ensures Run(s, front + [e]) == Step(Run(s, front), e)
  {
    RunOne(Run(s, front), e);
    RunConcat(s, front, [e]);
  }

  // ----- All lines end -------------------------------------------------------------------------------------

  lemma {:induction false} LinesCanBeOver(s: State, n: nat) returns (events: seq<Event>)
    requires Inv(s) && n <= |s.ledger|
    ensures var t := Run(s, events); Inv(t) && SamePhase(s, t) && forall i :: 0 <= i < n ==> Over(t, i)
  {
    events := [];
    if n > 0 {
      events := LinesCanBeOver(s, n - 1);
      var t := Run(s, events);
      var more := LineCanBeOver(t, n - 1);
      RunConcat(s, events, more);
      forall i | 0 <= i < n ensures Over(Run(t, more), i) {
        assert i < n - 1 ==> Over(t, i);
      }
      events := events + more;
    }
  }

  /** Every slot of the worker and of each cohort is free. */
  ghost predicate AllFree(s: State) {
    FreeSlots(s) == s.concurrency && forall c :: 0 <= c < |s.capacity| ==> CohortFree(s, c) == s.capacity[c]
  }

  lemma {:induction false} NothingPromised(es: seq<Entry>, run: nat)
    requires forall i :: 0 <= i < |es| ==> PromisedBy(es[i], run, true) == 0 && PromisedBy(es[i], run, false) == 0
    ensures Promised(es, run) == 0 && forall c :: PromisedIn(es, run, c) == 0
  {
    if |es| > 0 {
      NothingPromised(es[..|es| - 1], run);
    }
  }

  /** Once every line is over, no slot is taken, unless the run stops and leaves its results. */
  lemma OverIsFree(s: State)
    requires Inv(s) && forall i :: 0 <= i < |s.ledger| ==> Over(s, i)
    requires s.stopping ==> !s.live
    ensures AllFree(s)
  {
    forall i | 0 <= i < |s.ledger|
      ensures PromisedBy(s.ledger[i], s.run, true) == 0 && PromisedBy(s.ledger[i], s.run, false) == 0
    {
      assert Over(s, i) && EntryOk(s.ledger[i], s.run);
    }
    NothingPromised(s.ledger, s.run);
    FreeIsUnpromised(s);
  }

  /** Every execution of the run has ended, and the loop knows its result. */
  ghost predicate AllObserved(s: State) {
    forall i :: 0 <= i < |s.ledger| && IsSlot(s, i) && s.ledger[i].run == s.run ==> s.ledger[i].stage.Observed?
  }

  lemma SlotsCanComeBack(s: State) returns (events: seq<Event>)
    requires Inv(s) && !s.stopping
    ensures var t := Run(s, events); SamePhase(s, t) && AllFree(t) && AllObserved(t)
  {
    events := LinesCanBeOver(s, |s.ledger|);
    var t := Run(s, events);
    OverIsFree(t);
    forall i | 0 <= i < |t.ledger| && IsSlot(t, i) && t.ledger[i].run == t.run ensures t.ledger[i].stage.Observed? {
      assert Over(t, i);
    }
  }

  /** From every state that a run can reach, all slots can come back while the run goes on, and no result is left behind. */
  lemma EverySlotCanComeBack(concurrency: nat, cohorts: nat, events: seq<Event>) returns (more: seq<Event>)
    requires 1 <= cohorts <= concurrency && !Run(Init(concurrency, cohorts), events).stopping
    ensures var s, t := Run(Init(concurrency, cohorts), events), Run(Init(concurrency, cohorts), events + more);
            SamePhase(s, t) && AllFree(t) && AllObserved(t)
  {
    var init := Init(concurrency, cohorts);
    InitInv(concurrency, cohorts);
    RunInv(init, events);
    more := SlotsCanComeBack(Run(init, events));
    RunConcat(init, events, more);
  }

  lemma EndedIsFree(s: State)
    requires Inv(s) && s.live && s.stopping && forall i :: 0 <= i < |s.ledger| ==> Over(s, i)
    ensures var t := Step(s, EndRun); t.run == s.run + 1 && !t.live && !t.stopping && t.concurrency == s.concurrency && AllFree(t)
  {
    forall i: nat ensures !InFlight(s, i) && !ClaimsAt(s, i) {
      assert i < |s.ledger| ==> Over(s, i);
    }
    QuietIsCounted(s);
    StepInv(s, EndRun);
    forall i | 0 <= i < |s.ledger| ensures Over(Step(s, EndRun), i) {
      assert Over(s, i) && EntryOk(s.ledger[i], s.run);
    }
    OverIsFree(Step(s, EndRun));
  }

  lemma CanEnd(s: State) returns (events: seq<Event>)
    requires Inv(s) && s.live
    ensures var t := Run(s, events);
            t.run == s.run + 1 && !t.live && !t.stopping && t.concurrency == s.concurrency && AllFree(t)
  {
    var stopping := Step(s, Stop);
    StepInv(s, Stop);
    var last := LinesCanBeOver(stopping, |stopping.ledger|);
    EndedIsFree(Run(stopping, last));
    RunLast(stopping, last, EndRun);
    RunFirst(s, Stop, last + [EndRun]);
    events := [Stop] + (last + [EndRun]);
  }

  /** From every state that a run can reach while it is under way, it can be ended, and the next one then has every slot. */
  lemma EveryRunCanEnd(concurrency: nat, cohorts: nat, events: seq<Event>) returns (more: seq<Event>)
    requires 1 <= cohorts <= concurrency && Run(Init(concurrency, cohorts), events).live
    ensures var s, t := Run(Init(concurrency, cohorts), events), Run(Init(concurrency, cohorts), events + more);
            t.run == s.run + 1 && !t.live && !t.stopping && t.concurrency == s.concurrency && AllFree(t)
  {
    var init := Init(concurrency, cohorts);
    InitInv(concurrency, cohorts);
    RunInv(init, events);
    more := CanEnd(Run(init, events));
    RunConcat(init, events, more);
  }
}
