/** The dispatch loop never promises a slot twice, over every run of one worker. */
module DispatchProofs {
  import opened Prelude
  import opened Dispatch

  // ----- What the counters count -----------------------------------------------------------------

  datatype Kind =
    | Active | HandedOver | Completing | Held | EndedHeld  // executions
    | Reserved | Share                                     // slots that claims of either sort reserve
    | Plain | Whole                                        // plain claims

  function Weight(kind: Kind, run: nat, e: Entry): int {
    var current := e.run == run;
    match e
    case Slot(_, _, handedOver, released, stage) => (
      match kind
      case Active => if current && !stage.Observed? then 1 else 0
      case HandedOver => if current && !stage.Observed? && handedOver then 1 else 0
      case Completing => if current && stage.Claiming? then 1 else 0
      case Held => if current && !released then 1 else 0
      case EndedHeld => if !current && !released then 1 else 0
      case Reserved => if current && stage.Claiming? then stage.limit else 0
      case Share => if current && stage.Claiming? then stage.limit else 0
      case Plain => 0
      case Whole => 0)
    case Claim(_, limit, target, share, settled) =>
      if !current || settled then 0
      else
        match kind
        case Reserved => limit
        case Share => share
        case Plain => 1
        case Whole => if target.None? then 1 else 0
        case _ => 0
  }

  /** The total of `kind`, in the whole worker or in one cohort. */
  function Total(kind: Kind, cohort: Option<nat>, run: nat, es: seq<Entry>): int {
    if |es| == 0 then 0
    else
      var e := es[|es| - 1];
      Total(kind, cohort, run, es[..|es| - 1])
      + if cohort.None? || CohortOf(e) == cohort then Weight(kind, run, e) else 0
  }

  function Counter(s: State, kind: Kind): int {
    match kind
    case Active => s.active
    case HandedOver => s.handedOver
    case Completing => s.completionClaims
    case Held => s.held
    case EndedHeld => s.endedRunSlots
    case Reserved => s.reserved
    case Share => Sum(s.cohortReserved)
    case Plain => s.claimsInFlight
    case Whole => s.wholeClaims
  }

  datatype CohortKind = CActive | CHandedOver | CShare | CPlain

  function Counted(kind: CohortKind): Kind {
    match kind
    case CActive => Active
    case CHandedOver => HandedOver
    case CShare => Share
    case CPlain => Plain
  }

  function CohortCounters(s: State, kind: CohortKind): seq<int> {
    match kind
    case CActive => s.cohortActive
    case CHandedOver => s.cohortHandedOver
    case CShare => s.cohortReserved
    case CPlain => s.cohortClaims
  }

  // ----- The invariant ---------------------------------------------------------------------------

  predicate InRange(e: Entry, cohorts: nat) {
    CohortOf(e).Some? ==> CohortOf(e).value < cohorts
  }

  predicate EntryOk(e: Entry, run: nat) {
    && e.run <= run
    && match e
       case Slot(_, _, handedOver, released, stage) => (
         match stage
         case Working => handedOver == released
         case Claiming(limit) => e.run == run && handedOver && !released && limit >= 1
         case Ended => released
         case Observed => released)
       case Claim(_, limit, target, share, settled) =>
         1 <= limit && 0 <= share <= limit && (target.None? ==> share == 0) && (e.run < run ==> settled)
  }

  /** A claim in flight that asks for less than a refill batch. */
  predicate IsSmall(s: State, i: nat) {
    i < |s.ledger| && s.ledger[i].Claim? && !s.ledger[i].settled && s.ledger[i].limit < RefillBatch(s.concurrency)
  }

  ghost predicate Inv(s: State) {
    && Shape(s)
    && Sum(s.capacity) == s.concurrency
    && (forall c :: 0 <= c < |s.capacity| ==> s.capacity[c] >= 0)
    && (forall i :: 0 <= i < |s.ledger| ==> EntryOk(s.ledger[i], s.run) && InRange(s.ledger[i], |s.capacity|))
    && (!s.live ==> forall i :: 0 <= i < |s.ledger| ==> s.ledger[i].run < s.run)
    && (forall kind :: Counter(s, kind) == Total(kind, None, s.run, s.ledger))
    && (forall kind, c :: 0 <= c < |s.capacity| ==>
          CohortCounters(s, kind)[c] == Total(Counted(kind), Some(c), s.run, s.ledger))
    && (forall kind :: Sum(CohortCounters(s, kind)) == Counter(s, Counted(kind)) - if kind == CPlain then s.wholeClaims else 0)
    && s.activeSlots == s.held + s.endedRunSlots
    && FreeSlots(s) >= 0
    && (forall c :: 0 <= c < |s.capacity| ==> CohortFree(s, c) >= 0)
    && (forall i, j :: IsSmall(s, i) && IsSmall(s, j) ==> i == j)
  }

  // ----- Totals under a ledger change ------------------------------------------------------------

  /** The weight of a ledger line before a change, none for a line that the change appends. */
  function WeightOf(kind: Kind, run: nat, e: Option<Entry>): int {
    if e.Some? then Weight(kind, run, e.value) else 0
  }

  lemma TotalAppend(kind: Kind, cohort: Option<nat>, run: nat, es: seq<Entry>, e: Entry)
    ensures Total(kind, cohort, run, es + [e])
            == Total(kind, cohort, run, es) + if cohort.None? || CohortOf(e) == cohort then Weight(kind, run, e) else 0
  {
    assert (es + [e])[..|es|] == es;
  }

  lemma {:induction false} TotalUpdate(kind: Kind, cohort: Option<nat>, run: nat, es: seq<Entry>, i: nat, e: Entry)
    requires i < |es| && CohortOf(e) == CohortOf(es[i])
    ensures Total(kind, cohort, run, es[i := e])
            == Total(kind, cohort, run, es)
               + if cohort.None? || CohortOf(e) == cohort then Weight(kind, run, e) - Weight(kind, run, es[i]) else 0
  {
    var n := |es| - 1;
    if i == n {
      assert es[i := e][..n] == es[..n];
    } else {
      TotalUpdate(kind, cohort, run, es[..n], i, e);
      assert es[i := e][..n] == es[..n][i := e];
    }
  }

  /** `t` is `s` with one ledger line changed from `before` to `after`, or with `after` appended. */
  predicate LedgerStep(s: State, t: State, before: Option<Entry>, after: Entry) {
    && t.run == s.run
    && t.concurrency == s.concurrency
    && t.capacity == s.capacity
    && (before.None? ==> t.ledger == s.ledger + [after])
    && (before.Some? ==>
          CohortOf(before.value) == CohortOf(after)
          && exists i :: 0 <= i < |s.ledger| && s.ledger[i] == before.value && t.ledger == s.ledger[i := after])
  }

  /** Every counter moved by the change of weight of the one line. */
  predicate Follows(s: State, t: State, before: Option<Entry>, after: Entry)
    requires Shape(s) && Shape(t) && t.capacity == s.capacity
  {
    && (forall kind :: kind != Share ==> Counter(t, kind) == Counter(s, kind) + Weight(kind, s.run, after) - WeightOf(kind, s.run, before))
    && (forall kind, c :: 0 <= c < |s.capacity| ==>
          CohortCounters(t, kind)[c] == CohortCounters(s, kind)[c]
            + if CohortOf(after) == Some(c)
              then Weight(Counted(kind), s.run, after) - WeightOf(Counted(kind), s.run, before) else 0)
    && t.activeSlots == t.held + t.endedRunSlots
  }

  lemma LedgerStepTotals(s: State, t: State, before: Option<Entry>, after: Entry, kind: Kind, cohort: Option<nat>)
    requires LedgerStep(s, t, before, after)
    ensures Total(kind, cohort, t.run, t.ledger)
            == Total(kind, cohort, s.run, s.ledger)
               + if cohort.None? || CohortOf(after) == cohort
                 then Weight(kind, s.run, after) - WeightOf(kind, s.run, before) else 0
  {
    match before
    case None => TotalAppend(kind, cohort, s.run, s.ledger, after);
    case Some(e) =>
      var i :| 0 <= i < |s.ledger| && s.ledger[i] == e && t.ledger == s.ledger[i := after];
      TotalUpdate(kind, cohort, s.run, s.ledger, i, after);
  }

  /** A sequence that differs from `xs` by `d`, in one place or in none. */
  lemma SumShift(xs: seq<int>, ys: seq<int>, c: Option<nat>, d: int)
    requires |xs| == |ys| && (c.Some? ==> c.value < |xs|)
    requires forall k :: 0 <= k < |xs| ==> ys[k] == xs[k] + if c == Some(k) then d else 0
    ensures Sum(ys) == Sum(xs) + if c.Some? then d else 0
  {
    if c.Some? {
      SumUpdate(xs, c.value, xs[c.value] + d);
      assert ys == xs[c.value := xs[c.value] + d];
    } else {
      assert ys == xs;
    }
  }

  lemma FollowsSums(s: State, t: State, before: Option<Entry>, after: Entry, kind: CohortKind)
    requires Inv(s) && Shape(t) && LedgerStep(s, t, before, after) && Follows(s, t, before, after)
    requires EntryOk(after, s.run) && InRange(after, |s.capacity|)
    ensures Sum(CohortCounters(t, kind))
            == Sum(CohortCounters(s, kind))
               + if CohortOf(after).Some?
                 then Weight(Counted(kind), s.run, after) - WeightOf(Counted(kind), s.run, before) else 0
  {
    SumShift(CohortCounters(s, kind), CohortCounters(t, kind), CohortOf(after),
             Weight(Counted(kind), s.run, after) - WeightOf(Counted(kind), s.run, before));
  }

  lemma FollowsTotal(s: State, t: State, before: Option<Entry>, after: Entry, kind: Kind)
    requires Inv(s) && Shape(t) && LedgerStep(s, t, before, after) && Follows(s, t, before, after)
    requires EntryOk(after, s.run) && InRange(after, |s.capacity|)
    ensures Counter(t, kind) == Total(kind, None, t.run, t.ledger)
  {
    LedgerStepTotals(s, t, before, after, kind, None);
    if kind == Share {
      FollowsSums(s, t, before, after, CShare);
    }
  }

  lemma FollowsCohortSum(s: State, t: State, before: Option<Entry>, after: Entry, kind: CohortKind)
    requires Inv(s) && Shape(t) && LedgerStep(s, t, before, after) && Follows(s, t, before, after)
    requires EntryOk(after, s.run) && InRange(after, |s.capacity|)
    ensures Sum(CohortCounters(t, kind)) == Counter(t, Counted(kind)) - if kind == CPlain then t.wholeClaims else 0
  {
    FollowsSums(s, t, before, after, kind);
    assert Counter(s, Whole) == s.wholeClaims && Counter(t, Whole) == t.wholeClaims;
  }

  lemma FollowsCounters(s: State, t: State, before: Option<Entry>, after: Entry)
    requires Inv(s) && Shape(t) && LedgerStep(s, t, before, after) && Follows(s, t, before, after)
    requires EntryOk(after, s.run) && InRange(after, |s.capacity|)
    ensures forall kind :: Counter(t, kind) == Total(kind, None, t.run, t.ledger)
    ensures forall kind :: Sum(CohortCounters(t, kind)) == Counter(t, Counted(kind)) - if kind == CPlain then t.wholeClaims else 0
  {
    forall kind ensures Counter(t, kind) == Total(kind, None, t.run, t.ledger) {
      FollowsTotal(s, t, before, after, kind);
    }
    forall kind
      ensures Sum(CohortCounters(t, kind)) == Counter(t, Counted(kind)) - if kind == CPlain then t.wholeClaims else 0
    {
      FollowsCohortSum(s, t, before, after, kind);
    }
  }

  lemma FollowsCohorts(s: State, t: State, before: Option<Entry>, after: Entry)
    requires Inv(s) && Shape(t) && LedgerStep(s, t, before, after) && Follows(s, t, before, after)
    ensures forall kind, c :: 0 <= c < |t.capacity| ==>
              CohortCounters(t, kind)[c] == Total(Counted(kind), Some(c), t.run, t.ledger)
    ensures forall c :: 0 <= c < |t.capacity| && CohortOf(after) != Some(c) ==> CohortFree(t, c) >= 0
  {
    forall kind, c | 0 <= c < |t.capacity|
      ensures CohortCounters(t, kind)[c] == Total(Counted(kind), Some(c), t.run, t.ledger)
    {
      LedgerStepTotals(s, t, before, after, Counted(kind), Some(c));
    }
    forall c | 0 <= c < |t.capacity| && CohortOf(after) != Some(c) ensures CohortFree(t, c) >= 0 {
      assert CohortCounters(t, CActive)[c] == CohortCounters(s, CActive)[c];
      assert CohortCounters(t, CHandedOver)[c] == CohortCounters(s, CHandedOver)[c];
      assert CohortCounters(t, CShare)[c] == CohortCounters(s, CShare)[c];
      assert CohortFree(s, c) >= 0;
    }
  }

  /** One ledger line changed, its counters followed, and every slot is still promised once. */
  lemma FollowsInv(s: State, t: State, before: Option<Entry>, after: Entry)
    requires Inv(s) && Shape(t) && LedgerStep(s, t, before, after) && Follows(s, t, before, after)
    requires EntryOk(after, s.run) && InRange(after, |s.capacity|)
    requires t.live == s.live && (before.None? ==> s.live)
    requires before.Some? ==> before.value.run == after.run
    requires FreeSlots(t) >= 0 && (CohortOf(after).Some? ==> CohortFree(t, CohortOf(after).value) >= 0)
    requires forall i, j :: IsSmall(t, i) && IsSmall(t, j) ==> i == j
    ensures Inv(t)
  {
    FollowsCounters(s, t, before, after);
    FollowsCohorts(s, t, before, after);
    forall i | 0 <= i < |t.ledger| ensures EntryOk(t.ledger[i], t.run) && InRange(t.ledger[i], |t.capacity|) {
      assert t.ledger[i] == after || (i < |s.ledger| && t.ledger[i] == s.ledger[i]);
    }
  }

  // ----- The pigeonhole over cohorts -------------------------------------------------------------

  /** RoomiestOf is the first cohort that no other one exceeds. */
  lemma {:induction false} RoomiestIsFirstMaximum(s: State, count: nat)
    requires count >= 1
    ensures RoomiestOf(s, count) < count
    ensures forall c :: 0 <= c < count ==> CohortFree(s, c) <= CohortFree(s, RoomiestOf(s, count))
    ensures forall c :: 0 <= c < RoomiestOf(s, count) ==> CohortFree(s, c) < CohortFree(s, RoomiestOf(s, count))
  {
    if count > 1 {
      RoomiestIsFirstMaximum(s, count - 1);
    }
  }

  lemma {:induction false} TotalAtLeast(lesser: Kind, greater: Kind, run: nat, es: seq<Entry>)
    requires forall i :: 0 <= i < |es| ==> Weight(lesser, run, es[i]) <= Weight(greater, run, es[i])
    ensures Total(lesser, None, run, es) <= Total(greater, None, run, es)
  {
    if |es| > 0 {
      TotalAtLeast(lesser, greater, run, es[..|es| - 1]);
    }
  }

  lemma {:induction false} TotalNonNegative(kind: Kind, run: nat, es: seq<Entry>)
    requires forall i :: 0 <= i < |es| ==> EntryOk(es[i], run)
    ensures Total(kind, None, run, es) >= 0
  {
    if |es| > 0 {
      TotalNonNegative(kind, run, es[..|es| - 1]);
    }
  }

  lemma {:induction false} SumCombined(f: seq<int>, k: seq<int>, a: seq<int>, h: seq<int>, r: seq<int>)
    requires |f| == |k| == |a| == |h| == |r|
    requires forall i :: 0 <= i < |f| ==> f[i] == k[i] - a[i] + h[i] - r[i]
    ensures Sum(f) == Sum(k) - Sum(a) + Sum(h) - Sum(r)
  {
    var n := |f| - 1;
    if |f| > 0 {
      SumCombined(f[..n], k[..n], a[..n], h[..n], r[..n]);
    }
  }

  function FreeOf(s: State): seq<int> {
    seq(|s.capacity|, c requires 0 <= c => CohortFree(s, c))
  }

  /** A free slot of the worker is a free slot of some cohort, so of the roomiest one. */
  lemma RoomiestHasRoom(s: State)
    requires Inv(s) && FreeSlots(s) > 0
    ensures Roomiest(s) < |s.capacity| && CohortFree(s, Roomiest(s)) > 0
  {
    SumCombined(FreeOf(s), s.capacity, s.cohortActive, s.cohortHandedOver, s.cohortReserved);
    TotalAtLeast(Share, Reserved, s.run, s.ledger);
    TotalNonNegative(EndedHeld, s.run, s.ledger);
    assert Counter(s, Share) == Total(Share, None, s.run, s.ledger) && Counter(s, Reserved) == s.reserved;
    assert Sum(CohortCounters(s, CActive)) == Counter(s, Counted(CActive)) == s.active;
    assert Sum(CohortCounters(s, CHandedOver)) == Counter(s, Counted(CHandedOver)) == s.handedOver;
    assert Counter(s, EndedHeld) == s.endedRunSlots;
    SumPositive(FreeOf(s));
    var c :| 0 <= c < |s.capacity| && FreeOf(s)[c] > 0;
    RoomiestIsFirstMaximum(s, |s.capacity|);
    assert CohortFree(s, c) > 0;
  }

  // ----- Every step keeps the invariant ----------------------------------------------------------

  lemma LaunchInv(s: State, preferred: Option<nat>)
    requires Inv(s) && s.live && FreeSlots(s) > 0
    requires preferred.Some? ==> preferred.value < |s.capacity|
    ensures Inv(Launch(s, preferred)) && Launch(s, preferred).live
    ensures FreeSlots(Launch(s, preferred)) == FreeSlots(s) - 1
  {
    RoomiestHasRoom(s);
    var t := Launch(s, preferred);
    var e := Slot(s.run, LaunchCohort(s, preferred), false, false, Working);
    assert forall i :: IsSmall(t, i) ==> IsSmall(s, i);
    FollowsInv(s, t, None, e);
  }

  lemma {:induction false} LaunchAllInv(s: State, tasks: nat, preferred: Option<nat>)
    requires Inv(s) && s.live && FreeSlots(s) >= tasks
    requires preferred.Some? ==> preferred.value < |s.capacity|
    ensures Inv(LaunchAll(s, tasks, preferred)) && LaunchAll(s, tasks, preferred).live
    ensures FreeSlots(LaunchAll(s, tasks, preferred)) == FreeSlots(s) - tasks
  {
    var t, i := s, 0;
    while i < tasks
      invariant i <= tasks && t == LaunchAll(s, i, preferred) && t.capacity == s.capacity
      invariant Inv(t) && t.live && FreeSlots(t) == FreeSlots(s) - i
    {
      LaunchInv(t, preferred);
      t, i := Launch(t, preferred), i + 1;
    }
  }

  lemma StartClaimInv(s: State, limit: int, target: Option<nat>, share: int)
    requires Inv(s) && s.live && 1 <= limit <= FreeSlots(s)
    requires target.Some? ==> target.value < |s.capacity| && 0 <= share <= Min(limit, CohortFree(s, target.value))
    requires target.None? ==> share == 0
    requires limit < RefillBatch(s.concurrency) ==> forall i :: !IsSmall(s, i)
    ensures Inv(StartClaim(s, limit, target, share))
  {
    var t := StartClaim(s, limit, target, share);
    var e := Claim(s.run, limit, target, share, false);
    assert forall i: nat :: IsSmall(t, i) && i < |s.ledger| ==> IsSmall(s, i);
    FollowsInv(s, t, None, e);
  }

  lemma EndClaimFollows(s: State, i: nat)
    requires Shape(s) && s.activeSlots == s.held + s.endedRunSlots
    requires i < |s.ledger| && EntryOk(s.ledger[i], s.run) && InRange(s.ledger[i], |s.capacity|)
    requires s.ledger[i].Claim? && s.ledger[i].run == s.run && !s.ledger[i].settled
    ensures var t, after := EndClaim(s, i), s.ledger[i].(settled := true);
            && Shape(t) && t.ledger == s.ledger[i := after] && t.live == s.live
            && LedgerStep(s, t, Some(s.ledger[i]), after) && Follows(s, t, Some(s.ledger[i]), after)
            && FreeSlots(t) == FreeSlots(s) + s.ledger[i].limit
            && (after.target.Some? ==> CohortFree(t, after.target.value) >= CohortFree(s, after.target.value))
  {
  }

  lemma EndClaimInv(s: State, i: nat)
    requires Inv(s) && s.live && i < |s.ledger| && s.ledger[i].Claim? && s.ledger[i].run == s.run && !s.ledger[i].settled
    ensures Inv(EndClaim(s, i)) && EndClaim(s, i).live
    ensures FreeSlots(EndClaim(s, i)) == FreeSlots(s) + s.ledger[i].limit
  {
    var t := EndClaim(s, i);
    var e := s.ledger[i];
    assert EntryOk(e, s.run);
    assert e.target.Some? ==> CohortFree(s, e.target.value) >= 0;
    EndClaimFollows(s, i);
    assert forall j :: IsSmall(t, j) ==> IsSmall(s, j);
    FollowsInv(s, t, Some(e), e.(settled := true));
  }

  lemma ReserveInv(s: State, i: nat)
    requires Inv(s) && s.live && IsSlot(s, i) && s.ledger[i].run == s.run
    requires s.ledger[i].stage.Working? && !s.ledger[i].released
    ensures Inv(ReserveFor(s, i))
  {
    var t := ReserveFor(s, i);
    var e := s.ledger[i];
    assert EntryOk(e, s.run);
    assert forall j :: IsSmall(t, j) ==> IsSmall(s, j);
    FollowsInv(s, t, Some(e), e.(handedOver := true, stage := Claiming(CompletionLimit(s, e.cohort))));
  }

  lemma EndCompletionFollows(s: State, i: nat, replaced: bool)
    requires Shape(s) && s.activeSlots == s.held + s.endedRunSlots
    requires IsSlot(s, i) && EntryOk(s.ledger[i], s.run) && s.ledger[i].stage.Claiming? && s.ledger[i].cohort < |s.capacity|
    ensures var t, after := EndCompletion(s, i, replaced), s.ledger[i].(stage := Working, released := replaced, handedOver := replaced);
            && Shape(t) && t.ledger == s.ledger[i := after] && t.live == s.live
            && LedgerStep(s, t, Some(s.ledger[i]), after) && Follows(s, t, Some(s.ledger[i]), after)
            && FreeSlots(t) == FreeSlots(s) + s.ledger[i].stage.limit - (if replaced then 0 else 1)
            && CohortFree(t, after.cohort) >= CohortFree(s, after.cohort)
  {
    assert EndCompletion(s, i, replaced).ledger
        == s.ledger[i := s.ledger[i].(stage := Working, released := replaced, handedOver := replaced)];
  }

  lemma EndCompletionInv(s: State, i: nat, replaced: bool)
    requires Inv(s) && s.live && IsSlot(s, i) && s.ledger[i].stage.Claiming?
    ensures Inv(EndCompletion(s, i, replaced)) && EndCompletion(s, i, replaced).live
    ensures FreeSlots(EndCompletion(s, i, replaced))
            == FreeSlots(s) + s.ledger[i].stage.limit - if replaced then 0 else 1
  {
    var t := EndCompletion(s, i, replaced);
    var e := s.ledger[i];
    var e' := e.(stage := Working, released := replaced, handedOver := replaced);
    assert EntryOk(e, s.run) && CohortFree(s, e.cohort) >= 0;
    EndCompletionFollows(s, i, replaced);
    assert forall j :: IsSmall(t, j) ==> IsSmall(s, j);
    FollowsInv(s, t, Some(e), e');
  }

  /** The execution returns its slot, unless its fused claim already handed the slot over. */
  lemma EndExecutionFollows(s: State, i: nat)
    requires Shape(s) && s.activeSlots == s.held + s.endedRunSlots
    requires IsSlot(s, i) && EntryOk(s.ledger[i], s.run) && s.ledger[i].stage.Working?
    ensures var t, after := EndExecution(s, i), s.ledger[i].(released := true, stage := Ended);
            && Shape(t) && t.ledger == s.ledger[i := after]
            && LedgerStep(s, t, Some(s.ledger[i]), after) && Follows(s, t, Some(s.ledger[i]), after)
            && FreeSlots(t) >= FreeSlots(s) && CohortFree(t, after.cohort) == CohortFree(s, after.cohort)
  {
    assert EndExecution(s, i).ledger == s.ledger[i := s.ledger[i].(released := true, stage := Ended)];
  }

  lemma EndExecutionInv(s: State, i: nat)
    requires Inv(s) && IsSlot(s, i) && s.ledger[i].stage.Working?
    ensures Inv(EndExecution(s, i))
  {
    var t := EndExecution(s, i);
    var e := s.ledger[i];
    assert EntryOk(e, s.run) && CohortFree(s, e.cohort) >= 0;
    EndExecutionFollows(s, i);
    assert forall j :: IsSmall(t, j) ==> IsSmall(s, j);
    FollowsInv(s, t, Some(e), e.(released := true, stage := Ended));
  }

  lemma ObserveFollows(s: State, i: nat, failed: bool)
    requires Shape(s) && s.activeSlots == s.held + s.endedRunSlots
    requires IsSlot(s, i) && EntryOk(s.ledger[i], s.run) && s.ledger[i].run == s.run && s.ledger[i].stage.Ended?
    ensures var t, after := ObserveResult(s, i, failed), s.ledger[i].(stage := Observed);
            && Shape(t) && t.ledger == s.ledger[i := after] && t.live == s.live
            && LedgerStep(s, t, Some(s.ledger[i]), after) && Follows(s, t, Some(s.ledger[i]), after)
            && FreeSlots(t) >= FreeSlots(s) && CohortFree(t, after.cohort) >= CohortFree(s, after.cohort)
  {
    assert ObserveResult(s, i, failed).ledger == s.ledger[i := s.ledger[i].(stage := Observed)];
  }

  lemma ObserveInv(s: State, i: nat, failed: bool)
    requires Inv(s) && IsSlot(s, i) && s.ledger[i].run == s.run && s.ledger[i].stage.Ended?
    ensures Inv(ObserveResult(s, i, failed))
  {
    var t := ObserveResult(s, i, failed);
    var e := s.ledger[i];
    assert EntryOk(e, s.run) && CohortFree(s, e.cohort) >= 0;
    ObserveFollows(s, i, failed);
    assert forall j :: IsSmall(t, j) ==> IsSmall(s, j);
    FollowsInv(s, t, Some(e), e.(stage := Observed));
  }

  // ----- The end of a run ------------------------------------------------------------------------

  /** An execution holds a slot that was not handed over, or one that its fused claim reserved. */
  lemma {:induction false} HeldBounded(run: nat, es: seq<Entry>)
    requires forall i :: 0 <= i < |es| ==> EntryOk(es[i], run)
    ensures Total(Held, None, run, es)
            <= Total(Active, None, run, es) - Total(HandedOver, None, run, es) + Total(Reserved, None, run, es)
  {
    if |es| > 0 {
      HeldBounded(run, es[..|es| - 1]);
    }
  }

  lemma {:induction false} NoneLeft(kind: Kind, run: nat, es: seq<Entry>)
    requires forall i :: 0 <= i < |es| ==> EntryOk(es[i], run)
    requires Total(kind, None, run, es) <= 0
    ensures forall i :: 0 <= i < |es| ==> Weight(kind, run, es[i]) == 0
  {
    if |es| > 0 {
      TotalNonNegative(kind, run, es[..|es| - 1]);
      NoneLeft(kind, run, es[..|es| - 1]);
    }
  }

  lemma {:induction false} TotalRetire(kind: Kind, cohort: Option<nat>, run: nat, es: seq<Entry>)
    requires forall i :: 0 <= i < |es| ==> es[i].run <= run
    ensures kind != EndedHeld ==> Total(kind, cohort, run + 1, es) == 0
    ensures Total(EndedHeld, None, run + 1, es) == Total(EndedHeld, None, run, es) + Total(Held, None, run, es)
  {
    if |es| > 0 {
      TotalRetire(kind, cohort, run, es[..|es| - 1]);
    }
  }

  lemma FinishEntries(s: State)
    requires Inv(s) && s.claimsInFlight <= 0 && s.completionClaims <= 0
    ensures var t := Finish(s);
            forall i :: 0 <= i < |t.ledger| ==> EntryOk(t.ledger[i], t.run) && InRange(t.ledger[i], |t.capacity|)
  {
    var t := Finish(s);
    assert Counter(s, Plain) <= 0 && Counter(s, Completing) <= 0;
    NoneLeft(Plain, s.run, s.ledger);
    NoneLeft(Completing, s.run, s.ledger);
    forall i | 0 <= i < |t.ledger| ensures EntryOk(t.ledger[i], t.run) && InRange(t.ledger[i], |t.capacity|) {
      assert EntryOk(s.ledger[i], s.run) && Weight(Plain, s.run, s.ledger[i]) == 0;
      assert Weight(Completing, s.run, s.ledger[i]) == 0;
    }
  }

  lemma FinishCounters(s: State)
    requires Inv(s)
    ensures var t := Finish(s);
            && (forall kind :: Sum(CohortCounters(t, kind)) == 0)
            && (forall kind :: Counter(t, kind) == Total(kind, None, t.run, t.ledger))
            && (forall kind, c :: 0 <= c < |t.capacity| ==>
                  CohortCounters(t, kind)[c] == Total(Counted(kind), Some(c), t.run, t.ledger))
  {
    var t := Finish(s);
    assert forall kind :: Counter(s, kind) == Total(kind, None, s.run, s.ledger);
    forall kind ensures Sum(CohortCounters(t, kind)) == 0 {
      SumZero(CohortCounters(t, kind));
    }
    forall kind ensures Counter(t, kind) == Total(kind, None, t.run, t.ledger) {
      TotalRetire(kind, None, s.run, s.ledger);
      SumZero(t.cohortReserved);
    }
    forall kind, c | 0 <= c < |t.capacity|
      ensures CohortCounters(t, kind)[c] == Total(Counted(kind), Some(c), t.run, t.ledger)
    {
      TotalRetire(Counted(kind), Some(c), s.run, s.ledger);
    }
  }

  lemma FinishInv(s: State)
    requires Inv(s) && s.claimsInFlight <= 0 && s.completionClaims <= 0
    ensures Inv(Finish(s))
  {
    var t := Finish(s);
    HeldBounded(s.run, s.ledger);
    assert forall kind :: Counter(s, kind) == Total(kind, None, s.run, s.ledger);
    FinishEntries(s);
    FinishCounters(s);
    assert forall i, j :: IsSmall(t, i) && IsSmall(t, j) ==> IsSmall(s, i) && IsSmall(s, j);
  }

  // ----- Every run -------------------------------------------------------------------------------

  /** The flags count nothing. */
  lemma FlagsInv(s: State, live: bool, stopping: bool)
    requires Inv(s) && (s.live ==> live)
    ensures Inv(s.(live := live, stopping := stopping))
  {
    var t := s.(live := live, stopping := stopping);
    assert forall kind :: Counter(t, kind) == Counter(s, kind);
    assert forall kind :: CohortCounters(t, kind) == CohortCounters(s, kind);
    assert forall c :: 0 <= c < |s.capacity| ==> CohortFree(t, c) == CohortFree(s, c);
    assert forall i :: IsSmall(t, i) ==> IsSmall(s, i);
  }

  lemma NoClaimIsSmall(s: State)
    requires Inv(s) && s.claimsInFlight <= 0
    ensures forall i: nat :: !IsSmall(s, i)
  {
    assert Counter(s, Plain) <= 0;
    NoneLeft(Plain, s.run, s.ledger);
    assert forall i: nat :: i < |s.ledger| ==> EntryOk(s.ledger[i], s.run) && Weight(Plain, s.run, s.ledger[i]) == 0;
  }

  lemma StartWholeClaimInv(s: State)
    requires Inv(s) && s.live && StartsWholeClaim(s)
    ensures Inv(StartedWholeClaim(s))
  {
    if s.claimsInFlight <= 0 {
      NoClaimIsSmall(s);
    }
    StartClaimInv(s, FreeSlots(s), None, 0);
  }

  lemma StartCohortClaimInv(s: State, allFast: bool)
    requires Inv(s) && s.live && StartsCohortClaim(s)
    ensures Inv(StartedCohortClaim(s, allFast))
  {
    NoClaimIsSmall(s);
    RoomiestHasRoom(s);
    var c := Roomiest(s);
    var share := Min(FreeSlots(s), CohortFree(s, c));
    StartClaimInv(s, if allFast then share else FreeSlots(s), Some(c), share);
  }

  lemma SettledClaimInv(s: State, i: nat, tasks: nat, failed: bool)
    requires Inv(s) && Enabled(s, SettleClaim(i, tasks, failed))
    ensures Inv(SettledClaim(s, i, tasks, failed))
  {
    EndClaimInv(s, i);
    LaunchAllInv(EndClaim(s, i), tasks, s.ledger[i].target);
    var t := LaunchAll(EndClaim(s, i), tasks, s.ledger[i].target);
    FlagsInv(t, t.live, t.stopping || failed);
    assert t.(live := t.live, stopping := t.stopping || failed) == SettledClaim(s, i, tasks, failed);
  }

  lemma SettledCompletionInv(s: State, i: nat, tasks: nat)
    requires Inv(s) && Enabled(s, SettleCompletion(i, tasks))
    ensures Inv(SettledCompletion(s, i, tasks))
  {
    EndCompletionInv(s, i, tasks > 0);
    LaunchAllInv(EndCompletion(s, i, tasks > 0), tasks, Some(s.ledger[i].cohort));
  }

  lemma StepInv(s: State, e: Event)
    requires Inv(s)
    ensures Inv(Step(s, e))
  {
    if Enabled(s, e) {
      match e
      case BeginRun => FlagsInv(s, true, s.stopping);
      case StartWholeClaim =>
        if StartsWholeClaim(s) {
          StartWholeClaimInv(s);
        }
      case StartCohortClaim(allFast) =>
        if StartsCohortClaim(s) {
          StartCohortClaimInv(s, allFast);
        }
      case SettleClaim(i, tasks, failed) => SettledClaimInv(s, i, tasks, failed);
      case ReserveCompletion(i, gateOpen) =>
        if GrantsCompletion(s, i, gateOpen) {
          ReserveInv(s, i);
        }
      case SettleCompletion(i, tasks) => SettledCompletionInv(s, i, tasks);
      case ExecutionEnds(i) => EndExecutionInv(s, i);
      case Observe(i, failed) => ObserveInv(s, i, failed);
      case Stop => FlagsInv(s, s.live, true);
      case EndRun => FinishInv(s);
    }
  }

  /** The shares add up, with the remainder spread over the first cohorts. */
  lemma {:induction false} CapacitiesSum(even: nat, extra: nat, n: nat)
    ensures Sum(Capacities(even, extra, n)) == n * even + Min(n, extra)
  {
    if n > 0 {
      CapacitiesSum(even, extra, n - 1);
      var capacity := Capacities(even, extra, n);
      assert capacity[..n - 1] == Capacities(even, extra, n - 1);
      assert Sum(capacity) == Sum(capacity[..n - 1]) + capacity[n - 1];
      MultiplyOneMore(n - 1, even);
    }
  }

  lemma {:induction false} CapacitiesNonNegative(even: nat, extra: nat, n: nat)
    ensures forall c :: 0 <= c < n ==> Capacities(even, extra, n)[c] >= 0
  {
    if n > 0 {
      CapacitiesNonNegative(even, extra, n - 1);
    }
  }

  lemma MultiplyOneMore(n: int, even: int)
    ensures (n + 1) * even == n * even + even
  {
  }

  lemma DivideAndMultiply(concurrency: nat, cohorts: nat)
    requires cohorts > 0
    ensures cohorts * (concurrency / cohorts) + concurrency % cohorts == concurrency
    ensures concurrency % cohorts < cohorts
  {
  }

  lemma CapacitiesCoverConcurrency(concurrency: nat, cohorts: nat)
    requires 1 <= cohorts <= concurrency
    ensures Sum(Init(concurrency, cohorts).capacity) == concurrency
  {
    DivideAndMultiply(concurrency, cohorts);
    CapacitiesSum(concurrency / cohorts, concurrency % cohorts, cohorts);
  }

  lemma InitInv(concurrency: nat, cohorts: nat)
    requires 1 <= cohorts <= concurrency
    ensures Inv(Init(concurrency, cohorts))
  {
    var s := Init(concurrency, cohorts);
    CapacitiesCoverConcurrency(concurrency, cohorts);
    CapacitiesNonNegative(concurrency / cohorts, concurrency % cohorts, cohorts);
    assert forall kind :: CohortCounters(s, kind) == s.cohortActive;
    SumZero(s.cohortActive);
  }

  lemma {:induction false} RunInv(s: State, events: seq<Event>)
    requires Inv(s)
    ensures Inv(Run(s, events))
  {
    if |events| > 0 {
      var t := Run(s, events[..|events| - 1]);
      RunInv(s, events[..|events| - 1]);
      StepInv(t, events[|events| - 1]);
    }
  }

  /** The slots that no one returned yet, over every execution the worker ever launched. */
  function Unreturned(es: seq<Entry>): nat {
    if |es| == 0 then 0
    else Unreturned(es[..|es| - 1]) + if es[|es| - 1].Slot? && !es[|es| - 1].released then 1 else 0
  }

  lemma {:induction false} UnreturnedIsHeld(run: nat, es: seq<Entry>)
    ensures Total(Held, None, run, es) + Total(EndedHeld, None, run, es) == Unreturned(es)
  {
    if |es| > 0 {
      UnreturnedIsHeld(run, es[..|es| - 1]);
    }
  }

  /**
   The promises of the dispatch loop: the slots that the current run holds and the slots of ended
   runs stay within the concurrency together, no free count is negative, the cohort counters sum to
   the totals, and activeSlots counts every slot that was not returned, so each slot returns exactly
   once.
   */
  ghost predicate WithinConcurrency(s: State) {
    && s.held + s.endedRunSlots <= s.concurrency
    && s.activeSlots == s.held + s.endedRunSlots == Unreturned(s.ledger)
    && FreeSlots(s) >= 0
    && (forall c :: 0 <= c < |s.capacity| ==> CohortFree(s, c) >= 0)
    && Sum(s.cohortActive) == s.active
    && Sum(s.cohortHandedOver) == s.handedOver
    && Sum(s.cohortReserved) <= s.reserved
    && Sum(s.cohortClaims) + s.wholeClaims == s.claimsInFlight
    && s.active <= s.concurrency + s.handedOver
  }

  lemma InvTotals(s: State)
    requires Inv(s)
    ensures s.held == Total(Held, None, s.run, s.ledger)
    ensures s.endedRunSlots == Total(EndedHeld, None, s.run, s.ledger) >= 0
    ensures s.active == Total(Active, None, s.run, s.ledger) == Sum(s.cohortActive)
    ensures 0 <= s.handedOver == Total(HandedOver, None, s.run, s.ledger) == Sum(s.cohortHandedOver) <= s.active
    ensures s.reserved == Total(Reserved, None, s.run, s.ledger) >= 0
    ensures Sum(s.cohortReserved) <= s.reserved
    ensures 0 <= s.claimsInFlight == Total(Plain, None, s.run, s.ledger) == Sum(s.cohortClaims) + s.wholeClaims <= s.reserved
  {
    assert forall kind :: Counter(s, kind) == Total(kind, None, s.run, s.ledger);
    assert Counter(s, Held) == s.held && Counter(s, EndedHeld) == s.endedRunSlots;
    assert Counter(s, Active) == s.active && Counter(s, HandedOver) == s.handedOver;
    assert Counter(s, Reserved) == s.reserved && Counter(s, Plain) == s.claimsInFlight;
    assert Counter(s, Share) == Sum(s.cohortReserved);
    forall kind ensures Total(kind, None, s.run, s.ledger) >= 0 {
      TotalNonNegative(kind, s.run, s.ledger);
    }
    TotalAtLeast(Share, Reserved, s.run, s.ledger);
    TotalAtLeast(HandedOver, Active, s.run, s.ledger);
    TotalAtLeast(Plain, Reserved, s.run, s.ledger);
    assert Sum(CohortCounters(s, CActive)) == Counter(s, Counted(CActive));
    assert Sum(CohortCounters(s, CHandedOver)) == Counter(s, Counted(CHandedOver));
    assert Sum(CohortCounters(s, CPlain)) == Counter(s, Counted(CPlain)) - s.wholeClaims;
  }

  lemma InvWithinConcurrency(s: State)
    requires Inv(s)
    ensures WithinConcurrency(s)
  {
    InvTotals(s);
    HeldBounded(s.run, s.ledger);
    UnreturnedIsHeld(s.run, s.ledger);
  }

  /** Over any sequence of runs of one worker. */
  lemma SlotsStayWithinConcurrency(concurrency: nat, cohorts: nat, events: seq<Event>)
    requires 1 <= cohorts <= concurrency
    ensures WithinConcurrency(Run(Init(concurrency, cohorts), events))
    ensures Run(Init(concurrency, cohorts), events).concurrency == concurrency
  {
    InitInv(concurrency, cohorts);
    RunInv(Init(concurrency, cohorts), events);
    InvWithinConcurrency(Run(Init(concurrency, cohorts), events));
    ConstantsStay(Init(concurrency, cohorts), events);
  }

  lemma {:induction false} ConstantsStay(s: State, events: seq<Event>)
    ensures Run(s, events).concurrency == s.concurrency && Run(s, events).capacity == s.capacity
  {
    if |events| > 0 {
      ConstantsStay(s, events[..|events| - 1]);
      StepConstants(Run(s, events[..|events| - 1]), events[|events| - 1]);
    }
  }

  lemma {:induction false} LaunchAllConstants(s: State, tasks: nat, preferred: Option<nat>)
    ensures LaunchAll(s, tasks, preferred).concurrency == s.concurrency
    ensures LaunchAll(s, tasks, preferred).capacity == s.capacity
  {
    if tasks > 0 {
      LaunchAllConstants(s, tasks - 1, preferred);
    }
  }

  lemma StepConstants(s: State, e: Event)
    ensures Step(s, e).concurrency == s.concurrency && Step(s, e).capacity == s.capacity
  {
    if Enabled(s, e) {
      if e.SettleClaim? {
        LaunchAllConstants(EndClaim(s, e.claim), e.tasks, s.ledger[e.claim].target);
      } else if e.SettleCompletion? {
        LaunchAllConstants(EndCompletion(s, e.slot, e.tasks > 0), e.tasks, Some(s.ledger[e.slot].cohort));
      }
    }
  }

  // ----- Few plain claims ------------------------------------------------------------------------

  /** All claims but at most one small one ask for a refill batch, so their reservations add up. */
  lemma {:induction false} ClaimsAreBig(s: State, n: nat)
    requires Inv(s) && n <= |s.ledger|
    ensures Total(Plain, None, s.run, s.ledger[..n]) >= 0
    ensures Total(Reserved, None, s.run, s.ledger[..n])
            >= RefillBatch(s.concurrency) * Total(Plain, None, s.run, s.ledger[..n])
               - if exists i :: 0 <= i < n && IsSmall(s, i) then Max(0, RefillBatch(s.concurrency) - 1) else 0
  {
    if n > 0 {
      ClaimsAreBig(s, n - 1);
      var b, e := RefillBatch(s.concurrency), s.ledger[n - 1];
      assert EntryOk(e, s.run);
      assert s.ledger[..n][..n - 1] == s.ledger[..n - 1];
      var plain := Total(Plain, None, s.run, s.ledger[..n - 1]);
      assert b * (plain + 1) == b * plain + b;
      if IsSmall(s, n - 1) {
        assert forall i :: 0 <= i < n - 1 ==> !IsSmall(s, i);
      }
    }
  }

  /** Five claims cannot be in flight: four of them would already reserve more than every slot. */
  lemma FourBatchesFill(claims: int, concurrency: nat, reserved: int)
    requires reserved >= RefillBatch(concurrency) * claims - Max(0, RefillBatch(concurrency) - 1)
    requires claims <= reserved <= concurrency
    ensures claims <= 4
  {
    var b := RefillBatch(concurrency);
    assert claims >= 5 ==> b * claims >= b * 5;
  }

  lemma InvFewClaims(s: State)
    requires Inv(s)
    ensures 0 <= s.claimsInFlight <= Min(4, s.concurrency) && s.reserved <= s.concurrency
  {
    InvTotals(s);
    ClaimsAreBig(s, |s.ledger|);
    assert s.ledger[..|s.ledger|] == s.ledger;
    FourBatchesFill(s.claimsInFlight, s.concurrency, s.reserved);
  }

  /**
   At most four plain claims are in flight, whatever the concurrency, and never more than the
   concurrency. The claimResults channel has that capacity, so a send on it never blocks.
   */
  lemma AtMostFourPlainClaims(concurrency: nat, cohorts: nat, events: seq<Event>)
    requires 1 <= cohorts <= concurrency
    ensures 0 <= Run(Init(concurrency, cohorts), events).claimsInFlight <= Min(4, concurrency)
    ensures Run(Init(concurrency, cohorts), events).reserved <= concurrency
  {
    InitInv(concurrency, cohorts);
    RunInv(Init(concurrency, cohorts), events);
    InvFewClaims(Run(Init(concurrency, cohorts), events));
    ConstantsStay(Init(concurrency, cohorts), events);
  }

  /** A fused claim asks for at least its own slot and never for more than the concurrency. */
  lemma ReservedWithinConcurrency(s: State, i: nat)
    requires Inv(s) && IsSlot(s, i) && s.ledger[i].stage.Claiming?
    ensures 1 <= s.ledger[i].stage.limit <= s.concurrency
  {
    assert EntryOk(s.ledger[i], s.run);
    InvTotals(s);
    WeightBelowTotal(Reserved, s.run, s.ledger, i);
  }

  lemma {:induction false} WeightBelowTotal(kind: Kind, run: nat, es: seq<Entry>, i: nat)
    requires i < |es| && forall j :: 0 <= j < |es| ==> EntryOk(es[j], run)
    ensures Weight(kind, run, es[i]) <= Total(kind, None, run, es)
  {
    var n := |es| - 1;
    TotalNonNegative(kind, run, es[..n]);
    if i < n {
      WeightBelowTotal(kind, run, es[..n], i);
    }
  }
}
