/**
 The dispatch loop of one worker: its executions with their slots, its plain and fused claims, and
 what is left of runs before the current one.

 A `State` holds the loop's counters beside the ledger of what they count. `Step` is one select case
 of the loop, or one action of an execution. `Run` folds any list of events, and a disabled event
 changes nothing, so a statement about `Run` is a statement about every run.
 */
module Dispatch {
  import opened Prelude

  /** What an execution is doing, as the loop can tell it. */
  datatype Stage =
    | Working
    | Claiming(limit: int)  // its fused completion claim is in flight
    | Ended                 // it returned, and its result waits for the loop
    | Observed              // the loop received that result

  /**
   One line of the ledger: an execution with the slot it holds, or a plain claim. `run` numbers the
   dispatch loop that made it. Without a `target`, `share` is zero.
   */
  datatype Entry =
    | Slot(run: nat, cohort: nat, handedOver: bool, released: bool, stage: Stage)
    | Claim(run: nat, limit: int, target: Option<nat>, share: int, settled: bool)

  datatype State = State(
    concurrency: nat,
    capacity: seq<int>,
    run: nat,
    live: bool,
    stopping: bool,
    activeSlots: int,
    endedRunSlots: int,
    held: int,
    active: int,
    handedOver: int,
    reserved: int,
    cohortActive: seq<int>,
    cohortHandedOver: seq<int>,
    cohortReserved: seq<int>,
    cohortClaims: seq<int>,
    wholeClaims: int,
    claimsInFlight: int,
    completionClaims: int,
    ledger: seq<Entry>)

  datatype Event =
    | BeginRun
    | StartWholeClaim
    | StartCohortClaim(allFast: bool)
    | SettleClaim(claim: nat, tasks: nat, failed: bool)
    | ReserveCompletion(slot: nat, gateOpen: bool)
    | SettleCompletion(slot: nat, tasks: nat)
    | ExecutionEnds(slot: nat)
    | Observe(slot: nat, failed: bool)
    | Stop
    | EndRun

  // ----- The loop's own arithmetic ---------------------------------------------------------------

  /** The fewest free slots that start a claim beside another one. */
  function RefillBatch(concurrency: nat): nat { (concurrency + 3) / 4 }

  /** The shares of the first `n` cohorts: each takes `even`, the first `extra` ones take one more. */
  function Capacities(even: nat, extra: nat, n: nat): (capacity: seq<int>)
    ensures |capacity| == n
  {
    if n == 0 then [] else Capacities(even, extra, n - 1) + [even + if n - 1 < extra then 1 else 0]
  }

  /** The counter of one cohort. Every cohort number in the ledger is in range, so none is missed. */
  function At(xs: seq<int>, cohort: nat): int { if cohort < |xs| then xs[cohort] else 0 }

  function Bump(xs: seq<int>, cohort: nat, change: int): seq<int> {
    if cohort < |xs| then xs[cohort := xs[cohort] + change] else xs
  }

  function Zeros(n: nat): (zeros: seq<int>)
    ensures |zeros| == n && forall i :: 0 <= i < n ==> zeros[i] == 0
  {
    seq(n, _ => 0)
  }

  function CohortOf(e: Entry): Option<nat> {
    match e
    case Slot(_, cohort, _, _, _) => Some(cohort)
    case Claim(_, _, target, _, _) => target
  }

  predicate Shape(s: State) {
    && |s.capacity| >= 1
    && |s.cohortActive| == |s.cohortHandedOver| == |s.cohortReserved| == |s.cohortClaims| == |s.capacity|
  }

  predicate IsSlot(s: State, i: nat) { i < |s.ledger| && s.ledger[i].Slot? }

  function FreeSlots(s: State): int {
    s.concurrency - s.endedRunSlots - s.active + s.handedOver - s.reserved
  }

  function CohortFree(s: State, cohort: nat): int {
    At(s.capacity, cohort) - At(s.cohortActive, cohort) + At(s.cohortHandedOver, cohort) - At(s.cohortReserved, cohort)
  }

  /** The least cohort below `count` that no other one there exceeds in free slots. */
  function RoomiestOf(s: State, count: nat): nat {
    if count <= 1 then 0
    else
      var best := RoomiestOf(s, count - 1);
      if CohortFree(s, count - 1) > CohortFree(s, best) then count - 1 else best
  }

  function Roomiest(s: State): nat {
    RoomiestOf(s, |s.capacity|)
  }

  // ----- Steps -----------------------------------------------------------------------------------

  function Init(concurrency: nat, cohorts: nat): (s: State)
    requires 1 <= cohorts <= concurrency
  {
    var zero := Zeros(cohorts);
    State(concurrency, Capacities(concurrency / cohorts, concurrency % cohorts, cohorts), 0, false, false, 0, 0, 0, 0, 0, 0,
          zero, zero, zero, zero, 0, 0, 0, [])
  }

  /** A task joins its claim's cohort while that has room, and otherwise the roomiest cohort. */
  function LaunchCohort(s: State, preferred: Option<nat>): nat {
    if preferred.None? || CohortFree(s, preferred.value) <= 0 then Roomiest(s) else preferred.value
  }

  function Launch(s: State, preferred: Option<nat>): State {
    var c := LaunchCohort(s, preferred);
    s.(held := s.held + 1,
       activeSlots := s.activeSlots + 1,
       active := s.active + 1,
       cohortActive := Bump(s.cohortActive, c, 1),
       ledger := s.ledger + [Slot(s.run, c, false, false, Working)])
  }

  function LaunchAll(s: State, tasks: nat, preferred: Option<nat>): State {
    if tasks == 0 then s else Launch(LaunchAll(s, tasks - 1, preferred), preferred)
  }

  function StartClaim(s: State, limit: int, target: Option<nat>, share: int): State {
    var t := s.(reserved := s.reserved + limit,
                claimsInFlight := s.claimsInFlight + 1,
                ledger := s.ledger + [Claim(s.run, limit, target, share, false)]);
    match target
    case None => t.(wholeClaims := s.wholeClaims + 1)
    case Some(c) => t.(cohortClaims := Bump(s.cohortClaims, c, 1),
                       cohortReserved := Bump(s.cohortReserved, c, share))
  }

  /** A claim returned: its reservation ends. */
  function EndClaim(s: State, i: nat): (t: State)
    requires i < |s.ledger| && s.ledger[i].Claim?
  {
    var e := s.ledger[i];
    var t := s.(reserved := s.reserved - e.limit,
                claimsInFlight := s.claimsInFlight - 1,
                ledger := s.ledger[i := e.(settled := true)]);
    match e.target
    case None => t.(wholeClaims := s.wholeClaims - 1)
    case Some(c) => t.(cohortClaims := Bump(s.cohortClaims, c, -1),
                       cohortReserved := Bump(s.cohortReserved, c, -e.share))
  }

  /** The slots a fused claim of `cohort` may ask for: the free ones and the completing task's own. */
  function CompletionLimit(s: State, cohort: nat): int {
    Min(FreeSlots(s), CohortFree(s, cohort)) + 1
  }

  predicate GrantsCompletion(s: State, i: nat, gateOpen: bool)
    requires IsSlot(s, i)
  {
    var e := s.ledger[i];
    && e.run == s.run
    && !s.stopping
    && gateOpen
    && ((s.wholeClaims > 0 || At(s.cohortClaims, e.cohort) > 0) ==>
        CompletionLimit(s, e.cohort) >= RefillBatch(s.concurrency))
  }

  function ReserveFor(s: State, i: nat): (t: State)
    requires IsSlot(s, i)
  {
    var e := s.ledger[i];
    var c := e.cohort;
    var limit := CompletionLimit(s, c);
    s.(reserved := s.reserved + limit,
       cohortReserved := Bump(s.cohortReserved, c, limit),
       handedOver := s.handedOver + 1,
       cohortHandedOver := Bump(s.cohortHandedOver, c, 1),
       completionClaims := s.completionClaims + 1,
       ledger := s.ledger[i := e.(handedOver := true, stage := Claiming(limit))])
  }

  /** dispatchSlot.release: the first caller returns the slot to its run, or to the ended runs. */
  function Release(s: State, i: nat): (t: State)
    requires IsSlot(s, i)
    ensures IsSlot(t, i)
  {
    var e := s.ledger[i];
    if e.released then s
    else
      var t := s.(activeSlots := s.activeSlots - 1, ledger := s.ledger[i := e.(released := true)]);
      if e.run == s.run then t.(held := s.held - 1) else t.(endedRunSlots := s.endedRunSlots - 1)
  }

  /** The fused claim returned: its reservation ends. */
  function EndReservation(s: State, i: nat): (t: State)
    requires IsSlot(s, i) && s.ledger[i].stage.Claiming?
    ensures IsSlot(t, i)
  {
    var e := s.ledger[i];
    s.(completionClaims := s.completionClaims - 1,
       reserved := s.reserved - e.stage.limit,
       cohortReserved := Bump(s.cohortReserved, e.cohort, -e.stage.limit),
       ledger := s.ledger[i := e.(stage := Working)])
  }

  /** Replacements take over the slot of the completing execution, or it has its slot back. */
  function EndCompletion(s: State, i: nat, replaced: bool): (t: State)
    requires IsSlot(s, i) && s.ledger[i].stage.Claiming?
  {
    var t := EndReservation(s, i);
    var c := s.ledger[i].cohort;
    if replaced then Release(t, i)
    else t.(handedOver := s.handedOver - 1,
            cohortHandedOver := Bump(s.cohortHandedOver, c, -1),
            ledger := t.ledger[i := t.ledger[i].(handedOver := false)])
  }

  function EndExecution(s: State, i: nat): (t: State)
    requires IsSlot(s, i)
  {
    var t := Release(s, i);
    t.(ledger := t.ledger[i := t.ledger[i].(stage := Ended)])
  }

  function ObserveResult(s: State, i: nat, failed: bool): (t: State)
    requires IsSlot(s, i)
  {
    var e := s.ledger[i];
    var c := e.cohort;
    var t := s.(active := s.active - 1,
                cohortActive := Bump(s.cohortActive, c, -1),
                ledger := s.ledger[i := e.(stage := Observed)],
                stopping := s.stopping || failed);
    if e.handedOver then
      t.(handedOver := s.handedOver - 1,
         cohortHandedOver := Bump(s.cohortHandedOver, c, -1))
    else t
  }

  /** endRun: the slots the run's executions still hold move to the ended runs. */
  function Finish(s: State): State {
    var zero := Zeros(|s.capacity|);
    s.(run := s.run + 1, live := false, stopping := false,
       endedRunSlots := s.endedRunSlots + s.held, held := 0,
       active := 0, handedOver := 0, reserved := 0,
       cohortActive := zero, cohortHandedOver := zero, cohortReserved := zero, cohortClaims := zero,
       wholeClaims := 0, claimsInFlight := 0, completionClaims := 0)
  }

  /** When the worker can take a step. A claim returns at most what it asked for. */
  predicate Enabled(s: State, e: Event) {
    match e
    case BeginRun => !s.live
    case StartWholeClaim => s.live && !s.stopping
    case StartCohortClaim(_) => s.live && !s.stopping && |s.capacity| > 1
    case SettleClaim(i, tasks, _) =>
      s.live && i < |s.ledger| && s.ledger[i].Claim? && s.ledger[i].run == s.run
      && !s.ledger[i].settled && tasks <= s.ledger[i].limit
    case ReserveCompletion(i, _) =>
      s.live && IsSlot(s, i) && s.ledger[i].stage.Working? && !s.ledger[i].released
    case SettleCompletion(i, tasks) =>
      s.live && IsSlot(s, i) && s.ledger[i].run == s.run
      && s.ledger[i].stage.Claiming? && tasks <= s.ledger[i].stage.limit
    case ExecutionEnds(i) => IsSlot(s, i) && s.ledger[i].stage.Working?
    case Observe(i, _) =>
      s.live && !s.stopping && IsSlot(s, i) && s.ledger[i].run == s.run && s.ledger[i].stage.Ended?
    case Stop => s.live
    case EndRun => s.live && s.stopping && s.claimsInFlight <= 0 && s.completionClaims <= 0
  }

  function SettledClaim(s: State, i: nat, tasks: nat, failed: bool): (t: State)
    requires i < |s.ledger| && s.ledger[i].Claim?
  {
    var t := LaunchAll(EndClaim(s, i), tasks, s.ledger[i].target);
    t.(stopping := t.stopping || failed)
  }

  function SettledCompletion(s: State, i: nat, tasks: nat): (t: State)
    requires IsSlot(s, i) && s.ledger[i].stage.Claiming?
  {
    LaunchAll(EndCompletion(s, i, tasks > 0), tasks, Some(s.ledger[i].cohort))
  }

  /** `RefillBatch` is the threshold beside a claim in flight; otherwise one free slot is enough. */
  predicate StartsWholeClaim(s: State) {
    FreeSlots(s) > 0 && (s.claimsInFlight > 0 ==> FreeSlots(s) >= RefillBatch(s.concurrency))
  }

  function StartedWholeClaim(s: State): State {
    if StartsWholeClaim(s) then StartClaim(s, FreeSlots(s), None, 0) else s
  }

  /** No plain claim may be in flight, whichever cohort it is for. */
  predicate StartsCohortClaim(s: State) { s.claimsInFlight == 0 && FreeSlots(s) > 0 }

  function StartedCohortClaim(s: State, allFast: bool): State {
    var c := Roomiest(s);
    var share := Min(FreeSlots(s), CohortFree(s, c));
    if StartsCohortClaim(s) then StartClaim(s, if allFast then share else FreeSlots(s), Some(c), share) else s
  }

  function AskedCompletion(s: State, i: nat, gateOpen: bool): State
    requires IsSlot(s, i)
  {
    if GrantsCompletion(s, i, gateOpen) then ReserveFor(s, i) else s
  }

  function Step(s: State, e: Event): State {
    if !Enabled(s, e) then s
    else
      match e
      case BeginRun => s.(live := true)
      case StartWholeClaim => StartedWholeClaim(s)
      case StartCohortClaim(allFast) => StartedCohortClaim(s, allFast)
      case SettleClaim(i, tasks, failed) => SettledClaim(s, i, tasks, failed)
      case ReserveCompletion(i, gateOpen) => AskedCompletion(s, i, gateOpen)
      case SettleCompletion(i, tasks) => SettledCompletion(s, i, tasks)
      case ExecutionEnds(i) => EndExecution(s, i)
      case Observe(i, failed) => ObserveResult(s, i, failed)
      case Stop => s.(stopping := true)
      case EndRun => Finish(s)
  }

  function Run(s: State, events: seq<Event>): State {
    if |events| == 0 then s else Step(Run(s, events[..|events| - 1]), events[|events| - 1])
  }
}
