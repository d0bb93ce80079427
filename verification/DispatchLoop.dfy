/**
 The dispatch loop as the worker runs it: one object whose methods update its counters in place. Each
 method takes one step of `Dispatch.Step`, so what `DispatchProofs` shows of every run holds here.
 */
module DispatchLoop {
  import opened Prelude
  import opened Dispatch
  import opened DispatchProofs

  class Dispatcher {
    const concurrency: nat
    const capacity: seq<int>
    var run: nat
    var live: bool
    var stopping: bool
    var activeSlots: int
    var endedRunSlots: int
    var held: int
    var active: int
    var handedOver: int
    var reserved: int
    var cohortActive: seq<int>
    var cohortHandedOver: seq<int>
    var cohortReserved: seq<int>
    var cohortClaims: seq<int>
    var wholeClaims: int
    var claimsInFlight: int
    var completionClaims: int
    var ledger: seq<Entry>

    function View(): State
      reads this
    {
      State(concurrency, capacity, run, live, stopping, activeSlots, endedRunSlots, held, active, handedOver,
            reserved, cohortActive, cohortHandedOver, cohortReserved, cohortClaims, wholeClaims, claimsInFlight,
            completionClaims, ledger)
    }

    constructor (concurrency: nat, cohorts: nat)
      requires 1 <= cohorts <= concurrency
      ensures View() == Init(concurrency, cohorts) && Inv(View())
    {
      this.concurrency := concurrency;
      capacity := Capacities(concurrency / cohorts, concurrency % cohorts, cohorts);
      run, live, stopping := 0, false, false;
      activeSlots, endedRunSlots, held, active, handedOver, reserved := 0, 0, 0, 0, 0, 0;
      var zero := Zeros(cohorts);
      cohortActive, cohortHandedOver, cohortReserved, cohortClaims := zero, zero, zero, zero;
      wholeClaims, claimsInFlight, completionClaims := 0, 0, 0;
      ledger := [];
      new;
      InitInv(concurrency, cohorts);
    }

    /** Computes `Roomiest` in one scan. */
    method RoomiestCohort() returns (best: nat)
      ensures best == Roomiest(View())
    {
      best := 0;
      var cohort := 1;
      while cohort < |capacity|
        invariant 1 <= cohort && (cohort <= |capacity| || cohort == 1)
        invariant best == RoomiestOf(View(), cohort)
      {
        if CohortFree(View(), cohort) > CohortFree(View(), best) {
          best := cohort;
        }
        cohort := cohort + 1;
      }
    }

    method ChooseCohort(preferred: Option<nat>) returns (cohort: nat)
      ensures cohort == LaunchCohort(View(), preferred)
    {
      if preferred.None? || CohortFree(View(), preferred.value) <= 0 {
        cohort := RoomiestCohort();
      } else {
        cohort := preferred.value;
      }
    }

    method LaunchTask(preferred: Option<nat>)
      modifies this
      ensures View() == Launch(old(View()), preferred)
    {
      var cohort := ChooseCohort(preferred);
      ledger := ledger + [Slot(run, cohort, false, false, Working)];
      held := held + 1;
      activeSlots := activeSlots + 1;
      active := active + 1;
      cohortActive := Bump(cohortActive, cohort, 1);
    }

    method LaunchTasks(tasks: nat, preferred: Option<nat>)
      modifies this
      ensures View() == LaunchAll(old(View()), tasks, preferred)
    {
      var i := 0;
      while i < tasks
        invariant i <= tasks
        invariant View() == LaunchAll(old(View()), i, preferred)
      {
        LaunchTask(preferred);
        i := i + 1;
      }
    }

    method SendClaim(limit: int, target: Option<nat>, share: int)
      modifies this
      ensures View() == StartClaim(old(View()), limit, target, share)
    {
      reserved := reserved + limit;
      if target.None? {
        wholeClaims := wholeClaims + 1;
      } else {
        var c := target.value;
        cohortClaims := Bump(cohortClaims, c, 1);
        cohortReserved := Bump(cohortReserved, c, share);
      }
      claimsInFlight := claimsInFlight + 1;
      ledger := ledger + [Claim(run, limit, target, share, false)];
    }

    /** The loop runs at most once: a claim it sends asks for every free slot. */
    method StartWholeClaims()
      requires live && !stopping
      modifies this
      ensures View() == StartedWholeClaim(old(View()))
      ensures FreeSlots(View()) <= 0 || (claimsInFlight > 0 && FreeSlots(View()) < RefillBatch(concurrency))
    {
      while true
        invariant View() == old(View()) || (View() == StartedWholeClaim(old(View())) && FreeSlots(View()) <= 0)
        decreases FreeSlots(View())
      {
        var free := FreeSlots(View());
        if free <= 0 || (claimsInFlight > 0 && free < RefillBatch(concurrency)) {
          break;
        }
        SendClaim(free, None, 0);
      }
    }

    /** Sends a claim that `Roomiest` is charged for, if `StartsCohortClaim` allows one. */
    method StartClaimForCohort(allFast: bool)
      requires live && !stopping && |capacity| > 1
      modifies this
      ensures View() == StartedCohortClaim(old(View()), allFast)
    {
      var free := FreeSlots(View());
      if claimsInFlight == 0 && free > 0 {
        var cohort := RoomiestCohort();
        var share := Min(free, CohortFree(View(), cohort));
        SendClaim(if allFast then share else free, Some(cohort), share);
      }
    }

    method ReturnClaim(i: nat)
      requires i < |ledger| && ledger[i].Claim?
      modifies this
      ensures View() == EndClaim(old(View()), i)
    {
      var claim := ledger[i];
      claimsInFlight := claimsInFlight - 1;
      reserved := reserved - claim.limit;
      if claim.target.None? {
        wholeClaims := wholeClaims - 1;
      } else {
        var c := claim.target.value;
        cohortClaims := Bump(cohortClaims, c, -1);
        cohortReserved := Bump(cohortReserved, c, -claim.share);
      }
      ledger := ledger[i := claim.(settled := true)];
    }

    method SettlePlainClaim(i: nat, tasks: nat, failed: bool)
      requires Enabled(View(), SettleClaim(i, tasks, failed))
      modifies this
      ensures View() == SettledClaim(old(View()), i, tasks, failed)
    {
      var target := ledger[i].target;
      ReturnClaim(i);
      LaunchTasks(tasks, target);
      stopping := stopping || failed;
    }

    /** The reply to an execution that asks for a fused claim: the slots set aside, or none. */
    method ReserveCompletionClaim(i: nat, gateOpen: bool) returns (limit: Option<int>)
      requires Enabled(View(), ReserveCompletion(i, gateOpen))
      modifies this
      ensures View() == AskedCompletion(old(View()), i, gateOpen)
      ensures limit.Some? <==>
                gateOpen && !old(stopping) && old(ledger[i]).run == run
                && (old(wholeClaims > 0 || At(cohortClaims, ledger[i].cohort) > 0) ==>
                      4 * old(CompletionLimit(View(), ledger[i].cohort)) >= concurrency)
      ensures limit.Some? ==> i < |ledger| && ledger[i].Slot? && ledger[i].stage == Claiming(limit.value)
      ensures limit.None? ==> View() == old(View())
    {
      var slot := ledger[i];
      if slot.run != run || stopping || !gateOpen {
        return None;
      }
      var cohort := slot.cohort;
      var granted := CompletionLimit(View(), cohort);
      if (wholeClaims > 0 || At(cohortClaims, cohort) > 0) && granted < RefillBatch(concurrency) {
        return None;
      }
      SetAside(i);
      return Some(granted);
    }

    method SetAside(i: nat)
      requires IsSlot(View(), i)
      modifies this
      ensures View() == ReserveFor(old(View()), i)
    {
      var slot := ledger[i];
      var cohort := slot.cohort;
      var granted := CompletionLimit(View(), cohort);
      reserved := reserved + granted;
      cohortReserved := Bump(cohortReserved, cohort, granted);
      handedOver := handedOver + 1;
      cohortHandedOver := Bump(cohortHandedOver, cohort, 1);
      completionClaims := completionClaims + 1;
      ledger := ledger[i := slot.(handedOver := true, stage := Claiming(granted))];
    }

    /** The first caller returns the handler slot: the execution that ends, or the loop before it. */
    method ReleaseSlot(i: nat)
      requires IsSlot(View(), i)
      modifies this
      ensures View() == Release(old(View()), i)
    {
      var slot := ledger[i];
      if slot.released {
        return;
      }
      ledger := ledger[i := slot.(released := true)];
      activeSlots := activeSlots - 1;
      if slot.run == run {
        held := held - 1;
      } else {
        endedRunSlots := endedRunSlots - 1;
      }
    }

    method ReturnReservation(i: nat)
      requires IsSlot(View(), i) && ledger[i].stage.Claiming?
      modifies this
      ensures View() == EndReservation(old(View()), i)
    {
      var slot := ledger[i];
      completionClaims := completionClaims - 1;
      reserved := reserved - slot.stage.limit;
      cohortReserved := Bump(cohortReserved, slot.cohort, -slot.stage.limit);
      ledger := ledger[i := slot.(stage := Working)];
    }

    method ReturnCompletion(i: nat, replaced: bool)
      requires IsSlot(View(), i) && ledger[i].stage.Claiming?
      modifies this
      ensures View() == EndCompletion(old(View()), i, replaced)
    {
      ReturnReservation(i);
      if replaced {
        ReleaseSlot(i);
      } else {
        var cohort := ledger[i].cohort;
        ledger := ledger[i := ledger[i].(handedOver := false)];
        handedOver := handedOver - 1;
        cohortHandedOver := Bump(cohortHandedOver, cohort, -1);
      }
    }

    method SettleCompletionClaim(i: nat, tasks: nat)
      requires Enabled(View(), SettleCompletion(i, tasks))
      modifies this
      ensures View() == SettledCompletion(old(View()), i, tasks)
    {
      var cohort := ledger[i].cohort;
      ReturnCompletion(i, tasks > 0);
      LaunchTasks(tasks, Some(cohort));
    }

    method ExecutionReturned(i: nat)
      requires Enabled(View(), ExecutionEnds(i))
      modifies this
      ensures View() == EndExecution(old(View()), i)
    {
      ReleaseSlot(i);
      ledger := ledger[i := ledger[i].(stage := Ended)];
    }

    method ObserveExecution(i: nat, failed: bool)
      requires IsSlot(View(), i) && ledger[i].stage.Ended?
      modifies this
      ensures View() == ObserveResult(old(View()), i, failed)
    {
      var slot := ledger[i];
      active := active - 1;
      cohortActive := Bump(cohortActive, slot.cohort, -1);
      ledger := ledger[i := slot.(stage := Observed)];
      stopping := stopping || failed;
      if slot.handedOver {
        handedOver := handedOver - 1;
        cohortHandedOver := Bump(cohortHandedOver, slot.cohort, -1);
      }
    }

    method ClearCounters()
      modifies this`active, this`handedOver, this`reserved, this`cohortActive, this`cohortHandedOver,
               this`cohortReserved, this`cohortClaims, this`wholeClaims, this`claimsInFlight, this`completionClaims
      ensures active == handedOver == reserved == wholeClaims == claimsInFlight == completionClaims == 0
      ensures cohortActive == cohortHandedOver == cohortReserved == cohortClaims == Zeros(|capacity|)
    {
      active, handedOver, reserved := 0, 0, 0;
      wholeClaims, claimsInFlight, completionClaims := 0, 0, 0;
      var zero := Zeros(|capacity|);
      cohortActive, cohortHandedOver, cohortReserved, cohortClaims := zero, zero, zero, zero;
    }

    /** The loop returns only after every claim settled, and leaves its held slots to later runs. */
    method ReturnFromRun()
      requires stopping && claimsInFlight <= 0 && completionClaims <= 0
      modifies this
      ensures View() == Finish(old(View()))
      ensures endedRunSlots == old(endedRunSlots) + old(held)
    {
      endedRunSlots, held := endedRunSlots + held, 0;
      run, live, stopping := run + 1, false, false;
      ClearCounters();
    }

    /** One select case of the loop, or one end of an execution: the state follows `Step`, and the invariant stays. */
    method TakeStep(e: Event)
      requires Inv(View()) && Enabled(View(), e)
      modifies this
      ensures View() == Step(old(View()), e) && Inv(View())
    {
      StepInv(View(), e);
      match e {
        case BeginRun => live := true;
        case StartWholeClaim => StartWholeClaims();
        case StartCohortClaim(allFast) => StartClaimForCohort(allFast);
        case SettleClaim(i, tasks, failed) => SettlePlainClaim(i, tasks, failed);
        case ReserveCompletion(i, gateOpen) =>
          var _ := ReserveCompletionClaim(i, gateOpen);
        case SettleCompletion(i, tasks) => SettleCompletionClaim(i, tasks);
        case ExecutionEnds(i) => ExecutionReturned(i);
        case Observe(i, failed) => ObserveExecution(i, failed);
        case Stop => stopping := true;
        case EndRun => ReturnFromRun();
      }
    }
  }
}
