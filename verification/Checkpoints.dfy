/**
 Durable checkpoints of one task, over any number of activations of its handler. Inside an activation,
 calls with one name share one initiator; across activations, PostgreSQL keeps the first saved value.
 `Run` folds any list of events, and a disabled event changes nothing.
 */
module Checkpoints {
  import opened Prelude

  type Name = nat
  type Fingerprint = Option<nat>

  datatype Result = Success(value: nat) | InputConflict | Failure

  /** An initiator reads, runs its operation and saves; another call joins it. */
  datatype Phase = Reading | Operating | Saving(value: nat) | Joined(initiator: nat) | Done(result: Result)

  /** `joined` names the initiator of a call that joined one, also after it is done. */
  datatype Call = Call(activation: nat, name: Name, fingerprint: Fingerprint, joined: Option<nat>, ran: bool, phase: Phase)

  datatype Stored = Stored(value: nat, fingerprint: Fingerprint)

  /**
   `inFlight` are the initiators that run, by activation and name. `late` are the saves that their calls
   gave up and that PostgreSQL may still commit.
   */
  datatype State = State(
    store: map<Name, Stored>, calls: seq<Call>, inFlight: map<(nat, Name), nat>, late: seq<(Name, Stored)>)

  datatype Event =
    | Begin(activation: nat, name: Name, fingerprint: Fingerprint)
    | Read(call: nat)
    | OperationReturns(call: nat, value: nat)
    | Save(call: nat, answered: bool)
    | Fail(call: nat)
    | CommitLate(save: nat)
    | Wake(call: nat)
    | GiveUp(call: nat)

  const Init := State(map[], [], map[], [])

  /** A missing fingerprint agrees with every fingerprint. */
  predicate Compatible(a: Fingerprint, b: Fingerprint) { a.None? || b.None? || a == b }

  predicate IsCall(s: State, c: nat) { c < |s.calls| }

  function SetPhase(s: State, c: nat, phase: Phase): State
    requires IsCall(s, c)
  {
    s.(calls := s.calls[c := s.calls[c].(phase := phase)])
  }

  /** A call joins the initiator that runs for its name, or becomes the initiator. */
  function Begun(s: State, activation: nat, name: Name, fingerprint: Fingerprint): State {
    var key, call := (activation, name), Call(activation, name, fingerprint, None, false, Reading);
    if key !in s.inFlight then s.(calls := s.calls + [call], inFlight := s.inFlight[key := |s.calls|])
    else
      var i := s.inFlight[key];
      if !IsCall(s, i) then s
      else if !Compatible(s.calls[i].fingerprint, fingerprint)
      then s.(calls := s.calls + [call.(joined := Some(i), phase := Done(InputConflict))])
      else s.(calls := s.calls + [call.(joined := Some(i), phase := Joined(i))])
  }

  /** The initiator has its result, and a later call with its name starts anew. */
  function Finished(s: State, c: nat, result: Result): State
    requires IsCall(s, c)
  {
    SetPhase(s, c, Done(result)).(inFlight := s.inFlight - {(s.calls[c].activation, s.calls[c].name)})
  }

  /** A stored value is replayed; without one the operation runs. */
  function ReadTaken(s: State, c: nat): State
    requires IsCall(s, c)
  {
    var call := s.calls[c];
    if call.name !in s.store then s.(calls := s.calls[c := call.(ran := true, phase := Operating)])
    else if !Compatible(s.store[call.name].fingerprint, call.fingerprint) then Finished(s, c, InputConflict)
    else Finished(s, c, Success(s.store[call.name].value))
  }

  /** PostgreSQL keeps the first value of a name. */
  function Kept(s: State, name: Name, stored: Stored): State {
    if name in s.store then s else s.(store := s.store[name := stored])
  }

  /** What PostgreSQL answers to a save: it keeps the first value, and accepts an equal one. */
  function SaveAnswer(s: State, call: Call, value: nat): Result {
    if call.name !in s.store then Success(value)
    else if !Compatible(s.store[call.name].fingerprint, call.fingerprint) then InputConflict
    else if s.store[call.name].value == value then Success(value)
    else Failure
  }

  /** The save commits, and its answer may be lost. */
  function Saved(s: State, c: nat, answered: bool): State
    requires IsCall(s, c) && s.calls[c].phase.Saving?
  {
    var call, value := s.calls[c], s.calls[c].phase.value;
    Finished(Kept(s, call.name, Stored(value, call.fingerprint)), c, if answered then SaveAnswer(s, call, value) else Failure)
  }

  /** The call fails; a save that was on its way may commit later. */
  function FailedCall(s: State, c: nat): State
    requires IsCall(s, c)
  {
    var call, t := s.calls[c], Finished(s, c, Failure);
    if call.phase.Saving? then t.(late := s.late + [(call.name, Stored(call.phase.value, call.fingerprint))]) else t
  }

  predicate Enabled(s: State, e: Event) {
    match e
    case Begin(_, _, _) => true
    case Read(c) => IsCall(s, c) && s.calls[c].phase.Reading?
    case OperationReturns(c, _) => IsCall(s, c) && s.calls[c].phase.Operating?
    case Save(c, _) => IsCall(s, c) && s.calls[c].phase.Saving?
    case Fail(c) => IsCall(s, c) && (s.calls[c].phase.Reading? || s.calls[c].phase.Operating? || s.calls[c].phase.Saving?)
    case CommitLate(i) => i < |s.late|
    case Wake(c) =>
      IsCall(s, c) && s.calls[c].phase.Joined? && IsCall(s, s.calls[c].phase.initiator)
      && s.calls[s.calls[c].phase.initiator].phase.Done?
    case GiveUp(c) => IsCall(s, c) && s.calls[c].phase.Joined?
  }

  function Step(s: State, e: Event): State {
    if !Enabled(s, e) then s
    else
      match e
      case Begin(activation, name, fingerprint) => Begun(s, activation, name, fingerprint)
      case Read(c) => ReadTaken(s, c)
      case OperationReturns(c, value) => SetPhase(s, c, Saving(value))
      case Save(c, answered) => Saved(s, c, answered)
      case Fail(c) => FailedCall(s, c)
      case CommitLate(i) => Kept(s, s.late[i].0, s.late[i].1)
      case Wake(c) => SetPhase(s, c, s.calls[s.calls[c].phase.initiator].phase)
      case GiveUp(c) => SetPhase(s, c, Done(Failure))
  }

  function Run(s: State, events: seq<Event>): State {
    if |events| == 0 then s else Step(Run(s, events[..|events| - 1]), events[|events| - 1])
  }

  // ----- The invariant ---------------------------------------------------------------------------------

  predicate Active(phase: Phase) { phase.Reading? || phase.Operating? || phase.Saving? }

  /** A successful call returned the stored value. */
  predicate ResultOk(s: State, call: Call) {
    call.phase.Done? && call.phase.result.Success? ==>
      && call.name in s.store && s.store[call.name].value == call.phase.result.value
      && (call.joined.None? ==> Compatible(s.store[call.name].fingerprint, call.fingerprint))
  }

  predicate JoinOk(s: State, c: nat)
    requires IsCall(s, c)
  {
    var call := s.calls[c];
    && (call.phase.Joined? ==> call.joined == Some(call.phase.initiator))
    && (call.joined.Some? ==>
          && call.joined.value < c && s.calls[call.joined.value].joined.None?
          && s.calls[call.joined.value].name == call.name && s.calls[call.joined.value].activation == call.activation
          && !Active(call.phase)
          && (call.phase.Done? && call.phase.result.Success? ==>
                && Compatible(s.calls[call.joined.value].fingerprint, call.fingerprint)
                && s.calls[call.joined.value].phase == call.phase)
          && (call.phase.Joined? ==> Compatible(s.calls[call.joined.value].fingerprint, call.fingerprint)))
  }

  predicate CallOk(s: State, c: nat)
    requires IsCall(s, c)
  {
    var call := s.calls[c];
    && ResultOk(s, call)
    && JoinOk(s, c)
    && (Active(call.phase) ==> (call.activation, call.name) in s.inFlight && s.inFlight[(call.activation, call.name)] == c)
  }

  predicate FlightOk(s: State, key: (nat, Name))
    requires key in s.inFlight
  {
    var c := s.inFlight[key];
    IsCall(s, c) && Active(s.calls[c].phase) && (s.calls[c].activation, s.calls[c].name) == key && s.calls[c].joined.None?
  }

  predicate Inv(s: State) {
    && (forall c :: 0 <= c < |s.calls| ==> CallOk(s, c))
    && (forall key :: key in s.inFlight ==> FlightOk(s, key))
  }

  /** A new call that is consistent with the rest joins the state. */
  lemma AddedInv(s: State, t: State, call: Call)
    requires Inv(s) && t.store == s.store && t.calls == s.calls + [call] && CallOk(t, |s.calls|)
    requires forall key :: key in s.inFlight ==> key in t.inFlight && t.inFlight[key] == s.inFlight[key]
    requires forall key :: key in t.inFlight && key !in s.inFlight ==> FlightOk(t, key)
    ensures Inv(t)
  {
    forall c | 0 <= c < |s.calls| ensures CallOk(t, c) {
      assert CallOk(s, c);
    }
    forall key | key in s.inFlight ensures FlightOk(t, key) {
      assert FlightOk(s, key);
    }
  }

  lemma BegunInv(s: State, activation: nat, name: Name, fingerprint: Fingerprint)
    requires Inv(s)
    ensures Inv(Begun(s, activation, name, fingerprint))
  {
    var t := Begun(s, activation, name, fingerprint);
    if (activation, name) in s.inFlight {
      assert FlightOk(s, (activation, name));
    }
    AddedInv(s, t, t.calls[|s.calls|]);
  }

  /** One call of the activation goes on or ends, and the store keeps what it has. */
  lemma MovedInv(s: State, t: State, c: nat)
    requires Inv(s) && IsCall(s, c) && Active(s.calls[c].phase)
    requires |t.calls| == |s.calls| && (forall d :: 0 <= d < |s.calls| && d != c ==> t.calls[d] == s.calls[d])
    requires forall name :: name in s.store ==> name in t.store && t.store[name] == s.store[name]
    requires t.calls[c] == s.calls[c].(phase := t.calls[c].phase, ran := t.calls[c].ran) && ResultOk(t, t.calls[c])
    requires Active(t.calls[c].phase) || t.calls[c].phase.Done?
    requires t.inFlight == if Active(t.calls[c].phase) then s.inFlight else s.inFlight - {(s.calls[c].activation, s.calls[c].name)}
    ensures Inv(t)
  {
    assert CallOk(s, c);
    forall d | 0 <= d < |t.calls| ensures CallOk(t, d) {
      assert CallOk(s, d);
    }
    forall key | key in t.inFlight ensures FlightOk(t, key) {
      assert FlightOk(s, key);
    }
  }

  /** A joined call takes the result of its initiator, or gives up. */
  lemma WokenInv(s: State, c: nat, phase: Phase)
    requires Inv(s) && IsCall(s, c) && s.calls[c].phase.Joined?
    requires phase == Done(Failure) || (phase.Done? && IsCall(s, s.calls[c].phase.initiator) && phase == s.calls[s.calls[c].phase.initiator].phase)
    ensures Inv(SetPhase(s, c, phase))
  {
    var t := SetPhase(s, c, phase);
    assert CallOk(s, c);
    if IsCall(s, s.calls[c].phase.initiator) {
      assert CallOk(s, s.calls[c].phase.initiator);
    }
    forall d | 0 <= d < |t.calls| ensures CallOk(t, d) {
      assert CallOk(s, d);
    }
    forall key | key in t.inFlight ensures FlightOk(t, key) {
      assert FlightOk(s, key);
    }
  }

  lemma KeptInv(s: State, name: Name, stored: Stored)
    requires Inv(s)
    ensures Inv(Kept(s, name, stored))
  {
    var t := Kept(s, name, stored);
    forall c | 0 <= c < |t.calls| ensures CallOk(t, c) {
      assert CallOk(s, c);
    }
    forall key | key in t.inFlight ensures FlightOk(t, key) {
      assert FlightOk(s, key);
    }
  }

  lemma StepInv(s: State, e: Event)
    requires Inv(s)
    ensures Inv(Step(s, e))
  {
    if Enabled(s, e) {
      match e {
        case Begin(activation, name, fingerprint) => BegunInv(s, activation, name, fingerprint);
        case Read(c) => assert CallOk(s, c); MovedInv(s, ReadTaken(s, c), c);
        case OperationReturns(c, value) => MovedInv(s, SetPhase(s, c, Saving(value)), c);
        case Save(c, answered) => assert CallOk(s, c); MovedInv(s, Saved(s, c, answered), c);
        case Fail(c) => MovedInv(s, FailedCall(s, c), c);
        case CommitLate(i) => KeptInv(s, s.late[i].0, s.late[i].1);
        case Wake(c) => WokenInv(s, c, s.calls[s.calls[c].phase.initiator].phase);
        case GiveUp(c) => WokenInv(s, c, Done(Failure));
      }
    }
  }

  lemma {:induction false} RunInv(s: State, events: seq<Event>)
    requires Inv(s)
    ensures Inv(Run(s, events))
  {
    if |events| > 0 {
      RunInv(s, events[..|events| - 1]);
      StepInv(Run(s, events[..|events| - 1]), events[|events| - 1]);
    }
  }

  // ----- The promises --------------------------------------------------------------------------------------

  predicate Succeeded(s: State, c: nat) { IsCall(s, c) && s.calls[c].phase.Done? && s.calls[c].phase.result.Success? }

  /** Over all activations, every successful call for a name returned the one stored value. */
  lemma OneValuePerName(events: seq<Event>, c: nat)
    requires Succeeded(Run(Init, events), c)
    ensures var s := Run(Init, events);
            s.calls[c].name in s.store && s.calls[c].phase.result.value == s.store[s.calls[c].name].value
  {
    RunInv(Init, events);
    assert CallOk(Run(Init, events), c);
  }

  /** A stored checkpoint never changes. */
  lemma {:induction false} StoredForGood(s: State, events: seq<Event>, name: Name)
    requires name in s.store
    ensures name in Run(s, events).store && Run(s, events).store[name] == s.store[name]
  {
    if |events| > 0 {
      StoredForGood(s, events[..|events| - 1], name);
    }
  }

  /** Inside an activation, the operations for a name never overlap. */
  lemma OperationsNeverOverlap(events: seq<Event>, c: nat, d: nat)
    requires var s := Run(Init, events);
             && IsCall(s, c) && IsCall(s, d) && s.calls[c].phase.Operating? && s.calls[d].phase.Operating?
             && s.calls[c].activation == s.calls[d].activation && s.calls[c].name == s.calls[d].name
    ensures c == d
  {
    RunInv(Init, events);
    assert CallOk(Run(Init, events), c) && CallOk(Run(Init, events), d);
  }

  /** Call `c` has not run its operation, and if it ever reads, it reads after the save of `name`. */
  predicate NotStarted(s: State, c: nat, name: Name) {
    IsCall(s, c) && s.calls[c].name == name ==> !s.calls[c].ran && !s.calls[c].phase.Operating? && !s.calls[c].phase.Saving?
  }

  lemma StepNotStarted(s: State, e: Event, c: nat, name: Name)
    requires name in s.store && NotStarted(s, c, name) && Inv(s)
    ensures NotStarted(Step(s, e), c, name)
  {
    if IsCall(s, c) {
      assert CallOk(s, c);
    }
  }

  /** However a run goes on, a call whose read follows the save does not run its operation. */
  lemma {:induction false} NoOperationAfterSave(s: State, events: seq<Event>, c: nat, name: Name)
    requires Inv(s) && name in s.store && NotStarted(s, c, name)
    ensures NotStarted(Run(s, events), c, name)
  {
    if |events| > 0 {
      NoOperationAfterSave(s, events[..|events| - 1], c, name);
      RunInv(s, events[..|events| - 1]);
      StoredForGood(s, events[..|events| - 1], name);
      StepNotStarted(Run(s, events[..|events| - 1]), events[|events| - 1], c, name);
    }
  }

  /** The call carries the fingerprint of another input than the stored checkpoint. */
  predicate Conflicts(s: State, c: nat) {
    IsCall(s, c) && s.calls[c].name in s.store && !Compatible(s.store[s.calls[c].name].fingerprint, s.calls[c].fingerprint)
  }

  /** An initiating call with the fingerprint of another input never succeeds. */
  lemma InitiatorNeverConflicts(events: seq<Event>, c: nat)
    requires Succeeded(Run(Init, events), c) && Run(Init, events).calls[c].joined.None?
    ensures !Conflicts(Run(Init, events), c)
  {
    RunInv(Init, events);
    assert CallOk(Run(Init, events), c);
  }

  /** Call `c` joined and succeeded; the fingerprints are those of the checkpoint, the initiator and the call. */
  predicate JoinSucceeds(events: seq<Event>, c: nat, stored: Fingerprint, initiator: Fingerprint, joiner: Fingerprint) {
    var s := Run(Init, events);
    && Succeeded(s, c) && s.calls[c].joined.Some? && IsCall(s, s.calls[c].joined.value) && s.calls[c].name in s.store
    && s.store[s.calls[c].name].fingerprint == stored
    && s.calls[s.calls[c].joined.value].fingerprint == initiator && s.calls[c].fingerprint == joiner
  }

  /** In every run, a call that joined and succeeded agrees with its initiator, and that with the checkpoint. */
  lemma JoinedAgreesThroughInitiator(events: seq<Event>, c: nat)
    requires Succeeded(Run(Init, events), c) && Run(Init, events).calls[c].joined.Some?
    ensures var s := Run(Init, events);
            var i := s.calls[c].joined.value;
            && IsCall(s, i) && s.calls[c].name in s.store
            && Compatible(s.store[s.calls[c].name].fingerprint, s.calls[i].fingerprint)
            && Compatible(s.calls[i].fingerprint, s.calls[c].fingerprint)
  {
    var s := Run(Init, events);
    RunInv(Init, events);
    assert CallOk(s, c);
    assert CallOk(s, s.calls[c].joined.value);
  }

  lemma {:induction false} RunAppend(s: State, events: seq<Event>, e: Event)
    ensures Run(s, events + [e]) == Step(Run(s, events), e)
  {
    assert (events + [e])[..|events|] == events;
  }

  /** One finished activation saved 7 under name 0. */
  function FirstSaved(stored: Fingerprint): State {
    State(map[0 := Stored(7, stored)], [Call(0, 0, stored, None, true, Done(Success(7)))], map[], [])
  }

  lemma {:induction false} FirstActivationSaves(stored: Fingerprint) returns (events: seq<Event>)
    ensures Run(Init, events) == FirstSaved(stored)
  {
    var call := Call(0, 0, stored, None, false, Reading);
    events := [Begin(0, 0, stored)];
    RunAppend(Init, [], events[0]);
    assert [] + [events[0]] == events;
    assert Run(Init, events) == State(map[], [call], map[(0, 0) := 0], []);
    RunAppend(Init, events, Read(0));
    events := events + [Read(0)];
    assert Run(Init, events) == State(map[], [call.(ran := true, phase := Operating)], map[(0, 0) := 0], []);
    RunAppend(Init, events, OperationReturns(0, 7));
    events := events + [OperationReturns(0, 7)];
    assert Run(Init, events) == State(map[], [call.(ran := true, phase := Saving(7))], map[(0, 0) := 0], []);
    RunAppend(Init, events, Save(0, true));
    events := events + [Save(0, true)];
  }

  /** In the next activation, the second call joins the first one, which replays the checkpoint. */
  lemma {:induction false} SecondActivationJoins(stored: Fingerprint, initiator: Fingerprint, joiner: Fingerprint)
    returns (t: State)
    requires Compatible(stored, initiator) && Compatible(initiator, joiner)
    ensures t == Step(Step(Step(Step(FirstSaved(stored), Begin(1, 0, initiator)), Begin(1, 0, joiner)), Read(1)), Wake(2))
    ensures t.store == FirstSaved(stored).store && |t.calls| == 3 && t.calls[1].fingerprint == initiator
    ensures t.calls[2] == Call(1, 0, joiner, Some(1), false, Done(Success(7)))
  {
    var s := FirstSaved(stored);
    var first, second := Call(1, 0, initiator, None, false, Reading), Call(1, 0, joiner, Some(1), false, Joined(1));
    t := Step(s, Begin(1, 0, initiator));
    assert t == State(s.store, s.calls + [first], map[(1, 0) := 1], []);
    t := Step(t, Begin(1, 0, joiner));
    assert t == State(s.store, s.calls + [first, second], map[(1, 0) := 1], []);
    t := Step(t, Read(1));
    assert t.calls == s.calls + [first.(phase := Done(Success(7))), second] && t.store == s.store;
    t := Step(t, Wake(2));
  }

  lemma {:induction false} AgreeingCallsJoin(stored: Fingerprint, initiator: Fingerprint, joiner: Fingerprint)
    returns (events: seq<Event>)
    requires Compatible(stored, initiator) && Compatible(initiator, joiner)
    ensures JoinSucceeds(events, 2, stored, initiator, joiner)
  {
    events := FirstActivationSaves(stored);
    var last := SecondActivationJoins(stored, initiator, joiner);
    RunAppend(Init, events, Begin(1, 0, initiator));
    events := events + [Begin(1, 0, initiator)];
    RunAppend(Init, events, Begin(1, 0, joiner));
    events := events + [Begin(1, 0, joiner)];
    RunAppend(Init, events, Read(1));
    events := events + [Read(1)];
    RunAppend(Init, events, Wake(2));
    events := events + [Wake(2)];
    assert Run(Init, events) == last;
  }

  /** A joined call can succeed exactly when it agrees with its initiator, and that with the checkpoint. */
  lemma {:induction false} JoinSucceedsExactly(stored: Fingerprint, initiator: Fingerprint, joiner: Fingerprint)
    ensures (exists events, c :: JoinSucceeds(events, c, stored, initiator, joiner))
       <==> Compatible(stored, initiator) && Compatible(initiator, joiner)
  {
    if events, c :| JoinSucceeds(events, c, stored, initiator, joiner) {
      JoinedAgreesThroughInitiator(events, c);
    }
    if Compatible(stored, initiator) && Compatible(initiator, joiner) {
      var events := AgreeingCallsJoin(stored, initiator, joiner);
    }
  }

  /** One activation saves a value with fingerprint 1; in the next, a call with fingerprint 2 succeeds. */
  lemma {:induction false} JoinerPassesOtherInput() returns (events: seq<Event>)
    ensures JoinSucceeds(events, 2, Some(1), None, Some(2)) && Conflicts(Run(Init, events), 2)
  {
    events := AgreeingCallsJoin(Some(1), None, Some(2));
  }

  /**
   The documentation promises of every call what `InitiatorNeverConflicts` says of an initiator. A joined
   call keeps that promise, whatever the run, exactly when its initiator has an input or the call has none.
   */
  lemma {:induction false} JoinedConflictExactly(initiator: Fingerprint, joiner: Fingerprint)
    ensures (forall events, c, stored :: JoinSucceeds(events, c, stored, initiator, joiner) ==> !Conflicts(Run(Init, events), c))
       <==> initiator.Some? || joiner.None?
  {
    if initiator.Some? || joiner.None? {
      forall events, c, stored | JoinSucceeds(events, c, stored, initiator, joiner)
        ensures !Conflicts(Run(Init, events), c)
      {
        JoinedAgreesThroughInitiator(events, c);
      }
    } else {
      var stored := Some(joiner.value + 1);
      var events := AgreeingCallsJoin(stored, initiator, joiner);
      assert JoinSucceeds(events, 2, stored, initiator, joiner) && Conflicts(Run(Init, events), 2);
    }
  }

  // ----- What a call meets ---------------------------------------------------------------------------------------

  /** A call joins the initiator in flight, if their inputs agree; without one it is the initiator. */
  lemma BeginExactly(s: State, activation: nat, name: Name, fingerprint: Fingerprint)
    requires Inv(s)
    ensures var t, c, key := Step(s, Begin(activation, name, fingerprint)), |s.calls|, (activation, name);
            && |t.calls| == c + 1 && t.calls[..c] == s.calls && t.store == s.store
            && t.calls[c].activation == activation && t.calls[c].name == name && t.calls[c].fingerprint == fingerprint
            && !t.calls[c].ran
            && (if key in s.inFlight
                then var i := s.inFlight[key];
                     && t.inFlight == s.inFlight && i < c && t.calls[c].joined == Some(i)
                     && t.calls[c].phase == (if Compatible(s.calls[i].fingerprint, fingerprint) then Joined(i) else Done(InputConflict))
                else t.inFlight == s.inFlight[key := c] && t.calls[c].joined.None? && t.calls[c].phase == Reading)
  {
    var key := (activation, name);
    if key in s.inFlight {
      assert FlightOk(s, key);
    }
  }

  /** A read replays what is stored for the same input, refuses another input, and lets the operation run only if nothing is stored. */
  lemma ReadExactly(s: State, c: nat)
    requires Enabled(s, Read(c))
    ensures var t, call := Step(s, Read(c)), s.calls[c];
            t.store == s.store && |t.calls| == |s.calls|
            && if call.name !in s.store then t.calls[c] == call.(ran := true, phase := Operating) && t.inFlight == s.inFlight
               else t.calls[c] == call.(phase := Done(if Compatible(s.store[call.name].fingerprint, call.fingerprint)
                                                      then Success(s.store[call.name].value) else InputConflict))
  {
  }

  /**
   A save that commits stores the first value of its name with the input of its call. An answer says success
   exactly when that value is stored for an input that agrees, and a conflict exactly when the inputs differ.
   */
  lemma SaveExactly(s: State, c: nat, answered: bool)
    requires Enabled(s, Save(c, answered))
    ensures var t, call := Step(s, Save(c, answered)), s.calls[c];
            && |t.calls| == |s.calls| && call.name in t.store && t.calls[c].phase.Done?
            && (call.name !in s.store ==> t.store == s.store[call.name := Stored(call.phase.value, call.fingerprint)])
            && (call.name in s.store ==> t.store == s.store)
            && (t.calls[c].phase.result == Success(call.phase.value) <==>
                  answered && t.store[call.name].value == call.phase.value && Compatible(t.store[call.name].fingerprint, call.fingerprint))
            && (t.calls[c].phase.result == InputConflict <==>
                  answered && !Compatible(t.store[call.name].fingerprint, call.fingerprint))
            && (t.calls[c].phase.result.Success? ==> t.calls[c].phase.result.value == call.phase.value)
  {
  }

  /** A save that its call gave up can still commit, if nothing is stored by then. */
  lemma GivenUpSaveMayCommit(s: State, c: nat)
    requires Enabled(s, Fail(c))
    ensures var t, call := Step(s, Fail(c)), s.calls[c];
            && t.store == s.store && |t.calls| == |s.calls| && t.calls[c].phase == Done(Failure)
            && (!call.phase.Saving? ==> t.late == s.late)
            && (call.phase.Saving? ==>
                  && Enabled(t, CommitLate(|s.late|))
                  && Step(t, CommitLate(|s.late|)).store
                     == if call.name in s.store then s.store else s.store[call.name := Stored(call.phase.value, call.fingerprint)])
  {
  }

  // ----- The handler context, in place -----------------------------------------------------------------------

  class HandlerContext {
    var store: map<Name, Stored>
    var calls: seq<Call>
    var inFlight: map<(nat, Name), nat>
    var late: seq<(Name, Stored)>

    function View(): State
      reads this
    {
      State(store, calls, inFlight, late)
    }

    constructor ()
      ensures View() == Init && Inv(View())
    {
      store, calls, inFlight, late := map[], [], map[], [];
    }

    method Checkpoint(activation: nat, name: Name, fingerprint: Fingerprint) returns (call: nat)
      requires Inv(View())
      modifies this
      ensures View() == Begun(old(View()), activation, name, fingerprint) && call == |old(calls)| && Inv(View())
    {
      StepInv(View(), Begin(activation, name, fingerprint));
      call := |calls|;
      var key := (activation, name);
      if key in inFlight {
        var initiator := inFlight[key];
        assert FlightOk(View(), key);
        var phase := if Compatible(calls[initiator].fingerprint, fingerprint) then Joined(initiator) else Done(InputConflict);
        calls := calls + [Call(activation, name, fingerprint, Some(initiator), false, phase)];
        return;
      }
      inFlight := inFlight[key := call];
      calls := calls + [Call(activation, name, fingerprint, None, false, Reading)];
    }

    method Finish(c: nat, result: Result)
      requires c < |calls|
      modifies this
      ensures View() == Finished(old(View()), c, result)
    {
      inFlight := inFlight - {(calls[c].activation, calls[c].name)};
      calls := calls[c := calls[c].(phase := Done(result))];
    }

    /** The read replays a stored value, or lets the operation run. */
    method ReadCheckpoint(c: nat)
      requires Inv(View()) && Enabled(View(), Read(c))
      modifies this
      ensures View() == ReadTaken(old(View()), c) && Inv(View())
    {
      StepInv(View(), Read(c));
      var call := calls[c];
      if call.name !in store {
        calls := calls[c := call.(ran := true, phase := Operating)];
      } else if !Compatible(store[call.name].fingerprint, call.fingerprint) {
        Finish(c, InputConflict);
      } else {
        Finish(c, Success(store[call.name].value));
      }
    }

    /** The save commits the first value of its name; its answer may be lost. */
    method SaveCheckpoint(c: nat, answered: bool)
      requires Inv(View()) && Enabled(View(), Save(c, answered))
      modifies this
      ensures View() == Saved(old(View()), c, answered) && Inv(View())
    {
      StepInv(View(), Save(c, answered));
      var call := calls[c];
      var answer := SaveAnswer(View(), call, call.phase.value);
      if call.name !in store {
        store := store[call.name := Stored(call.phase.value, call.fingerprint)];
      }
      Finish(c, if answered then answer else Failure);
    }

    /** A statement of the call failed, or its answer did not arrive in time. */
    method FailCall(c: nat)
      requires Inv(View()) && Enabled(View(), Fail(c))
      modifies this
      ensures View() == FailedCall(old(View()), c) && Inv(View())
    {
      StepInv(View(), Fail(c));
      var call := calls[c];
      if call.phase.Saving? {
        late := late + [(call.name, Stored(call.phase.value, call.fingerprint))];
      }
      Finish(c, Failure);
    }

    /** A joined call takes the result of its initiator. */
    method WakeCall(c: nat)
      requires Inv(View()) && Enabled(View(), Wake(c))
      modifies this
      ensures View() == Step(old(View()), Wake(c)) && Inv(View())
    {
      StepInv(View(), Wake(c));
      calls := calls[c := calls[c].(phase := calls[calls[c].phase.initiator].phase)];
    }
  }
}
