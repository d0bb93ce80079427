/**
 No generation of heartbeat connections is stuck: from every state that a run can reach, some continuation
 settles every generation that its holders left, and gives the current one a connection.
 */
module GenerationProgress {
  import opened Prelude
  import opened ConnectionGenerations

  // ----- What else every run keeps -----------------------------------------------------------------------

  /** A generation of which nothing is left is on its way to settle. */
  predicate SettlesWhenEmpty(gen: Generation) { Empty(gen) && !gen.handedBack ==> gen.settling }

  predicate HasLeft(gen: Generation) { gen.leaving || gen.closed }

  /** What generation `g` waits for is an earlier generation that settles. */
  predicate WaitsForSettling(gens: seq<Generation>, previous: Option<nat>, g: nat) {
    previous.Some? ==> previous.value < g && previous.value < |gens| && !gens[previous.value].handedBack
  }

  predicate GenLive(s: State, g: nat)
    requires IsGen(s, g)
  {
    && SettlesWhenEmpty(s.gens[g]) && WaitsForSettling(s.gens, s.gens[g].previous, g)
    && (s.current != Some(g) ==> HasLeft(s.gens[g]))
  }

  ghost predicate Live(s: State) {
    && Inv(s)
    && (forall g :: 0 <= g < |s.gens| ==> GenLive(s, g))
    && WaitsForSettling(s.gens, s.settling, if s.current.Some? then |s.gens| - 1 else |s.gens|)
  }

  lemma ActSettlesWhenEmpty(gen: Generation, action: Action, free: bool, lent: nat)
    requires GenOk(gen) && CanAct(gen, action, free) && SettlesWhenEmpty(gen)
    ensures SettlesWhenEmpty(Act(gen, action, lent))
  {
  }

  lemma ActHasLeft(gen: Generation, action: Action, free: bool, lent: nat)
    requires GenOk(gen) && CanAct(gen, action, free) && !Owns(gen, lent) && HasLeft(gen)
    ensures HasLeft(Act(gen, action, lent))
  {
  }

  /** One generation changed, and still waits for what it waited for. */
  lemma ChangedLive(s: State, t: State, g: nat)
    requires g < |s.gens| == |t.gens| && t.gens == s.gens[g := t.gens[g]] && t.current == s.current && t.settling == s.settling
    requires t.gens[g].previous == s.gens[g].previous && t.gens[g].handedBack == s.gens[g].handedBack
    requires SettlesWhenEmpty(t.gens[g]) && (HasLeft(s.gens[g]) ==> HasLeft(t.gens[g]))
    requires forall h :: 0 <= h < |s.gens| ==> GenLive(s, h)
    ensures forall h :: 0 <= h < |t.gens| ==> GenLive(t, h)
  {
    forall h | 0 <= h < |t.gens| ensures GenLive(t, h) {
      assert GenLive(s, h);
    }
  }

  lemma ActedLive(s: State, g: nat, action: Action)
    requires Live(s) && IsGen(s, g) && CanAct(s.gens[g], action, Free(s, g))
    ensures Live(Acted(s, g, action))
  {
    var lent := |s.conns|;
    ActedInv(s, g, action);
    assert GenLive(s, g) && GenOk(s.gens[g]) && Listed(s.gens, s.conns, g, lent);
    ActSettlesWhenEmpty(s.gens[g], action, Free(s, g), lent);
    ActSound(s.gens[g], action, Free(s, g), lent, 0);
    if HasLeft(s.gens[g]) {
      ActHasLeft(s.gens[g], action, Free(s, g), lent);
    }
    ChangedLive(s, Acted(s, g, action), g);
  }

  lemma HeldLive(s: State)
    requires Live(s)
    ensures Live(Held(s))
  {
    var t := Held(s);
    HeldInv(s);
    forall h | 0 <= h < |t.gens| ensures GenLive(t, h) {
      assert h < |s.gens| ==> GenLive(s, h);
    }
  }

  /** The last holder of generation `g` leaves. */
  lemma LeftLive(s: State, g: nat)
    requires s.current == Some(g) && g == |s.gens| - 1 && GenOk(s.gens[g]) && !s.gens[g].closed
    requires forall h :: 0 <= h < |s.gens| ==> GenLive(s, h)
    ensures var t := Left(s, g);
            && (forall h :: 0 <= h < |t.gens| ==> GenLive(t, h))
            && t.current.None? && WaitsForSettling(t.gens, t.settling, |t.gens|)
  {
    var t := Left(s, g);
    assert GenLive(s, g);
    forall h | 0 <= h < |t.gens| ensures GenLive(t, h) {
      assert GenLive(s, h);
    }
  }

  lemma ReleasedLive(s: State, l: nat)
    requires Live(s) && l < |s.leases|
    ensures Live(Released(s, l))
  {
    var t, lease := Released(s, l), s.leases[l];
    ReleasedInv(s, l);
    if !lease.released {
      var u := s.(leases := s.leases[l := lease.(released := true)], holders := s.holders - 1);
      forall h | 0 <= h < |u.gens| ensures GenLive(u, h) {
        assert GenLive(s, h);
      }
      if u.holders == 0 {
        LeftLive(u, lease.generation);
      }
    }
  }

  lemma StepLive(s: State, e: Event)
    requires Live(s)
    ensures Live(Step(s, e))
  {
    if Enabled(s, e) {
      match e {
        case Inside(g, action) => ActedLive(s, g, action);
        case Hold => HeldLive(s);
        case Release(l) => ReleasedLive(s, l);
        case Forget(g) => {
          StepInv(s, e);
          forall h | 0 <= h < |s.gens| ensures GenLive(Step(s, e), h) {
            assert GenLive(s, h);
          }
        }
      }
    }
  }

  lemma {:induction false} ReachableLive(events: seq<Event>)
    ensures Live(Run(Init, events))
  {
    if |events| > 0 {
      ReachableLive(events[..|events| - 1]);
      StepLive(Run(Init, events[..|events| - 1]), events[|events| - 1]);
    } else {
      InitInv();
    }
  }

  // ----- Runs inside one generation ------------------------------------------------------------------------

  lemma {:induction false} RunConcat(s: State, a: seq<Event>, b: seq<Event>)
    ensures Run(s, a + b) == Run(Run(s, a), b)
  {
    if |b| == 0 {
      assert a + b == a;
    } else {
      RunConcat(s, a, b[..|b| - 1]);
      assert (a + b)[..|a + b| - 1] == a + b[..|b| - 1];
    }
  }

  lemma {:induction false} RunFirst(s: State, e: Event, rest: seq<Event>)
    ensures Run(s, [e] + rest) == Run(Step(s, e), rest)
  {
    RunConcat(s, [e], rest);
    assert [e][..0] == [];
    assert Run(s, [e]) == Step(Run(s, []), e);
  }

  /** `t` differs from `s` at most in generation `g` and in the pool's connections. */
  predicate OnlyIn(s: State, t: State, g: nat) {
    && g < |s.gens| && |t.gens| == |s.gens| && t.current == s.current && t.settling == s.settling
    && t.holders == s.holders && t.leases == s.leases
    && t.gens[g].previous == s.gens[g].previous && t.gens[g].handedBack == s.gens[g].handedBack
    && forall h :: 0 <= h < |s.gens| && h != g ==> t.gens[h] == s.gens[h]
  }

  lemma ActedOnlyIn(s: State, g: nat, action: Action)
    requires Live(s) && IsGen(s, g) && CanAct(s.gens[g], action, Free(s, g))
    ensures var t := Step(s, Inside(g, action));
            Live(t) && OnlyIn(s, t, g) && t.gens[g] == Act(s.gens[g], action, |s.conns|) && Free(t, g) == Free(s, g)
  {
    ActedLive(s, g, action);
    assert GenLive(s, g) && GenOk(s.gens[g]) && Listed(s.gens, s.conns, g, |s.conns|);
    ActSound(s.gens[g], action, Free(s, g), |s.conns|, 0);
  }

  // ----- A generation that was left settles ------------------------------------------------------------------

  function LoopSteps(loop: Loop): nat {
    match loop
    case Ended => 0
    case Waiting => 1
    case Asking => 1
    case Dropping(_) => 1
    case Pausing => 2
    case Fresh(_) => 2
  }

  /** How many steps are left at most. */
  function StepsLeft(gen: Generation): nat {
    (if gen.closed then 0 else 1) + gen.rounds + LoopSteps(LastLoop(gen)) + |gen.removing|
    + (if gen.conn.Some? then 2 else 0) + (if gen.settled then 0 else 1)
  }

  /** A step that brings a generation without holders nearer to its end. */
  ghost function NextStep(gen: Generation): Action {
    var k := |gen.loops| - 1;
    if !gen.closed then Close
    else if gen.rounds > 0 then FinishRound
    else
      match LastLoop(gen)
      case Waiting => WaitEnds(k)
      case Asking => AcquireFails(k)
      case Pausing => PauseEnds(k)
      case Fresh(_) => PrepareEnds(k, false)
      case Dropping(_) => DropEnds(k)
      case Ended => if gen.removing != {} then (var c :| c in gen.removing; RemovalEnds(c)) else Settle
  }

  lemma NextStepCanBeTaken(gen: Generation)
    requires GenOk(gen) && HasLeft(gen) && !gen.handedBack && !gen.settled && SettlesWhenEmpty(gen)
    ensures CanAct(gen, NextStep(gen), true)
  {
  }

  lemma CloseLeads(gen: Generation, lent: nat)
    requires GenOk(gen) && !gen.closed
    ensures StepsLeft(Act(gen, Close, lent)) < StepsLeft(gen)
  {
    assert gen.conn.Some? ==> |gen.removing + {gen.conn.value}| == |gen.removing| + 1;
  }

  lemma RoundLeads(gen: Generation, lent: nat)
    requires GenOk(gen) && gen.rounds > 0
    ensures StepsLeft(Act(gen, FinishRound, lent)) < StepsLeft(gen)
  {
    assert gen.conn.Some? ==> |gen.removing + {gen.conn.value}| == |gen.removing| + 1;
  }

  lemma LoopLeads(gen: Generation, lent: nat)
    requires GenOk(gen) && gen.closed && gen.rounds == 0 && !LastLoop(gen).Ended?
    ensures StepsLeft(Act(gen, NextStep(gen), lent)) < StepsLeft(gen)
  {
  }

  lemma RemovalLeads(gen: Generation, c: nat, lent: nat)
    requires c in gen.removing
    ensures StepsLeft(Act(gen, RemovalEnds(c), lent)) < StepsLeft(gen)
  {
    assert |gen.removing - {c}| < |gen.removing|;
  }

  lemma NextStepLeads(gen: Generation, lent: nat)
    requires GenOk(gen) && HasLeft(gen) && !gen.handedBack && !gen.settled && SettlesWhenEmpty(gen)
    ensures StepsLeft(Act(gen, NextStep(gen), lent)) < StepsLeft(gen)
  {
    if !gen.closed {
      CloseLeads(gen, lent);
    } else if gen.rounds > 0 {
      RoundLeads(gen, lent);
    } else if !LastLoop(gen).Ended? {
      LoopLeads(gen, lent);
    } else if gen.removing != {} {
      RemovalLeads(gen, NextStep(gen).conn, lent);
    }
  }

  lemma {:induction false} LeftCanSettle(s: State, g: nat) returns (events: seq<Event>)
    requires Live(s) && IsGen(s, g) && Free(s, g) && HasLeft(s.gens[g]) && !s.gens[g].handedBack
    ensures var t := Run(s, events); Live(t) && OnlyIn(s, t, g) && t.gens[g].settled
    decreases StepsLeft(s.gens[g])
  {
    if s.gens[g].settled {
      events := [];
    } else {
      var action := NextStep(s.gens[g]);
      assert GenLive(s, g) && GenOk(s.gens[g]) && Listed(s.gens, s.conns, g, |s.conns|);
      NextStepCanBeTaken(s.gens[g]);
      NextStepLeads(s.gens[g], |s.conns|);
      ActedOnlyIn(s, g, action);
      ActHasLeft(s.gens[g], action, Free(s, g), |s.conns|);
      var rest := LeftCanSettle(Step(s, Inside(g, action)), g);
      events := [Inside(g, action)] + rest;
      RunFirst(s, Inside(g, action), rest);
    }
  }

  // ----- All of them ------------------------------------------------------------------------------------------

  /** `t` differs from `s` at most in generations below `n` and in the pool's connections. */
  predicate OnlyBelow(s: State, t: State, n: nat) {
    && |t.gens| == |s.gens| && t.current == s.current && t.settling == s.settling && t.holders == s.holders && t.leases == s.leases
    && forall h :: n <= h < |s.gens| ==> t.gens[h] == s.gens[h]
  }

  lemma OverMeansFree(s: State, g: nat)
    requires Live(s) && IsGen(s, g) && OverBetween(s.gens, 0, g)
    ensures Free(s, g)
  {
    assert GenLive(s, g);
  }

  lemma {:induction false} EarlierCanBeOver(s: State, n: nat) returns (events: seq<Event>)
    requires Live(s) && n <= |s.gens| && (s.current.Some? ==> n <= s.current.value)
    ensures var t := Run(s, events); Live(t) && OnlyBelow(s, t, n) && OverBetween(t.gens, 0, n)
  {
    if n == 0 {
      events := [];
    } else {
      events := EarlierCanBeOver(s, n - 1);
      var t := Run(s, events);
      if !Over(t.gens[n - 1]) {
        assert GenLive(t, n - 1);
        OverMeansFree(t, n - 1);
        var more := LeftCanSettle(t, n - 1);
        RunConcat(s, events, more);
        events := events + more;
      }
    }
  }

  /** From every state that a run can reach, every generation without holders can still settle, unless it handed back what it waited for. */
  lemma {:induction false} NoGenerationIsStuck(events: seq<Event>, g: nat) returns (more: seq<Event>)
    requires IsGen(Run(Init, events), g) && Run(Init, events).current != Some(g)
    ensures var t := Run(Init, events + more); IsGen(t, g) && Over(t.gens[g])
  {
    ReachableLive(events);
    more := EarlierCanBeOver(Run(Init, events), g + 1);
    RunConcat(Init, events, more);
  }

  // ----- The current one gets a connection -----------------------------------------------------------------------

  function StepsToConnection(gen: Generation): nat {
    if gen.conn.Some? then 0
    else if !gen.acquiring then 6
    else
      match LastLoop(gen)
      case Dropping(_) => 5
      case Pausing => 4
      case Waiting => 4
      case Asking => 3
      case Fresh(_) => 2
      case Ended => 1
  }

  function StepToConnection(gen: Generation): Action {
    if !gen.acquiring || |gen.loops| == 0 then NeedConnection
    else
      var k := |gen.loops| - 1;
      match LastLoop(gen)
      case Waiting => WaitEnds(k)
      case Asking => AcquireSucceeds(k)
      case Pausing => PauseEnds(k)
      case Fresh(_) => PrepareEnds(k, true)
      case Dropping(_) => DropEnds(k)
      case Ended => NeedConnection
  }

  lemma ConnectionComesNearer(gen: Generation, lent: nat)
    requires GenOk(gen) && !gen.closed && gen.conn.None?
    ensures var action := StepToConnection(gen);
            CanAct(gen, action, true) && StepsToConnection(Act(gen, action, lent)) < StepsToConnection(gen)
            && !Act(gen, action, lent).closed
  {
  }

  lemma {:induction false} CurrentCanConnect(s: State, g: nat) returns (events: seq<Event>)
    requires Live(s) && s.current == Some(g) && Free(s, g)
    ensures var t := Run(s, events); Live(t) && OnlyIn(s, t, g) && t.gens[g].conn.Some?
    decreases StepsToConnection(s.gens[g])
  {
    if s.gens[g].conn.Some? {
      events := [];
    } else {
      var action := StepToConnection(s.gens[g]);
      assert GenLive(s, g) && GenOk(s.gens[g]);
      ConnectionComesNearer(s.gens[g], |s.conns|);
      ActedOnlyIn(s, g, action);
      var rest := CurrentCanConnect(Step(s, Inside(g, action)), g);
      events := [Inside(g, action)] + rest;
      RunFirst(s, Inside(g, action), rest);
    }
  }

  /** From every state that a run can reach, a worker that holds the current generation can still get its connection. */
  lemma {:induction false} NoHolderIsStuck(events: seq<Event>, g: nat) returns (more: seq<Event>)
    requires Run(Init, events).current == Some(g)
    ensures var t := Run(Init, events + more); t.current == Some(g) && IsGen(t, g) && t.gens[g].conn.Some?
  {
    var s := Run(Init, events);
    ReachableLive(events);
    var first := EarlierCanBeOver(s, g);
    OverMeansFree(Run(s, first), g);
    var last := CurrentCanConnect(Run(s, first), g);
    more := first + last;
    RunConcat(s, first, last);
    RunConcat(Init, events, more);
  }
}
