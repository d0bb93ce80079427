/**
 The notification listeners of one pool. The workers on a pool share one hub; its last subscriber stops
 it, and the hub that replaces it waits for its end. `Run` folds any list of events, and a disabled
 event changes nothing.
 */
module ListenerHubs {
  import opened Prelude

  datatype Stage = Waiting | Listening | Done

  /** `holding` says that the hub has a connection of the pool. */
  datatype Hub = Hub(previous: Option<nat>, stage: Stage, holding: bool, subscribers: set<nat>, stopped: bool)

  /** `subscriptions` counts the subscriptions so far, each of which leaves at most once. */
  datatype State = State(hubs: seq<Hub>, current: Option<nat>, stopping: Option<nat>, subscriptions: nat)

  datatype Event =
    | Subscribe
    | Leave(hub: nat, subscription: nat)
    | Begin(hub: nat)
    | Acquire(hub: nat)
    | Return(hub: nat)
    | End(hub: nat)
    | Forget(hub: nat)

  const Init := State([], None, None, 0)

  predicate IsHub(s: State, h: nat) { h < |s.hubs| }

  function Subscribed(s: State): State {
    var n := s.subscriptions;
    if s.current.Some? && IsHub(s, s.current.value) then
      var h := s.current.value;
      s.(hubs := s.hubs[h := s.hubs[h].(subscribers := s.hubs[h].subscribers + {n})], subscriptions := n + 1)
    else
      s.(hubs := s.hubs + [Hub(s.stopping, Waiting, false, {n}, false)], current := Some(|s.hubs|), subscriptions := n + 1)
  }

  /** Without subscribers, hub `h` is stopped and becomes what a new hub waits for. */
  function HubLeft(s: State, h: nat, subscription: nat): State
    requires IsHub(s, h)
  {
    var hub := s.hubs[h].(subscribers := s.hubs[h].subscribers - {subscription});
    if hub.subscribers != {} then s.(hubs := s.hubs[h := hub])
    else s.(hubs := s.hubs[h := hub.(stopped := true)], current := None, stopping := Some(h))
  }

  predicate Enabled(s: State, e: Event) {
    match e
    case Subscribe => true
    case Leave(h, subscription) => IsHub(s, h) && subscription in s.hubs[h].subscribers
    case Begin(h) =>
      && IsHub(s, h) && s.hubs[h].stage.Waiting?
      && (s.hubs[h].previous.None?
          || (IsHub(s, s.hubs[h].previous.value) && s.hubs[s.hubs[h].previous.value].stage.Done?))
    case Acquire(h) => IsHub(s, h) && s.hubs[h].stage.Listening? && !s.hubs[h].holding
    case Return(h) => IsHub(s, h) && s.hubs[h].holding
    case End(h) => IsHub(s, h) && s.hubs[h].stage.Listening? && s.hubs[h].stopped && !s.hubs[h].holding
    case Forget(h) => IsHub(s, h) && s.hubs[h].stage.Done?
  }

  function Step(s: State, e: Event): State {
    if !Enabled(s, e) then s
    else
      match e
      case Subscribe => Subscribed(s)
      case Leave(h, subscription) => HubLeft(s, h, subscription)
      case Begin(h) => s.(hubs := s.hubs[h := s.hubs[h].(stage := Listening)])
      case Acquire(h) => s.(hubs := s.hubs[h := s.hubs[h].(holding := true)])
      case Return(h) => s.(hubs := s.hubs[h := s.hubs[h].(holding := false)])
      case End(h) => s.(hubs := s.hubs[h := s.hubs[h].(stage := Done)])
      case Forget(h) => if s.stopping == Some(h) then s.(stopping := None) else s
  }

  function Run(s: State, events: seq<Event>): State {
    if |events| == 0 then s else Step(Run(s, events[..|events| - 1]), events[|events| - 1])
  }

  // ----- The invariant -----------------------------------------------------------------------------

  predicate DoneBetween(hubs: seq<Hub>, lo: nat, hi: nat) {
    forall q :: lo <= q < hi && q < |hubs| ==> hubs[q].stage.Done?
  }

  /** To wait for `previous` is to wait for every hub before `h`. */
  predicate StandsFor(hubs: seq<Hub>, previous: Option<nat>, h: nat) {
    match previous
    case None => DoneBetween(hubs, 0, h)
    case Some(p) => p < h && DoneBetween(hubs, p + 1, h)
  }

  predicate HubOk(s: State, h: nat)
    requires IsHub(s, h)
  {
    var hub := s.hubs[h];
    && StandsFor(s.hubs, hub.previous, h)
    && (!hub.stage.Waiting? ==> DoneBetween(s.hubs, 0, h))
    && (hub.holding ==> hub.stage.Listening?)
    && (hub.stopped <==> hub.subscribers == {})
    && (hub.subscribers != {} <==> s.current == Some(h))
    && (hub.stage.Done? ==> hub.stopped)
    && (forall n :: n in hub.subscribers ==> n < s.subscriptions)
  }

  predicate Inv(s: State) {
    && (forall h :: 0 <= h < |s.hubs| ==> HubOk(s, h))
    && (s.current.Some? ==> s.current.value == |s.hubs| - 1)
    && StandsFor(s.hubs, s.stopping, if s.current.Some? then |s.hubs| - 1 else |s.hubs|)
  }

  /** The listener of hub `h` moved on, and its subscribers are the same. */
  lemma MovedInv(s: State, h: nat, hub: Hub)
    requires Inv(s) && IsHub(s, h) && hub == s.hubs[h].(stage := hub.stage, holding := hub.holding)
    requires s.hubs[h].stage.Done? ==> hub.stage.Done?
    requires !hub.stage.Waiting? ==> DoneBetween(s.hubs, 0, h)
    requires hub.holding ==> hub.stage.Listening?
    requires hub.stage.Done? ==> hub.stopped
    ensures Inv(s.(hubs := s.hubs[h := hub]))
  {
    var t := s.(hubs := s.hubs[h := hub]);
    assert HubOk(s, h);
    forall g | 0 <= g < |t.hubs| ensures HubOk(t, g) {
      assert HubOk(s, g);
    }
  }

  lemma SubscribedInv(s: State)
    requires Inv(s)
    ensures Inv(Subscribed(s))
  {
    var t := Subscribed(s);
    forall h | 0 <= h < |t.hubs| ensures HubOk(t, h) {
      if h < |s.hubs| {
        assert HubOk(s, h);
      }
      assert t.current == Some(h) ==> s.subscriptions in t.hubs[h].subscribers;
    }
  }

  lemma LeftInv(s: State, h: nat, subscription: nat)
    requires Inv(s) && IsHub(s, h) && subscription in s.hubs[h].subscribers
    ensures Inv(HubLeft(s, h, subscription))
  {
    var t := HubLeft(s, h, subscription);
    assert HubOk(s, h);
    forall g | 0 <= g < |t.hubs| ensures HubOk(t, g) {
      assert HubOk(s, g);
    }
  }

  lemma StepInv(s: State, e: Event)
    requires Inv(s)
    ensures Inv(Step(s, e))
  {
    if Enabled(s, e) {
      match e {
        case Subscribe => SubscribedInv(s);
        case Leave(h, subscription) => LeftInv(s, h, subscription);
        case Begin(h) => {
          assert HubOk(s, h);
          if s.hubs[h].previous.Some? {
            assert HubOk(s, s.hubs[h].previous.value);
          }
          MovedInv(s, h, s.hubs[h].(stage := Listening));
        }
        case Acquire(h) => assert HubOk(s, h); MovedInv(s, h, s.hubs[h].(holding := true));
        case Return(h) => assert HubOk(s, h); MovedInv(s, h, s.hubs[h].(holding := false));
        case End(h) => assert HubOk(s, h); MovedInv(s, h, s.hubs[h].(stage := Done));
        case Forget(h) => {
          assert HubOk(s, h);
          var t := Step(s, e);
          forall g | 0 <= g < |t.hubs| ensures HubOk(t, g) {
            assert HubOk(s, g);
          }
        }
      }
    }
  }

  lemma {:induction false} RunInv(s: State, events: seq<Event>)
    requires Inv(s)
    ensures Inv(Run(s, events))
  {
    if |events| > 0 {
      RunInv(s, events[..|events| - 1]);
      StepInv(Run(s, events[..|events| - 1]), events[|events| - 1]);
    }
  }

  // ----- The promises ------------------------------------------------------------------------------

  /** A hub listens only after every earlier one has ended, so the pool never has two listeners. */
  lemma OneListenerAtATime(events: seq<Event>, g: nat, h: nat)
    requires var s := Run(Init, events); g < h < |s.hubs| && !s.hubs[h].stage.Waiting?
    ensures var s := Run(Init, events); s.hubs[g].stage.Done? && !s.hubs[g].holding && s.hubs[g].subscribers == {}
  {
    RunInv(Init, events);
    assert HubOk(Run(Init, events), g) && HubOk(Run(Init, events), h);
  }

  /** A hub that still has a subscriber has not been stopped, and has not ended. */
  lemma SubscribersKeepTheirHub(events: seq<Event>, h: nat, subscription: nat)
    requires var s := Run(Init, events); h < |s.hubs| && subscription in s.hubs[h].subscribers
    ensures var s := Run(Init, events); s.current == Some(h) && !s.hubs[h].stopped && !s.hubs[h].stage.Done?
  {
    RunInv(Init, events);
    assert HubOk(Run(Init, events), h);
  }

  /** A subscription joins the current hub, or opens one, and no other subscription changes. */
  lemma SubscriptionIsKept(s: State)
    requires Inv(s)
    ensures var t, n := Step(s, Subscribe), s.subscriptions;
            && t.subscriptions == n + 1 && t.current.Some? && IsHub(t, t.current.value)
            && (s.current.Some? ==> t.current == s.current && |t.hubs| == |s.hubs|)
            && (forall h, m :: 0 <= h < |t.hubs| ==>
                  (m in t.hubs[h].subscribers <==> (h < |s.hubs| && m in s.hubs[h].subscribers) || (m == n && t.current == Some(h))))
  {
  }

  /** A subscription that leaves is gone, the others stay, and the last one stops its hub. */
  lemma SubscriptionLeaves(s: State, h: nat, subscription: nat)
    requires Inv(s) && Enabled(s, Leave(h, subscription))
    ensures var t := Step(s, Leave(h, subscription));
            && |t.hubs| == |s.hubs| && t.hubs[h].subscribers == s.hubs[h].subscribers - {subscription}
            && (forall g :: 0 <= g < |s.hubs| && g != h ==> t.hubs[g] == s.hubs[g])
            && (t.hubs[h].stopped <==> t.hubs[h].subscribers == {})
            && (t.hubs[h].stopped ==> t.current.None? && t.stopping == Some(h))
            && (!t.hubs[h].stopped ==> t.current == s.current && t.stopping == s.stopping)
  {
    assert HubOk(s, h);
  }

  // ----- No hub is stuck -------------------------------------------------------------------------------

  lemma {:induction false} RunConcat(s: State, a: seq<Event>, b: seq<Event>)
    ensures Run(s, a + b) == Run(Run(s, a), b)
  {
    if |b| == 0 {
      assert a + b == a;
    } else {
      RunConcat(s, a, b[..|b| - 1]);
      assert (a + b)[..|a + b| - 1] == a + b[..|b| - 1];
    }
  }

  lemma {:induction false} RunOne(s: State, e: Event)
    ensures Run(s, [e]) == Step(s, e)
  {
    assert [e][..0] == [];
  }

  /** `t` differs from `s` at most in how far the listeners of hubs below `n` are. */
  predicate OnlyBelow(s: State, t: State, n: nat) {
    && |t.hubs| == |s.hubs| && t.current == s.current && t.stopping == s.stopping && t.subscriptions == s.subscriptions
    && (forall g :: n <= g < |s.hubs| ==> t.hubs[g] == s.hubs[g])
    && (forall g :: 0 <= g < |s.hubs| ==> t.hubs[g].subscribers == s.hubs[g].subscribers && t.hubs[g].stopped == s.hubs[g].stopped)
  }

  /** A hub whose predecessors have ended can listen. */
  lemma {:induction false} HubCanListen(s: State, h: nat) returns (events: seq<Event>)
    requires Inv(s) && IsHub(s, h) && DoneBetween(s.hubs, 0, h) && !s.hubs[h].stage.Done?
    ensures Run(s, events) == s.(hubs := s.hubs[h := s.hubs[h].(stage := Listening)])
  {
    assert HubOk(s, h);
    if s.hubs[h].stage.Listening? {
      events := [];
      assert s.hubs == s.hubs[h := s.hubs[h].(stage := Listening)];
    } else {
      events := [Begin(h)];
      RunOne(s, Begin(h));
    }
  }

  /** A stopped hub that listens can end, once it has returned its connection. */
  lemma {:induction false} ListenerCanEnd(s: State, h: nat) returns (events: seq<Event>)
    requires IsHub(s, h) && s.hubs[h].stage.Listening? && s.hubs[h].stopped
    ensures Run(s, events) == s.(hubs := s.hubs[h := s.hubs[h].(stage := Done, holding := false)])
  {
    RunOne(s, Return(h));
    var t := if s.hubs[h].holding then Step(s, Return(h)) else s;
    RunOne(t, End(h));
    if s.hubs[h].holding {
      events := [Return(h)] + [End(h)];
      RunConcat(s, [Return(h)], [End(h)]);
    } else {
      events := [End(h)];
    }
  }

  lemma {:induction false} HubCanEnd(s: State, h: nat) returns (events: seq<Event>)
    requires Inv(s) && IsHub(s, h) && DoneBetween(s.hubs, 0, h) && s.hubs[h].stopped
    ensures OnlyBelow(s, Run(s, events), h + 1) && DoneBetween(Run(s, events).hubs, 0, h + 1)
  {
    if s.hubs[h].stage.Done? {
      events := [];
    } else {
      var first := HubCanListen(s, h);
      var last := ListenerCanEnd(Run(s, first), h);
      events := first + last;
      RunConcat(s, first, last);
    }
  }

  lemma {:induction false} EarlierCanEnd(s: State, n: nat) returns (events: seq<Event>)
    requires Inv(s) && n <= |s.hubs| && forall g :: 0 <= g < n ==> s.hubs[g].stopped
    ensures OnlyBelow(s, Run(s, events), n) && DoneBetween(Run(s, events).hubs, 0, n)
  {
    if n == 0 {
      events := [];
    } else {
      var first := EarlierCanEnd(s, n - 1);
      RunInv(s, first);
      var last := HubCanEnd(Run(s, first), n - 1);
      events := first + last;
      RunConcat(s, first, last);
    }
  }

  /** From every state that a run can reach, the hub of the current subscribers can still come to listen. */
  lemma {:induction false} NoHubIsStuck(s: State, h: nat) returns (events: seq<Event>)
    requires Inv(s) && s.current == Some(h)
    ensures var t := Run(s, events);
            IsHub(t, h) && t.hubs[h].stage.Listening? && t.hubs[h].subscribers == s.hubs[h].subscribers
  {
    assert HubOk(s, h);
    forall g | 0 <= g < h ensures s.hubs[g].stopped {
      assert HubOk(s, g);
    }
    var first := EarlierCanEnd(s, h);
    RunInv(s, first);
    var last := HubCanListen(Run(s, first), h);
    events := first + last;
    RunConcat(s, first, last);
  }

  // ----- The hubs of a pool, in place ----------------------------------------------------------------

  class Hubs {
    var hubs: seq<Hub>
    var current: Option<nat>
    var stopping: Option<nat>
    var subscriptions: nat

    function View(): State
      reads this
    {
      State(hubs, current, stopping, subscriptions)
    }

    constructor ()
      ensures View() == Init && Inv(View())
    {
      hubs, current, stopping, subscriptions := [], None, None, 0;
    }

    method SubscribeWorker() returns (hub: nat, subscription: nat)
      requires Inv(View())
      modifies this
      ensures View() == Subscribed(old(View())) && Inv(View())
      ensures hub < |hubs| && subscription in hubs[hub].subscribers && old(View()).subscriptions == subscription
    {
      if current.None? {
        hubs := hubs + [Hub(stopping, Waiting, false, {}, false)];
        current := Some(|hubs| - 1);
      }
      hub, subscription := current.value, subscriptions;
      assert {} + {subscription} == {subscription};
      hubs := hubs[hub := hubs[hub].(subscribers := hubs[hub].subscribers + {subscription})];
      subscriptions := subscriptions + 1;
      assert hubs == Subscribed(old(View())).hubs;
      StepInv(old(View()), Subscribe);
    }

    method LeaveHub(h: nat, subscription: nat) returns (last: bool)
      requires Inv(View()) && Enabled(View(), Leave(h, subscription))
      modifies this
      ensures View() == HubLeft(old(View()), h, subscription) && Inv(View())
      ensures last <==> hubs[h].subscribers == {}
    {
      var hub := hubs[h].(subscribers := hubs[h].subscribers - {subscription});
      last := hub.subscribers == {};
      if last {
        hub := hub.(stopped := true);
        current, stopping := None, Some(h);
      }
      hubs := hubs[h := hub];
      StepInv(old(View()), Leave(h, subscription));
    }
  }
}
