/**
 Rounds that share the one heartbeat connection of a pool. One round leads a transaction at a time;
 a waiting round joins it, leads the next one, or expires. `Run` folds any list of events, and a
 disabled event changes nothing.
 */
module HeartbeatRounds {
  import opened Sequences

  /** Where a round is. The last three are its ends. */
  datatype Phase = Waiting | Leading | Joined(leader: nat) | Led | Answered(leader: nat, ok: bool) | Expired

  /** `batched` is false for a round that runs alone: it joins no other one and none joins it. */
  datatype Round = Round(deadline: nat, batched: bool, phase: Phase, results: nat)

  /** `group` are the rounds that joined the leader's transaction, over all of its resends. */
  datatype State = State(leading: bool, waiting: seq<nat>, rounds: seq<Round>, leader: nat, group: seq<nat>)

  datatype Event =
    | Enter(deadline: nat, batched: bool)
    | Expire(round: nat)
    | Join
    | Deliver(ok: bool)
    | HandOff

  const Init := State(false, [], [], 0, [])

  predicate IsRound(s: State, r: nat) { r < |s.rounds| }

  function Deadline(s: State, r: nat): nat { if IsRound(s, r) then s.rounds[r].deadline else 0 }

  /** The waiting rounds that may share a transaction that ends by `deadline`. */
  predicate Eligible(s: State, r: nat, deadline: nat) {
    IsRound(s, r) && s.rounds[r].batched && deadline <= s.rounds[r].deadline
  }

  function Select(s: State, rounds: seq<nat>, deadline: nat, wanted: bool): seq<nat> {
    if |rounds| == 0 then []
    else
      var last := rounds[|rounds| - 1];
      Select(s, rounds[..|rounds| - 1], deadline, wanted) + if Eligible(s, last, deadline) == wanted then [last] else []
  }

  /** The position of the earliest deadline among the first `n` waiting rounds, the first on a tie. */
  function EarliestOf(s: State, n: nat): (best: nat)
    requires n <= |s.waiting|
    ensures n > 0 ==> best < n
  {
    if n <= 1 then 0
    else
      var best := EarliestOf(s, n - 1);
      if Deadline(s, s.waiting[n - 1]) < Deadline(s, s.waiting[best]) then n - 1 else best
  }

  function SetPhase(s: State, r: nat, phase: Phase): State
    requires IsRound(s, r)
  {
    s.(rounds := s.rounds[r := s.rounds[r].(phase := phase)])
  }

  function Entered(s: State, deadline: nat, batched: bool): State {
    var r := |s.rounds|;
    if !s.leading then
      s.(leading := true, leader := r, group := [], rounds := s.rounds + [Round(deadline, batched, Leading, 0)])
    else
      s.(waiting := s.waiting + [r], rounds := s.rounds + [Round(deadline, batched, Waiting, 0)])
  }

  /** The context of a round ended. A round that a leader already took stays taken. */
  function ExpiredRound(s: State, r: nat): State {
    var i := IndexOf(s.waiting, r);
    if i < |s.waiting| && IsRound(s, r) then SetPhase(s.(waiting := Without(s.waiting, i)), r, Expired) else s
  }

  function JoinedRounds(s: State): State {
    var deadline := Deadline(s, s.leader);
    var joined := Select(s, s.waiting, deadline, true);
    s.(waiting := Select(s, s.waiting, deadline, false),
       group := s.group + joined,
       rounds := seq(|s.rounds|, r requires 0 <= r < |s.rounds| =>
         if r in joined then s.rounds[r].(phase := Joined(s.leader)) else s.rounds[r]))
  }

  /** `group` empties, and each of its rounds has one result more. */
  function Delivered(s: State, ok: bool): State {
    s.(group := [],
       rounds := seq(|s.rounds|, r requires 0 <= r < |s.rounds| =>
         if r in s.group then s.rounds[r].(phase := Answered(s.leader, ok), results := s.rounds[r].results + 1)
         else s.rounds[r]))
  }

  function HandedOff(s: State): State
    requires IsRound(s, s.leader)
  {
    var t := SetPhase(s, s.leader, Led);
    if |s.waiting| == 0 then t.(leading := false)
    else
      var next := EarliestOf(s, |s.waiting|);
      var r := s.waiting[next];
      if IsRound(t, r) then SetPhase(t.(waiting := Without(s.waiting, next), leader := r), r, Leading) else t
  }

  predicate Enabled(s: State, e: Event) {
    match e
    case Enter(_, _) => true
    case Expire(_) => true
    case Join => s.leading && IsRound(s, s.leader) && s.rounds[s.leader].batched
    case Deliver(_) => s.leading && |s.group| > 0
    case HandOff => s.leading && IsRound(s, s.leader) && |s.group| == 0
  }

  function Step(s: State, e: Event): State {
    if !Enabled(s, e) then s
    else
      match e
      case Enter(deadline, batched) => Entered(s, deadline, batched)
      case Expire(r) => ExpiredRound(s, r)
      case Join => JoinedRounds(s)
      case Deliver(ok) => Delivered(s, ok)
      case HandOff => HandedOff(s)
  }

  function Run(s: State, events: seq<Event>): State {
    if |events| == 0 then s else Step(Run(s, events[..|events| - 1]), events[|events| - 1])
  }

  // ----- The invariant ---------------------------------------------------------------------------

  /** What the phase of round `r` says about the rest of the state. */
  predicate RoundOk(s: State, r: nat)
    requires IsRound(s, r)
  {
    var round := s.rounds[r];
    && (round.phase.Waiting? <==> r in s.waiting)
    && (round.phase.Leading? <==> s.leading && r == s.leader)
    && (round.phase.Joined? <==> r in s.group)
    && (round.phase.Joined? ==> round.phase.leader == s.leader)
    && (round.phase.Joined? || round.phase.Answered? ==>
          round.batched && r != round.phase.leader && IsRound(s, round.phase.leader)
          && s.rounds[round.phase.leader].batched && s.rounds[round.phase.leader].deadline <= round.deadline)
    && round.results == if round.phase.Answered? then 1 else 0
  }

  predicate Inv(s: State) {
    && (forall r :: 0 <= r < |s.rounds| ==> RoundOk(s, r))
    && (forall i :: 0 <= i < |s.waiting| ==> IsRound(s, s.waiting[i]))
    && (forall i :: 0 <= i < |s.group| ==> IsRound(s, s.group[i]))
    && Distinct(s.waiting)
    && Distinct(s.group)
    && (s.leading ==> IsRound(s, s.leader))
    && (!s.leading ==> s.waiting == [] && s.group == [])
  }

  // ----- Every step keeps the invariant ----------------------------------------------------------

  lemma {:induction false} SelectMembers(s: State, rounds: seq<nat>, deadline: nat, wanted: bool)
    requires Distinct(rounds)
    ensures forall r :: r in Select(s, rounds, deadline, wanted) <==> r in rounds && Eligible(s, r, deadline) == wanted
    ensures Distinct(Select(s, rounds, deadline, wanted))
  {
    if |rounds| > 0 {
      var n := |rounds| - 1;
      SelectMembers(s, rounds[..n], deadline, wanted);
      assert rounds == rounds[..n] + [rounds[n]];
    }
  }

  lemma {:induction false} EarliestIsFirstMinimum(s: State, n: nat)
    requires 1 <= n <= |s.waiting|
    ensures forall k :: 0 <= k < n ==> Deadline(s, s.waiting[EarliestOf(s, n)]) <= Deadline(s, s.waiting[k])
    ensures forall k :: 0 <= k < EarliestOf(s, n) ==> Deadline(s, s.waiting[EarliestOf(s, n)]) < Deadline(s, s.waiting[k])
  {
    if n > 1 {
      EarliestIsFirstMinimum(s, n - 1);
    }
  }

  lemma EnterInv(s: State, deadline: nat, batched: bool)
    requires Inv(s)
    ensures Inv(Entered(s, deadline, batched))
  {
    var t := Entered(s, deadline, batched);
    forall r | 0 <= r < |t.rounds| ensures RoundOk(t, r) {
      if r < |s.rounds| {
        assert RoundOk(s, r);
      }
    }
  }

  lemma ExpireInv(s: State, r: nat)
    requires Inv(s)
    ensures Inv(ExpiredRound(s, r))
  {
    var t, i := ExpiredRound(s, r), IndexOf(s.waiting, r);
    if i < |s.waiting| {
      WithoutOne(s.waiting, i);
      assert RoundOk(s, r);
      forall k | 0 <= k < |t.rounds| ensures RoundOk(t, k) {
        assert RoundOk(s, k);
      }
    }
  }

  lemma SelectedAreRounds(s: State, deadline: nat)
    requires Inv(s)
    ensures var joined := Select(s, s.waiting, deadline, true); forall i :: 0 <= i < |joined| ==> IsRound(s, joined[i])
  {
    var joined := Select(s, s.waiting, deadline, true);
    SelectMembers(s, s.waiting, deadline, true);
    forall i | 0 <= i < |joined| ensures IsRound(s, joined[i]) {
      assert joined[i] in joined;
    }
  }

  lemma JoinInv(s: State)
    requires Inv(s) && Enabled(s, Join)
    ensures Inv(JoinedRounds(s))
  {
    var t, deadline := JoinedRounds(s), Deadline(s, s.leader);
    SelectMembers(s, s.waiting, deadline, true);
    SelectMembers(s, s.waiting, deadline, false);
    assert RoundOk(s, s.leader);
    forall r | 0 <= r < |t.rounds| ensures RoundOk(t, r) {
      assert RoundOk(s, r);
    }
    forall i | 0 <= i < |t.waiting| ensures IsRound(t, t.waiting[i]) {
      assert t.waiting[i] in s.waiting;
    }
    forall i | 0 <= i < |t.group| ensures IsRound(t, t.group[i]) {
      assert t.group[i] in s.group || t.group[i] in s.waiting;
    }
    forall r | r in s.group ensures r !in s.waiting {
      assert RoundOk(s, r);
    }
    DistinctConcat(s.group, Select(s, s.waiting, deadline, true));
  }

  lemma DeliverInv(s: State, ok: bool)
    requires Inv(s)
    ensures Inv(Delivered(s, ok))
  {
    var t := Delivered(s, ok);
    assert s.leading ==> RoundOk(s, s.leader);
    forall r | 0 <= r < |t.rounds| ensures RoundOk(t, r) {
      assert RoundOk(s, r);
    }
  }

  lemma HandOffInv(s: State)
    requires Inv(s) && Enabled(s, HandOff)
    ensures Inv(HandedOff(s))
  {
    var t := HandedOff(s);
    assert RoundOk(s, s.leader);
    if |s.waiting| > 0 {
      var next := EarliestOf(s, |s.waiting|);
      WithoutOne(s.waiting, next);
      assert RoundOk(s, s.waiting[next]);
    }
    forall r | 0 <= r < |t.rounds| ensures RoundOk(t, r) {
      assert RoundOk(s, r);
    }
  }

  lemma StepInv(s: State, e: Event)
    requires Inv(s)
    ensures Inv(Step(s, e))
  {
    if Enabled(s, e) {
      match e
      case Enter(deadline, batched) => EnterInv(s, deadline, batched);
      case Expire(r) => ExpireInv(s, r);
      case Join => JoinInv(s);
      case Deliver(ok) => DeliverInv(s, ok);
      case HandOff => HandOffInv(s);
    }
  }

  lemma {:induction false} RunInv(s: State, events: seq<Event>)
    requires Inv(s)
    ensures Inv(Run(s, events))
  {
    if |events| > 0 {
      RunInv(s, events[..|events| - 1]);
      StepInv(Run(s, events[..|events| - 1]), events[|events| - 1]);
    }
  }

  // ----- The promises ----------------------------------------------------------------------------

  /** What round `r` can rely on. */
  predicate Served(s: State, r: nat)
    requires IsRound(s, r)
  {
    var round := s.rounds[r];
    && (round.phase.Waiting? || round.phase.Joined? ==>
          s.leading && IsRound(s, s.leader) && s.rounds[s.leader].phase.Leading?)
    && (round.phase.Joined? ==> round.phase.leader == s.leader)
    && (round.phase.Joined? || round.phase.Answered? ==>
          round.batched && IsRound(s, round.phase.leader) && s.rounds[round.phase.leader].deadline <= round.deadline)
    && round.results == if round.phase.Answered? then 1 else 0
  }

  /**
   In every run of the connection: at most one round leads; no round waits or has joined without a
   leader; a round joins only a transaction whose deadline is not later than its own; and it has
   exactly one result once that transaction ended, none before.
   */
  lemma OneLeaderServesEveryRound(events: seq<Event>)
    ensures var s := Run(Init, events);
            && (forall r :: 0 <= r < |s.rounds| ==> Served(s, r))
            && (forall r :: 0 <= r < |s.rounds| && s.rounds[r].phase.Leading? ==> s.leading && r == s.leader)
  {
    var s := Run(Init, events);
    RunInv(Init, events);
    forall r | 0 <= r < |s.rounds|
      ensures Served(s, r) && (s.rounds[r].phase.Leading? ==> s.leading && r == s.leader)
    {
      assert RoundOk(s, r);
      if s.leading {
        assert RoundOk(s, s.leader);
      }
    }
  }

  predicate Over(phase: Phase) { phase.Led? || phase.Answered? || phase.Expired? }

  lemma StepKeepsEnd(s: State, e: Event, r: nat)
    requires Inv(s) && IsRound(s, r) && Over(s.rounds[r].phase)
    ensures IsRound(Step(s, e), r) && Step(s, e).rounds[r] == s.rounds[r]
  {
    assert RoundOk(s, r);
    if e.Join? && Enabled(s, e) {
      SelectMembers(s, s.waiting, Deadline(s, s.leader), true);
    }
  }

  /** However a run goes on, a round that ended as leader, joined or expired has that one end. */
  lemma {:induction false} RoundEndsOnce(s: State, events: seq<Event>, r: nat)
    requires Inv(s) && IsRound(s, r) && Over(s.rounds[r].phase)
    ensures IsRound(Run(s, events), r) && Run(s, events).rounds[r] == s.rounds[r]
  {
    if |events| > 0 {
      RoundEndsOnce(s, events[..|events| - 1], r);
      RunInv(s, events[..|events| - 1]);
      StepKeepsEnd(Run(s, events[..|events| - 1]), events[|events| - 1], r);
    }
  }

  /** A round that enters leads if none does, and otherwise waits behind the others. */
  lemma EnteredLeadsOrWaits(s: State, deadline: nat, batched: bool)
    requires Inv(s)
    ensures var t, r := Step(s, Enter(deadline, batched)), |s.rounds|;
            && t.leading && t.rounds[..r] == s.rounds && IsRound(t, r) && |t.rounds| == r + 1
            && t.rounds[r].deadline == deadline && t.rounds[r].batched == batched && t.rounds[r].results == 0
            && (if s.leading then t.rounds[r].phase == Waiting && t.waiting == s.waiting + [r] && t.leader == s.leader
                else t.rounds[r].phase == Leading && t.waiting == s.waiting && t.leader == r && t.group == [])
  {
  }

  /** A round whose context ends leaves while it waits; once a leader has it, its context changes nothing. */
  lemma ExpiryLeaves(s: State, r: nat)
    requires Inv(s) && IsRound(s, r)
    ensures var t := Step(s, Expire(r));
            if s.rounds[r].phase.Waiting?
            then t.rounds == s.rounds[r := s.rounds[r].(phase := Expired)]
                 && (forall q :: q in t.waiting <==> q in s.waiting && q != r)
                 && t.leading == s.leading && t.leader == s.leader && t.group == s.group
            else t == s
  {
    assert RoundOk(s, r);
    var i := IndexOf(s.waiting, r);
    if i < |s.waiting| {
      WithoutOne(s.waiting, i);
    }
  }

  /** A delivery gives every round that joined the transaction its one outcome, and no other round anything. */
  lemma DeliveryReachesGroup(s: State, ok: bool)
    requires Inv(s) && Enabled(s, Deliver(ok))
    ensures var t := Step(s, Deliver(ok));
            && t.group == [] && |t.rounds| == |s.rounds|
            && forall r :: 0 <= r < |s.rounds| ==>
                 t.rounds[r] == if s.rounds[r].phase.Joined?
                                then s.rounds[r].(phase := Answered(s.leader, ok), results := s.rounds[r].results + 1)
                                else s.rounds[r]
  {
    var t := Step(s, Deliver(ok));
    forall r | 0 <= r < |s.rounds|
      ensures t.rounds[r] == if s.rounds[r].phase.Joined?
                             then s.rounds[r].(phase := Answered(s.leader, ok), results := s.rounds[r].results + 1)
                             else s.rounds[r]
    {
      assert RoundOk(s, r);
    }
  }

  /** The run delivered `ok` at event `k`, while round `r` had joined the transaction of `leader`. */
  predicate DeliveredAt(events: seq<Event>, k: nat, r: nat, leader: nat, ok: bool) {
    && k < |events| && events[k] == Deliver(ok)
    && var s := Run(Init, events[..k]);
       s.leading && s.leader == leader && IsRound(s, r) && s.rounds[r].phase == Joined(leader)
  }

  lemma StepAnswers(s: State, e: Event, r: nat)
    requires Inv(s) && IsRound(Step(s, e), r) && Step(s, e).rounds[r].phase.Answered?
    requires !(IsRound(s, r) && s.rounds[r].phase == Step(s, e).rounds[r].phase)
    ensures e == Deliver(Step(s, e).rounds[r].phase.ok) && Enabled(s, e) && s.leading
    ensures IsRound(s, r) && s.rounds[r].phase == Joined(s.leader) && Step(s, e).rounds[r].phase.leader == s.leader
  {
    assert IsRound(s, r) ==> RoundOk(s, r);
  }

  /** In every run, the result of a joined round is what its leader's transaction delivered while the round was in it. */
  lemma {:induction false} ResultIsTheLeaders(events: seq<Event>, r: nat)
    requires IsRound(Run(Init, events), r) && Run(Init, events).rounds[r].phase.Answered?
    ensures var phase := Run(Init, events).rounds[r].phase; exists k: nat :: DeliveredAt(events, k, r, phase.leader, phase.ok)
  {
    if |events| > 0 {
      var n, front := |events| - 1, events[..|events| - 1];
      var s, phase := Run(Init, front), Run(Init, events).rounds[r].phase;
      RunInv(Init, front);
      if IsRound(s, r) && s.rounds[r].phase == phase {
        ResultIsTheLeaders(front, r);
        var k: nat :| DeliveredAt(front, k, r, phase.leader, phase.ok);
        assert events[..k] == front[..k];
        assert DeliveredAt(events, k, r, phase.leader, phase.ok);
      } else {
        StepAnswers(s, events[n], r);
        assert DeliveredAt(events, n, r, phase.leader, phase.ok);
      }
    }
  }

  /** The new leader has the earliest deadline, so every other waiting batch round can join it. */
  lemma HandOffLetsAllJoin(s: State)
    requires Inv(s) && Enabled(s, HandOff) && |s.waiting| > 0
    ensures var t := HandedOff(s);
            && t.leading && t.leader in s.waiting && t.rounds[t.leader].phase.Leading?
            && (forall r :: r in t.waiting <==> r in s.waiting && r != t.leader)
            && (forall r :: r in t.waiting && t.rounds[r].batched ==> Eligible(t, r, Deadline(t, t.leader)))
            && (t.rounds[t.leader].batched ==>
                  forall r :: r in JoinedRounds(t).waiting ==> IsRound(t, r) && !t.rounds[r].batched)
  {
    var t, next := HandedOff(s), EarliestOf(s, |s.waiting|);
    HandOffInv(s);
    WithoutOne(s.waiting, next);
    EarliestIsFirstMinimum(s, |s.waiting|);
    assert RoundOk(s, s.leader);
    forall r | r in t.waiting && t.rounds[r].batched ensures Eligible(t, r, Deadline(t, t.leader)) {
      var k :| 0 <= k < |s.waiting| && s.waiting[k] == r;
      assert Deadline(s, s.waiting[next]) <= Deadline(s, s.waiting[k]);
    }
    SelectMembers(t, t.waiting, Deadline(t, t.leader), false);
  }

  // ----- The connection, in place ------------------------------------------------------------------

  class Connection {
    var leading: bool
    var waiting: seq<nat>
    var rounds: seq<Round>
    var leader: nat
    var group: seq<nat>

    function View(): State
      reads this
    {
      State(leading, waiting, rounds, leader, group)
    }

    constructor ()
      ensures View() == Init && Inv(View())
    {
      leading, waiting, rounds, leader, group := false, [], [], 0, [];
    }

    /** Appends a round, `Leading` or `Waiting` as `leads` tells. */
    method EnterRound(deadline: nat, batched: bool) returns (leads: bool)
      requires Inv(View())
      modifies this
      ensures View() == Entered(old(View()), deadline, batched) && Inv(View())
      ensures leads == !old(leading)
    {
      EnterInv(View(), deadline, batched);
      var r := |rounds|;
      leads := !leading;
      if leads {
        leading, leader, group := true, r, [];
        rounds := rounds + [Round(deadline, batched, Leading, 0)];
      } else {
        waiting := waiting + [r];
        rounds := rounds + [Round(deadline, batched, Waiting, 0)];
      }
    }

    method ExpireRound(r: nat)
      requires Inv(View()) && r < |rounds|
      modifies this
      ensures View() == ExpiredRound(old(View()), r) && Inv(View())
    {
      ExpireInv(View(), r);
      var i := IndexOf(waiting, r);
      if i < |waiting| {
        waiting := Without(waiting, i);
        rounds := rounds[r := rounds[r].(phase := Expired)];
      }
    }

    /** Splits `waiting` in two, keeping the order of each part. */
    method SplitWaiting(deadline: nat) returns (joined: seq<nat>, kept: seq<nat>)
      requires Inv(View())
      ensures joined == Select(View(), waiting, deadline, true) && kept == Select(View(), waiting, deadline, false)
    {
      joined, kept := [], [];
      var i := 0;
      while i < |waiting|
        invariant 0 <= i <= |waiting|
        invariant joined == Select(View(), waiting[..i], deadline, true)
        invariant kept == Select(View(), waiting[..i], deadline, false)
      {
        var r := waiting[i];
        assert waiting[..i + 1][..i] == waiting[..i];
        if rounds[r].batched && deadline <= rounds[r].deadline {
          joined := joined + [r];
        } else {
          kept := kept + [r];
        }
        i := i + 1;
      }
      assert waiting[..i] == waiting;
    }

    method MarkJoined(joined: seq<nat>)
      requires forall i :: 0 <= i < |joined| ==> joined[i] < |rounds|
      modifies `rounds
      ensures |rounds| == |old(rounds)|
      ensures forall r :: 0 <= r < |rounds| ==>
                rounds[r] == if r in joined then old(rounds)[r].(phase := Joined(leader)) else old(rounds)[r]
    {
      var i := 0;
      while i < |joined|
        invariant 0 <= i <= |joined| && |rounds| == |old(rounds)|
        invariant forall r :: 0 <= r < |rounds| ==>
          rounds[r] == if r in joined[..i] then old(rounds)[r].(phase := Joined(leader)) else old(rounds)[r]
      {
        var r := joined[i];
        rounds := rounds[r := rounds[r].(phase := Joined(leader))];
        i := i + 1;
      }
      assert joined[..i] == joined;
    }

    /** Moves the selected part of `waiting` into `group`, and marks its rounds. */
    method JoinWaiting()
      requires Inv(View()) && Enabled(View(), Join)
      modifies this
      ensures View() == JoinedRounds(old(View())) && Inv(View())
    {
      JoinInv(View());
      ghost var s := View();
      var joined, kept := SplitWaiting(rounds[leader].deadline);
      SelectedAreRounds(s, rounds[leader].deadline);
      MarkJoined(joined);
      waiting := kept;
      group := group + joined;
      assert rounds == JoinedRounds(s).rounds;
    }

    method MarkAnswered(ok: bool)
      requires Distinct(group) && forall i :: 0 <= i < |group| ==> group[i] < |rounds|
      modifies `rounds
      ensures |rounds| == |old(rounds)|
      ensures forall r :: 0 <= r < |rounds| ==>
                rounds[r] == if r in group then old(rounds)[r].(phase := Answered(leader, ok), results := old(rounds)[r].results + 1)
                             else old(rounds)[r]
    {
      var i := 0;
      while i < |group|
        invariant 0 <= i <= |group| && |rounds| == |old(rounds)|
        invariant forall r :: 0 <= r < |rounds| ==>
          rounds[r] == if r in group[..i]
                       then old(rounds)[r].(phase := Answered(leader, ok), results := old(rounds)[r].results + 1)
                       else old(rounds)[r]
      {
        var r := group[i];
        assert r !in group[..i];
        rounds := rounds[r := rounds[r].(phase := Answered(leader, ok), results := rounds[r].results + 1)];
        i := i + 1;
      }
      assert group[..i] == group;
    }

    /** Walks `group` and leaves each of its rounds `Answered` with the one outcome. */
    method DeliverResults(ok: bool)
      requires Inv(View())
      modifies this
      ensures View() == Delivered(old(View()), ok) && Inv(View())
    {
      ghost var s := View();
      DeliverInv(s, ok);
      MarkAnswered(ok);
      group := [];
      assert rounds == Delivered(s, ok).rounds;
    }

    /** Computes `EarliestOf` in one scan. */
    method EarliestWaiting() returns (next: nat)
      requires Inv(View()) && |waiting| > 0
      ensures next < |waiting| && next == EarliestOf(View(), |waiting|)
    {
      next := 0;
      var i := 1;
      while i < |waiting|
        invariant 1 <= i <= |waiting| && next < i
        invariant next == EarliestOf(View(), i)
      {
        if rounds[waiting[i]].deadline < rounds[waiting[next]].deadline {
          next := i;
        }
        i := i + 1;
      }
    }

    /** Ends the leader's phase, and makes the least waiting deadline the new leader's, if one waits. */
    method HandOffLead()
      requires Inv(View()) && Enabled(View(), HandOff)
      modifies this
      ensures View() == HandedOff(old(View())) && Inv(View())
    {
      HandOffInv(View());
      if |waiting| == 0 {
        rounds := rounds[leader := rounds[leader].(phase := Led)];
        leading := false;
        return;
      }
      var next := EarliestWaiting();
      var r := waiting[next];
      rounds := rounds[leader := rounds[leader].(phase := Led)];
      waiting := Without(waiting, next);
      leader := r;
      rounds := rounds[r := rounds[r].(phase := Leading)];
    }
  }
}
