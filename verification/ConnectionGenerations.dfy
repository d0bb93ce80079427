/**
 The heartbeat connections of one pool, generation by generation: a generation opens with its first
 holder, closes when the last one releases, and settles once nothing of it is left. `Run` folds any
 list of events, and a disabled event changes nothing.
 */
module ConnectionGenerations {
  import opened Prelude

  /** Where one acquisition loop is. `Fresh` and `Dropping` own the connection they name. */
  datatype Loop = Waiting | Asking | Pausing | Fresh(conn: nat) | Dropping(conn: nat) | Ended

  /**
   `leaving` is set from the release of the last holder until the generation learns of it. `removing`
   are the connections on their way out of the pool, which the source counts.
   */
  datatype Generation = Generation(
    previous: Option<nat>,
    loops: seq<Loop>,
    acquiring: bool,
    started: bool,
    conn: Option<nat>,
    rounds: nat,
    removing: set<nat>,
    leaving: bool,
    closed: bool,
    handedBack: bool,
    settling: bool,
    settled: bool)

  /** A connection that the pool lent, and how often it was removed from the pool. */
  datatype Conn = Conn(owner: nat, removals: nat)

  datatype Lease = Lease(generation: nat, released: bool)

  datatype State = State(
    gens: seq<Generation>,
    conns: seq<Conn>,
    current: Option<nat>,
    holders: nat,
    leases: seq<Lease>,
    settling: Option<nat>)

  /** What happens inside one generation. `k` names one of its acquisition loops. */
  datatype Action =
    | NeedConnection
    | WaitEnds(k: nat)
    | AcquireFails(k: nat)
    | AcquireSucceeds(k: nat)
    | PrepareEnds(k: nat, ok: bool)
    | DropEnds(k: nat)
    | PauseEnds(k: nat)
    | StartRound
    | FinishRound
    | Discard(conn: nat)
    | RemovalEnds(conn: nat)
    | Close
    | Settle

  datatype Event = Inside(generation: nat, action: Action) | Hold | Release(lease: nat) | Forget(generation: nat)

  const Init := State([], [], None, 0, [], None)

  function Opened(previous: Option<nat>): Generation {
    Generation(previous, [], false, false, None, 0, {}, false, false, false, false, false)
  }

  // ----- One generation ----------------------------------------------------------------------------

  function LoopAt(gen: Generation, k: nat): Loop { if k < |gen.loops| then gen.loops[k] else Ended }

  function SetLoop(gen: Generation, k: nat, loop: Loop): Generation {
    if k < |gen.loops| then gen.(loops := gen.loops[k := loop]) else gen
  }

  /** Nothing of the generation is left. */
  predicate Empty(gen: Generation) { gen.closed && gen.rounds == 0 && !gen.acquiring && gen.removing == {} }

  function TrySettle(gen: Generation): Generation { if Empty(gen) then gen.(settling := true) else gen }

  function StartLoop(gen: Generation): Generation {
    if gen.conn.Some? || gen.acquiring || gen.closed then gen
    else gen.(acquiring := true, loops := gen.loops + [Waiting])
  }

  function EndLoop(gen: Generation, k: nat): Generation { TrySettle(SetLoop(gen, k, Ended).(acquiring := false)) }

  /** The loop learns that its wait, its Acquire or its removal ended. Only an open generation goes on. */
  function GoOn(gen: Generation, k: nat, next: Loop): Generation {
    if gen.closed then EndLoop(gen, k) else SetLoop(gen, k, next)
  }

  function Prepared(gen: Generation, k: nat, ok: bool): Generation {
    var loop := LoopAt(gen, k);
    if !loop.Fresh? then gen
    else if ok && !gen.closed then SetLoop(gen, k, Ended).(conn := Some(loop.conn), acquiring := false)
    else SetLoop(gen, k, Dropping(loop.conn))
  }

  function ReturnHeld(gen: Generation): Generation {
    TrySettle(if gen.conn.Some? then gen.(conn := None, removing := gen.removing + {gen.conn.value}) else gen)
  }

  function RoundFinished(gen: Generation): Generation {
    if gen.rounds == 0 then gen
    else
      var t := gen.(rounds := gen.rounds - 1);
      if t.rounds > 0 || !t.closed then t else ReturnHeld(t)
  }

  function Discarded(gen: Generation, c: nat): Generation {
    if gen.conn != Some(c) then gen
    else
      var t := StartLoop(gen.(conn := None));
      t.(removing := t.removing + {c})
  }

  function Closed(gen: Generation): Generation {
    var t := gen.(closed := true, leaving := false);
    if t.rounds > 0 then t else ReturnHeld(t)
  }

  /** `free` says that the generation waits for no earlier one, and `lent` names the next connection. */
  predicate CanAct(gen: Generation, action: Action, free: bool) {
    match action
    case NeedConnection => true
    case WaitEnds(k) => LoopAt(gen, k).Waiting? && (free || gen.closed)
    case AcquireFails(k) => LoopAt(gen, k).Asking?
    case AcquireSucceeds(k) => LoopAt(gen, k).Asking?
    case PrepareEnds(k, _) => LoopAt(gen, k).Fresh?
    case DropEnds(k) => LoopAt(gen, k).Dropping?
    case PauseEnds(k) => LoopAt(gen, k).Pausing?
    case StartRound => !gen.closed
    case FinishRound => gen.rounds > 0
    case Discard(_) => gen.rounds > 0
    case RemovalEnds(c) => c in gen.removing
    case Close => gen.leaving
    case Settle => gen.settling && !gen.handedBack && free
  }

  function Act(gen: Generation, action: Action, lent: nat): Generation {
    match action
    case NeedConnection => StartLoop(gen)
    case WaitEnds(k) => if gen.closed then EndLoop(gen, k) else SetLoop(gen, k, Asking).(started := true)
    case AcquireFails(k) => GoOn(gen, k, Pausing)
    case AcquireSucceeds(k) => SetLoop(gen, k, Fresh(lent))
    case PrepareEnds(k, ok) => Prepared(gen, k, ok)
    case DropEnds(k) => GoOn(gen, k, Pausing)
    case PauseEnds(k) => SetLoop(gen, k, Asking)
    case StartRound => gen.(rounds := gen.rounds + 1)
    case FinishRound => RoundFinished(gen)
    case Discard(c) => Discarded(gen, c)
    case RemovalEnds(c) => TrySettle(gen.(removing := gen.removing - {c}))
    case Close => Closed(gen)
    case Settle => gen.(settled := true)
  }

  /** The connection that the pool stops counting with this action. */
  function Removed(gen: Generation, action: Action): Option<nat> {
    match action
    case DropEnds(k) => if LoopAt(gen, k).Dropping? then Some(LoopAt(gen, k).conn) else None
    case RemovalEnds(c) => Some(c)
    case _ => None
  }

  // ----- The pool ----------------------------------------------------------------------------------

  predicate IsGen(s: State, g: nat) { g < |s.gens| }

  /** Generation `g` waits for no earlier one. */
  predicate Free(s: State, g: nat)
    requires IsGen(s, g)
  {
    var previous := s.gens[g].previous;
    previous.None? || (IsGen(s, previous.value) && s.gens[previous.value].settled)
  }

  function CountRemoval(conns: seq<Conn>, c: Option<nat>): seq<Conn> {
    if c.Some? && c.value < |conns|
    then conns[c.value := conns[c.value].(removals := conns[c.value].removals + 1)]
    else conns
  }

  function Acted(s: State, g: nat, action: Action): State
    requires IsGen(s, g)
  {
    s.(gens := s.gens[g := Act(s.gens[g], action, |s.conns|)],
       conns := if action.AcquireSucceeds? then s.conns + [Conn(g, 0)]
       else CountRemoval(s.conns, Removed(s.gens[g], action)))
  }

  /** A worker holds the connection. Without a current generation, a new one follows the settling one. */
  function Held(s: State): State {
    if s.current.Some? then s.(holders := s.holders + 1, leases := s.leases + [Lease(s.current.value, false)])
    else
      s.(gens := s.gens + [Opened(s.settling)], current := Some(|s.gens|), holders := s.holders + 1,
         leases := s.leases + [Lease(|s.gens|, false)])
  }

  /** The last holder of generation `g` left. A generation that never started hands back its predecessor. */
  function Left(s: State, g: nat): State
    requires IsGen(s, g)
  {
    var gen := s.gens[g].(leaving := true);
    if gen.started then s.(gens := s.gens[g := gen], current := None, settling := Some(g))
    else
      var settling := if Free(s, g) then None else gen.previous;
      s.(gens := s.gens[g := gen.(closed := true, handedBack := true)], current := None, settling := settling)
  }

  function Released(s: State, l: nat): State
    requires l < |s.leases|
  {
    var lease := s.leases[l];
    if lease.released then s
    else
      var t := s.(leases := s.leases[l := lease.(released := true)]);
      if s.current != Some(lease.generation) || s.holders == 0 then t
      else
        var u := t.(holders := s.holders - 1);
        if u.holders > 0 || !IsGen(u, lease.generation) then u else Left(u, lease.generation)
  }

  predicate Enabled(s: State, e: Event) {
    match e
    case Inside(g, action) => IsGen(s, g) && CanAct(s.gens[g], action, Free(s, g))
    case Hold => true
    case Release(l) => l < |s.leases|
    case Forget(g) => IsGen(s, g) && s.gens[g].settled
  }

  function Step(s: State, e: Event): State {
    if !Enabled(s, e) then s
    else
      match e
      case Inside(g, action) => Acted(s, g, action)
      case Hold => Held(s)
      case Release(l) => Released(s, l)
      case Forget(g) => if s.settling == Some(g) then s.(settling := None) else s
  }

  function Run(s: State, events: seq<Event>): State {
    if |events| == 0 then s else Step(Run(s, events[..|events| - 1]), events[|events| - 1])
  }

  // ----- The invariant of one generation -----------------------------------------------------------

  /** The one loop that can still run. */
  function LastLoop(gen: Generation): Loop { if |gen.loops| > 0 then gen.loops[|gen.loops| - 1] else Ended }

  predicate LoopsOk(gen: Generation) {
    && (forall k :: 0 <= k < |gen.loops| - 1 ==> gen.loops[k].Ended?)
    && (gen.acquiring <==> !LastLoop(gen).Ended?)
    && (gen.acquiring ==> gen.conn.None?)
  }

  predicate LoopOwns(loop: Loop, c: nat) { (loop.Fresh? || loop.Dropping?) && loop.conn == c }

  /** Connection `c` is in one of the places that a generation keeps connections in. */
  predicate Owns(gen: Generation, c: nat) { LoopOwns(LastLoop(gen), c) || gen.conn == Some(c) || c in gen.removing }

  predicate PlacesApart(gen: Generation) {
    && (gen.conn.Some? ==> gen.conn.value !in gen.removing)
    && (LastLoop(gen).Fresh? || LastLoop(gen).Dropping? ==> LastLoop(gen).conn !in gen.removing)
  }

  predicate GenOk(gen: Generation) {
    && LoopsOk(gen)
    && PlacesApart(gen)
    && (!gen.started ==> gen.conn.None? && gen.removing == {} && (LastLoop(gen).Waiting? || LastLoop(gen).Ended?))
    && (gen.handedBack ==> gen.closed && !gen.started && !gen.settled)
    && (gen.closed && gen.rounds == 0 ==> gen.conn.None?)
    && (gen.settling ==> Empty(gen))
    && (gen.settled ==> gen.settling)
  }

  /** No generation starts or settles before it is free, or closes before its last holder left. */
  predicate Steady(gen: Generation, t: Generation, free: bool) {
    && t.previous == gen.previous && t.handedBack == gen.handedBack
    && (gen.settled ==> t.settled)
    && (gen.started ==> t.started)
    && (gen.closed ==> t.closed && t.started == gen.started)
    && ((t.started && !gen.started) || (t.settled && !gen.settled) ==> free)
    && (t.closed && !gen.closed ==> gen.leaving)
    && (t.leaving ==> gen.leaving)
  }

  /** A connection enters a generation when its Acquire returns and leaves it when it is removed. */
  predicate Moves(gen: Generation, t: Generation, action: Action, lent: nat, c: nat) {
    && (Owns(t, c) <==> (Owns(gen, c) && Removed(gen, action) != Some(c)) || (action.AcquireSucceeds? && c == lent))
    && (Removed(gen, action) == Some(c) ==> Owns(gen, c))
  }

  predicate Sound(gen: Generation, action: Action, free: bool, lent: nat, c: nat) {
    var t := Act(gen, action, lent);
    GenOk(t) && Steady(gen, t, free) && Moves(gen, t, action, lent, c)
  }

  lemma AskingSound(gen: Generation, action: Action, free: bool, lent: nat, c: nat)
    requires GenOk(gen) && CanAct(gen, action, free) && !Owns(gen, lent)
    requires action.WaitEnds? || action.AcquireFails? || action.AcquireSucceeds?
    ensures Sound(gen, action, free, lent, c)
  {
  }

  lemma OwningSound(gen: Generation, action: Action, free: bool, lent: nat, c: nat)
    requires GenOk(gen) && CanAct(gen, action, free) && !Owns(gen, lent)
    requires action.PrepareEnds? || action.DropEnds? || action.PauseEnds? || action.NeedConnection?
    ensures Sound(gen, action, free, lent, c)
  {
  }

  lemma RoundSound(gen: Generation, action: Action, free: bool, lent: nat, c: nat)
    requires GenOk(gen) && CanAct(gen, action, free) && !Owns(gen, lent)
    requires action.StartRound? || action.FinishRound? || action.RemovalEnds?
    ensures Sound(gen, action, free, lent, c)
  {
  }

  lemma EndingSound(gen: Generation, action: Action, free: bool, lent: nat, c: nat)
    requires GenOk(gen) && CanAct(gen, action, free) && !Owns(gen, lent)
    requires action.Discard? || action.Close? || action.Settle?
    ensures Sound(gen, action, free, lent, c)
  {
  }

  lemma ActSound(gen: Generation, action: Action, free: bool, lent: nat, c: nat)
    requires GenOk(gen) && CanAct(gen, action, free) && !Owns(gen, lent)
    ensures Sound(gen, action, free, lent, c)
  {
    match action {
      case WaitEnds(_) | AcquireFails(_) | AcquireSucceeds(_) => AskingSound(gen, action, free, lent, c);
      case PrepareEnds(_, _) | DropEnds(_) | PauseEnds(_) | NeedConnection => OwningSound(gen, action, free, lent, c);
      case StartRound | FinishRound | RemovalEnds(_) => RoundSound(gen, action, free, lent, c);
      case Discard(_) | Close | Settle => EndingSound(gen, action, free, lent, c);
    }
  }

  // ----- The invariant of the pool -------------------------------------------------------------------

  /** No connection is held, and no later step can attach one. */
  predicate Over(gen: Generation) { gen.settled || gen.handedBack }

  predicate OverBetween(gens: seq<Generation>, lo: nat, hi: nat) {
    forall q :: lo <= q < hi && q < |gens| ==> Over(gens[q])
  }

  /** To wait for `previous` is to wait for every generation before `g`. */
  predicate StandsFor(gens: seq<Generation>, previous: Option<nat>, g: nat) {
    match previous
    case None => OverBetween(gens, 0, g)
    case Some(p) => p < g && OverBetween(gens, p + 1, g)
  }

  predicate ChainOk(gens: seq<Generation>, g: nat)
    requires g < |gens|
  {
    && StandsFor(gens, gens[g].previous, g)
    && (gens[g].started || gens[g].settled ==> OverBetween(gens, 0, g))
  }

  predicate GensOk(gens: seq<Generation>) { forall g :: 0 <= g < |gens| ==> GenOk(gens[g]) && ChainOk(gens, g) }

  /** A connection is removed exactly once, and until then its generation owns it. */
  predicate ConnOk(gens: seq<Generation>, conns: seq<Conn>, c: nat)
    requires c < |conns|
  {
    && conns[c].owner < |gens|
    && conns[c].removals == if Owns(gens[conns[c].owner], c) then 0 else 1
  }

  /** What a generation owns, the pool lent to it. */
  predicate Listed(gens: seq<Generation>, conns: seq<Conn>, g: nat, c: nat)
    requires g < |gens|
  {
    Owns(gens[g], c) ==> c < |conns| && conns[c].owner == g
  }

  ghost predicate OwnedOk(gens: seq<Generation>, conns: seq<Conn>) {
    && (forall c :: 0 <= c < |conns| ==> ConnOk(gens, conns, c))
    && (forall g, c: nat :: 0 <= g < |gens| ==> Listed(gens, conns, g, c))
  }

  function Holders(leases: seq<Lease>): nat {
    if |leases| == 0 then 0
    else Holders(leases[..|leases| - 1]) + if leases[|leases| - 1].released then 0 else 1
  }

  predicate LeasesOk(s: State) {
    && s.holders == Holders(s.leases)
    && (s.current.Some? <==> s.holders > 0)
    && (forall l :: 0 <= l < |s.leases| && !s.leases[l].released ==> s.current == Some(s.leases[l].generation))
  }

  /** The next generation after the current one waits for every generation that has ended. */
  predicate RegistryOk(s: State) {
    && (s.current.Some? ==> s.current.value == |s.gens| - 1 && !s.gens[s.current.value].closed && !s.gens[s.current.value].leaving)
    && StandsFor(s.gens, s.settling, if s.current.Some? then |s.gens| - 1 else |s.gens|)
  }

  ghost predicate Inv(s: State) { GensOk(s.gens) && OwnedOk(s.gens, s.conns) && LeasesOk(s) && RegistryOk(s) }

  // ----- Every step keeps the invariant ----------------------------------------------------------

  lemma FreeFollowsAll(s: State, g: nat)
    requires GensOk(s.gens) && IsGen(s, g) && Free(s, g)
    ensures OverBetween(s.gens, 0, g)
  {
    assert ChainOk(s.gens, g);
    if s.gens[g].previous.Some? {
      assert ChainOk(s.gens, s.gens[g].previous.value);
    }
  }

  /** Generations only ever get over, so what stood for all earlier ones still does. */
  lemma ChainStays(gens: seq<Generation>, g: nat, t: Generation)
    requires GensOk(gens) && g < |gens| && GenOk(t) && t.previous == gens[g].previous
    requires Over(gens[g]) ==> Over(t)
    requires t.started || t.settled ==> OverBetween(gens, 0, g)
    ensures GensOk(gens[g := t])
    ensures forall previous, h: nat :: StandsFor(gens, previous, h) ==> StandsFor(gens[g := t], previous, h)
  {
    var after := gens[g := t];
    assert forall q :: 0 <= q < |gens| && Over(gens[q]) ==> Over(after[q]);
    forall h | 0 <= h < |after| ensures GenOk(after[h]) && ChainOk(after, h) {
      assert ChainOk(gens, h);
    }
  }

  lemma ActedOwns(s: State, g: nat, action: Action)
    requires GensOk(s.gens) && OwnedOk(s.gens, s.conns) && IsGen(s, g) && CanAct(s.gens[g], action, Free(s, g))
    ensures OwnedOk(Acted(s, g, action).gens, Acted(s, g, action).conns)
  {
    var t, gen, lent := Acted(s, g, action), s.gens[g], |s.conns|;
    assert Listed(s.gens, s.conns, g, lent);
    forall c: nat ensures Moves(gen, t.gens[g], action, lent, c) {
      ActSound(gen, action, Free(s, g), lent, c);
    }
    forall c | 0 <= c < |t.conns| ensures ConnOk(t.gens, t.conns, c) {
      assert Moves(gen, t.gens[g], action, lent, c) && Listed(s.gens, s.conns, g, c);
      if c < |s.conns| {
        assert ConnOk(s.gens, s.conns, c);
      }
    }
    forall h, c: nat | 0 <= h < |t.gens| ensures Listed(t.gens, t.conns, h, c) {
      assert Moves(gen, t.gens[g], action, lent, c) && Listed(s.gens, s.conns, h, c);
    }
  }

  lemma ActedInv(s: State, g: nat, action: Action)
    requires Inv(s) && IsGen(s, g) && CanAct(s.gens[g], action, Free(s, g))
    ensures Inv(Acted(s, g, action))
  {
    var gen, lent := s.gens[g], |s.conns|;
    var t := Act(gen, action, lent);
    assert Listed(s.gens, s.conns, g, lent);
    ActSound(gen, action, Free(s, g), lent, 0);
    if Free(s, g) {
      FreeFollowsAll(s, g);
    }
    assert ChainOk(s.gens, g);
    ChainStays(s.gens, g, t);
    ActedOwns(s, g, action);
    assert LeasesOk(Acted(s, g, action));
    assert RegistryOk(Acted(s, g, action));
  }

  lemma OwnedStays(gens: seq<Generation>, after: seq<Generation>, conns: seq<Conn>)
    requires OwnedOk(gens, conns) && |gens| <= |after|
    requires forall g, c: nat :: 0 <= g < |after| ==> (Owns(after[g], c) <==> g < |gens| && Owns(gens[g], c))
    ensures OwnedOk(after, conns)
  {
    forall c | 0 <= c < |conns| ensures ConnOk(after, conns, c) {
      assert ConnOk(gens, conns, c);
    }
    forall g, c: nat | 0 <= g < |after| ensures Listed(after, conns, g, c) {
      assert g < |gens| ==> Listed(gens, conns, g, c);
    }
  }

  lemma HeldInv(s: State)
    requires Inv(s)
    ensures Inv(Held(s))
  {
    var t := Held(s);
    assert t.leases[..|s.leases|] == s.leases;
    forall g | 0 <= g < |s.gens| ensures ChainOk(t.gens, g) {
      assert ChainOk(s.gens, g);
    }
    OwnedStays(s.gens, t.gens, s.conns);
  }

  lemma {:induction false} HoldersAfterRelease(leases: seq<Lease>, l: nat)
    requires l < |leases| && !leases[l].released
    ensures Holders(leases[l := leases[l].(released := true)]) == Holders(leases) - 1
  {
    var n := |leases| - 1;
    var after := leases[l := leases[l].(released := true)];
    if l == n {
      assert after[..n] == leases[..n];
    } else {
      HoldersAfterRelease(leases[..n], l);
      assert after[..n] == leases[..n][l := leases[l].(released := true)];
    }
  }

  lemma {:induction false} NoHolders(leases: seq<Lease>)
    requires Holders(leases) == 0
    ensures forall l :: 0 <= l < |leases| ==> leases[l].released
  {
    if |leases| > 0 {
      NoHolders(leases[..|leases| - 1]);
    }
  }

  /** The generation of the last holder closes unstarted, or the next one waits for it. */
  lemma LeftInv(s: State, g: nat)
    requires GensOk(s.gens) && OwnedOk(s.gens, s.conns) && RegistryOk(s) && s.current == Some(g)
    ensures var t := Left(s, g); GensOk(t.gens) && OwnedOk(t.gens, t.conns) && RegistryOk(t)
  {
    var t, gen := Left(s, g), s.gens[g];
    assert GenOk(gen) && ChainOk(s.gens, g);
    ChainStays(s.gens, g, t.gens[g]);
    if Free(s, g) {
      FreeFollowsAll(s, g);
    }
    OwnedStays(s.gens, t.gens, s.conns);
  }

  lemma ReleasedInv(s: State, l: nat)
    requires Inv(s) && l < |s.leases|
    ensures Inv(Released(s, l))
  {
    var lease := s.leases[l];
    if !lease.released {
      HoldersAfterRelease(s.leases, l);
      var u := s.(leases := s.leases[l := lease.(released := true)], holders := s.holders - 1);
      if u.holders == 0 {
        NoHolders(u.leases);
        LeftInv(u, lease.generation);
      }
    }
  }

  lemma StepInv(s: State, e: Event)
    requires Inv(s)
    ensures Inv(Step(s, e))
  {
    if Enabled(s, e) {
      match e {
        case Inside(g, action) => ActedInv(s, g, action);
        case Hold => HeldInv(s);
        case Release(l) => ReleasedInv(s, l);
        case Forget(g) => assert ChainOk(s.gens, g);
      }
    }
  }

  lemma {:induction false} RunInv(s: State, events: seq<Event>)
    requires Inv(s)
    ensures Inv(Run(s, events))
  {
    if |events| > 0 {
      RunInv(s, events[..|events| - 1]);
      StepInv(Run(s, events[..|events| - 1]), events[|events| - 1]);
    }
  }

  // ----- The promises ------------------------------------------------------------------------------

  lemma InitInv()
    ensures Inv(Init)
  {
  }

  predicate Asks(gen: Generation, k: nat) { LoopAt(gen, k).Asking? }

  /** A generation starts only after every earlier one has settled or never started. */
  lemma StartsAfterEarlierSettled(events: seq<Event>, g: nat, h: nat)
    requires var s := Run(Init, events); g < h < |s.gens| && s.gens[h].started
    ensures var s := Run(Init, events); s.gens[g].settled || (s.gens[g].closed && !s.gens[g].started)
  {
    var s := Run(Init, events);
    InitInv();
    RunInv(Init, events);
    assert ChainOk(s.gens, h) && GenOk(s.gens[g]);
  }

  predicate ClosedUnstarted(s: State, g: nat) { IsGen(s, g) && s.gens[g].closed && !s.gens[g].started }

  lemma StepKeepsUnstarted(s: State, e: Event, g: nat)
    requires Inv(s) && ClosedUnstarted(s, g)
    ensures ClosedUnstarted(Step(s, e), g)
  {
    if e.Inside? && e.generation == g && Enabled(s, e) {
      assert GenOk(s.gens[g]) && Listed(s.gens, s.conns, g, |s.conns|);
      ActSound(s.gens[g], e.action, Free(s, g), |s.conns|, 0);
    }
  }

  /** However a run goes on, a generation that closed before it started never starts. */
  lemma {:induction false} ClosedUnstartedNeverStarts(s: State, events: seq<Event>, g: nat)
    requires Inv(s) && ClosedUnstarted(s, g)
    ensures ClosedUnstarted(Run(s, events), g)
  {
    if |events| > 0 {
      ClosedUnstartedNeverStarts(s, events[..|events| - 1], g);
      RunInv(s, events[..|events| - 1]);
      StepKeepsUnstarted(Run(s, events[..|events| - 1]), events[|events| - 1], g);
    }
  }

  lemma InvOneAcquire(s: State, g: nat, k: nat, h: nat, m: nat)
    requires GensOk(s.gens) && g < |s.gens| && h < |s.gens| && Asks(s.gens[g], k) && Asks(s.gens[h], m)
    ensures g == h && k == m
  {
    assert GenOk(s.gens[g]) && GenOk(s.gens[h]) && ChainOk(s.gens, g) && ChainOk(s.gens, h);
  }

  /** In the whole pool at most one Acquire for a heartbeat connection is in flight. */
  lemma OneAcquireInFlight(events: seq<Event>, g: nat, k: nat, h: nat, m: nat)
    requires var s := Run(Init, events); g < |s.gens| && h < |s.gens| && Asks(s.gens[g], k) && Asks(s.gens[h], m)
    ensures g == h && k == m
  {
    InitInv();
    RunInv(Init, events);
    InvOneAcquire(Run(Init, events), g, k, h, m);
  }

  /**
   Every connection that the pool lent is in one generation until it is removed, once. Only one
   generation has connections, and one that has settled has none.
   */
  lemma ConnectionsRemovedOnce(events: seq<Event>, c: nat)
    requires c < |Run(Init, events).conns|
    ensures var s := Run(Init, events);
            var owner := s.conns[c].owner;
            && owner < |s.gens|
            && s.conns[c].removals == (if Owns(s.gens[owner], c) then 0 else 1)
            && (s.gens[owner].settled ==> s.conns[c].removals == 1)
            && (forall d :: 0 <= d < |s.conns| && s.conns[c].removals == s.conns[d].removals == 0 ==>
                  s.conns[d].owner == owner)
  {
    var s := Run(Init, events);
    InitInv();
    RunInv(Init, events);
    assert ConnOk(s.gens, s.conns, c);
    var owner := s.conns[c].owner;
    assert GenOk(s.gens[owner]) && ChainOk(s.gens, owner);
    forall d | 0 <= d < |s.conns| && s.conns[c].removals == s.conns[d].removals == 0 ensures s.conns[d].owner == owner {
      assert ConnOk(s.gens, s.conns, d);
      var other := s.conns[d].owner;
      assert GenOk(s.gens[other]) && ChainOk(s.gens, other);
    }
  }

  /** A worker that has not released its lease holds the current generation, which is open. */
  lemma LeasedGenerationIsOpen(events: seq<Event>, l: nat)
    requires var s := Run(Init, events); l < |s.leases| && !s.leases[l].released
    ensures var s := Run(Init, events);
            && s.current == Some(s.leases[l].generation)
            && IsGen(s, s.leases[l].generation) && !s.gens[s.leases[l].generation].closed
  {
    InitInv();
    RunInv(Init, events);
  }

  /** A connection stays held while a round needs it or the generation is open, unless a round discards it. */
  lemma ConnectionStaysHeld(gen: Generation, action: Action, free: bool, lent: nat)
    requires GenOk(gen) && CanAct(gen, action, free) && gen.conn.Some? && action != Discard(gen.conn.value)
    ensures var t := Act(gen, action, lent); t.rounds > 0 || !t.closed ==> t.conn == gen.conn
    ensures var t := Act(gen, action, lent); t.conn.None? ==> gen.conn.value in t.removing
  {
  }

  /** A discarded connection goes to removal, and an open generation asks for another one at once. */
  lemma DiscardReplaces(gen: Generation, c: nat, lent: nat)
    requires GenOk(gen) && CanAct(gen, Discard(c), true)
    ensures var t := Act(gen, Discard(c), lent);
            if gen.conn == Some(c)
            then t.conn.None? && t.removing == gen.removing + {c} && (t.acquiring <==> !gen.closed) && t.rounds == gen.rounds
            else t == gen
  {
  }

  /** Rounds are counted exactly, and only these two actions count them. */
  lemma RoundsAreCounted(gen: Generation, action: Action, free: bool, lent: nat)
    requires CanAct(gen, action, free)
    ensures action.StartRound? ==> Act(gen, action, lent).rounds == gen.rounds + 1
    ensures action.FinishRound? ==> Act(gen, action, lent).rounds == gen.rounds - 1
    ensures !action.StartRound? && !action.FinishRound? ==> Act(gen, action, lent).rounds == gen.rounds
  {
    match action
    case NeedConnection | StartRound | FinishRound | Discard(_) | RemovalEnds(_) | Close | Settle =>
    case WaitEnds(_) | AcquireFails(_) | AcquireSucceeds(_) | PrepareEnds(_, _) | DropEnds(_) | PauseEnds(_) =>
  }

  /** A release counts once; the last one lets a started generation close, and hands back what an unstarted one waited for. */
  lemma ReleaseExactly(s: State, l: nat)
    requires Inv(s) && Enabled(s, Release(l))
    ensures var t, g := Step(s, Release(l)), s.leases[l].generation;
            if s.leases[l].released then t == s
            else
              && t.leases == s.leases[l := s.leases[l].(released := true)] && t.holders == s.holders - 1
              && (t.holders > 0 ==> t.gens == s.gens && t.current == s.current && t.settling == s.settling)
              && (t.holders == 0 ==>
                    && t.current.None? && IsGen(s, g) && |t.gens| == |s.gens| && t.gens[g].leaving
                    && (s.gens[g].started ==> !t.gens[g].closed && t.settling == Some(g))
                    && (!s.gens[g].started ==>
                          t.gens[g].closed && t.gens[g].handedBack && t.settling == if Free(s, g) then None else s.gens[g].previous))
  {
    if !s.leases[l].released {
      HoldersAfterRelease(s.leases, l);
    }
  }

  // ----- One generation, in place --------------------------------------------------------------------

  class Connection {
    const previous: Option<nat>
    var loops: seq<Loop>
    var acquiring: bool
    var started: bool
    var conn: Option<nat>
    var rounds: nat
    var removing: set<nat>
    var leaving: bool
    var closed: bool
    var handedBack: bool
    var settling: bool
    var settled: bool

    function View(): Generation
      reads this
    {
      Generation(previous, loops, acquiring, started, conn, rounds, removing, leaving, closed, handedBack, settling, settled)
    }

    constructor (before: Option<nat>)
      ensures View() == Opened(before) && GenOk(View())
    {
      previous, loops, acquiring, started, conn, rounds := before, [], false, false, None, 0;
      removing, leaving, closed, handedBack, settling, settled := {}, false, false, false, false, false;
    }

    method SettleLocked()
      modifies this
      ensures View() == TrySettle(old(View()))
    {
      if !closed || rounds > 0 || acquiring || removing != {} || settling {
        return;
      }
      settling := true;
    }

    method StartAcquiring()
      modifies this
      ensures View() == StartLoop(old(View()))
    {
      if conn.Some? || acquiring || closed {
        return;
      }
      acquiring := true;
      loops := loops + [Waiting];
    }

    /** Only a loop without holders ends. */
    method EndAcquiring(k: nat)
      requires k < |loops|
      modifies this
      ensures View() == EndLoop(old(View()), k)
    {
      loops := loops[k := Ended];
      acquiring := false;
      SettleLocked();
    }

    method WaitEnded(k: nat)
      requires k < |loops|
      modifies this
      ensures View() == Act(old(View()), WaitEnds(k), 0)
    {
      if closed {
        EndAcquiring(k);
        return;
      }
      started := true;
      loops := loops[k := Asking];
    }

    /** The loop keeps the connection that it prepared, or removes it. */
    method PrepareEnded(k: nat, ok: bool)
      requires k < |loops| && loops[k].Fresh?
      modifies this
      ensures View() == Prepared(old(View()), k, ok)
    {
      var acquired := loops[k].conn;
      if !ok || closed {
        loops := loops[k := Dropping(acquired)];
        return;
      }
      conn := Some(acquired);
      acquiring := false;
      loops := loops[k := Ended];
    }

    method ReturnHeldConnection()
      modifies this
      ensures View() == ReturnHeld(old(View()))
    {
      if conn.Some? {
        removing := removing + {conn.value};
        conn := None;
      }
      SettleLocked();
    }

    method ReleaseConnection()
      modifies this
      ensures View() == Closed(old(View()))
    {
      closed, leaving := true, false;
      if rounds > 0 {
        return;
      }
      ReturnHeldConnection();
    }

    method EndRound()
      requires rounds > 0
      modifies this
      ensures View() == RoundFinished(old(View()))
    {
      rounds := rounds - 1;
      if rounds > 0 || !closed {
        return;
      }
      ReturnHeldConnection();
    }

    method DiscardConnection(held: nat)
      modifies this
      ensures View() == Discarded(old(View()), held)
    {
      if conn != Some(held) {
        return;
      }
      conn := None;
      StartAcquiring();
      removing := removing + {held};
    }

    method RemovalEnded(c: nat)
      modifies this
      ensures View() == Act(old(View()), RemovalEnds(c), 0)
    {
      removing := removing - {c};
      SettleLocked();
    }

    /** The loop stores or drops a connection that Acquire lent, or pauses after one it did not get. */
    method MoveLoop(action: Action, lent: nat)
      requires CanAct(View(), action, true)
      requires action.AcquireFails? || action.AcquireSucceeds? || action.DropEnds? || action.PauseEnds?
      modifies this
      ensures View() == Act(old(View()), action, lent)
    {
      var k := action.k;
      if action.AcquireSucceeds? {
        loops := loops[k := Fresh(lent)];
      } else if action.PauseEnds? {
        loops := loops[k := Asking];
      } else if closed {
        EndAcquiring(k);
      } else {
        loops := loops[k := Pausing];
      }
    }

    /** One action inside the generation: it follows `Act`, and the invariant of the generation stays. */
    method TakeAction(action: Action, free: bool, lent: nat)
      requires GenOk(View()) && CanAct(View(), action, free) && !Owns(View(), lent)
      modifies this
      ensures View() == Act(old(View()), action, lent) && GenOk(View())
    {
      ActSound(View(), action, free, lent, lent);
      match action {
        case NeedConnection => StartAcquiring();
        case WaitEnds(k) => WaitEnded(k);
        case PrepareEnds(k, ok) => PrepareEnded(k, ok);
        case StartRound => rounds := rounds + 1;
        case FinishRound => EndRound();
        case Discard(c) => DiscardConnection(c);
        case RemovalEnds(c) => RemovalEnded(c);
        case Close => ReleaseConnection();
        case Settle => settled := true;
        case _ => MoveLoop(action, lent);
      }
    }
  }

  // ----- The registry, in place ------------------------------------------------------------------------

  class Registry {
    var gens: seq<Generation>
    var conns: seq<Conn>
    var current: Option<nat>
    var holders: nat
    var leases: seq<Lease>
    var settling: Option<nat>

    function View(): State
      reads this
    {
      State(gens, conns, current, holders, leases, settling)
    }

    constructor ()
      ensures View() == Init && Inv(View())
    {
      gens, conns, current, holders, leases, settling := [], [], None, 0, [], None;
    }

    method HoldConnection()
      requires Inv(View())
      modifies this
      ensures View() == Held(old(View())) && Inv(View())
    {
      HeldInv(View());
      if current.None? {
        current := Some(|gens|);
        gens := gens + [Opened(settling)];
      }
      holders := holders + 1;
      leases := leases + [Lease(current.value, false)];
    }

    method ReleaseLease(l: nat)
      requires Inv(View()) && l < |leases|
      modifies this
      ensures View() == Released(old(View()), l) && Inv(View())
    {
      ReleasedInv(View(), l);
      if leases[l].released {
        return;
      }
      var g := leases[l].generation;
      HoldersAfterRelease(leases, l);
      leases := leases[l := leases[l].(released := true)];
      if current != Some(g) {
        return;
      }
      holders := holders - 1;
      if holders > 0 {
        return;
      }
      LeaveGeneration(g);
    }

    /** Closes a generation that never started, or lets the next one wait for it. */
    method LeaveGeneration(g: nat)
      requires g < |gens|
      modifies this
      ensures View() == Left(old(View()), g)
    {
      var gen := gens[g].(leaving := true);
      current := None;
      if gen.started {
        settling := Some(g);
      } else {
        settling := if gen.previous.None? || (gen.previous.value < |gens| && gens[gen.previous.value].settled)
        then None else gen.previous;
        gen := gen.(closed := true, handedBack := true);
      }
      gens := gens[g := gen];
    }
  }
}
