/**
 The rendezvous of completions with the goroutines that flush them. Completions with one key wait while
 an earlier batch of that key is in flight. `Run` folds any list of events, and a disabled event changes
 nothing.
 */
module CompletionQueue {
  import opened Sequences

  type Key = nat

  /** A flushing goroutine between batches, with a batch whose `left` completions wait, or at its end. */
  datatype Stage = AtHead | Flying(left: set<nat>) | Ended

  datatype Flusher = Flusher(key: Key, stage: Stage)

  datatype Entry = Entry(key: Key, answers: nat)

  /** `flushing` names the goroutine that the flag of each key stands for. */
  datatype State = State(
    pending: map<Key, seq<nat>>,
    flushing: map<Key, nat>,
    flushers: seq<Flusher>,
    entries: seq<Entry>)

  datatype Event = Submit(key: Key) | Take(flusher: nat) | Answer(flusher: nat, entry: nat) | Return(flusher: nat)

  const Init := State(map[], map[], [], [])

  function Pending(s: State, key: Key): seq<nat> { if key in s.pending then s.pending[key] else [] }

  /** A flusher starts for the key, unless one runs. */
  function Started(s: State, key: Key): State {
    if key in s.flushing then s
    else s.(flushing := s.flushing[key := |s.flushers|], flushers := s.flushers + [Flusher(key, AtHead)])
  }

  function Joined(s: State, key: Key): State {
    s.(entries := s.entries + [Entry(key, 0)], pending := s.pending[key := Pending(s, key) + [|s.entries|]])
  }

  /** The completion joins its batch, and a flusher runs for its key, under one lock. */
  function Submitted(s: State, key: Key): State { Joined(Started(s, key), key) }

  predicate IsAt(s: State, f: nat, stage: Stage) { f < |s.flushers| && s.flushers[f].stage == stage }

  function SetStage(s: State, f: nat, stage: Stage): State
    requires f < |s.flushers|
  {
    s.(flushers := s.flushers[f := s.flushers[f].(stage := stage)])
  }

  function Members(batch: seq<nat>): set<nat> { set e | e in batch }

  /** The flusher takes all that waits for its key, or ends under the same lock when nothing does. */
  function Taken(s: State, f: nat): State
    requires f < |s.flushers|
  {
    var key := s.flushers[f].key;
    var batch := Pending(s, key);
    if batch == [] then SetStage(s, f, Ended).(pending := s.pending - {key}, flushing := s.flushing - {key})
    else SetStage(s, f, Flying(Members(batch))).(pending := s.pending - {key})
  }

  function Answered(s: State, f: nat, e: nat): State
    requires f < |s.flushers| && s.flushers[f].stage.Flying? && e < |s.entries|
  {
    SetStage(s, f, Flying(s.flushers[f].stage.left - {e}))
      .(entries := s.entries[e := s.entries[e].(answers := s.entries[e].answers + 1)])
  }

  predicate Enabled(s: State, event: Event) {
    match event
    case Submit(_) => true
    case Take(f) => IsAt(s, f, AtHead)
    case Answer(f, e) =>
      f < |s.flushers| && s.flushers[f].stage.Flying? && e in s.flushers[f].stage.left && e < |s.entries|
    case Return(f) => IsAt(s, f, Flying({}))
  }

  function Step(s: State, event: Event): State {
    if !Enabled(s, event) then s
    else
      match event
      case Submit(key) => Submitted(s, key)
      case Take(f) => Taken(s, f)
      case Answer(f, e) => Answered(s, f, e)
      case Return(f) => SetStage(s, f, AtHead)
  }

  function Run(s: State, events: seq<Event>): State {
    if |events| == 0 then s else Step(Run(s, events[..|events| - 1]), events[|events| - 1])
  }

  // ----- The invariant ---------------------------------------------------------------------------------

  /** The completion waits for a flusher to take it. */
  predicate Waits(s: State, e: nat, key: Key) { e in Pending(s, key) }

  /** The completion is in the batch that flusher `f` has in flight. */
  predicate Flies(s: State, e: nat, f: nat) {
    f < |s.flushers| && s.flushers[f].stage.Flying? && e in s.flushers[f].stage.left
  }

  predicate FlusherOk(s: State, f: nat)
    requires f < |s.flushers|
  {
    var flusher := s.flushers[f];
    && (!flusher.stage.Ended? <==> flusher.key in s.flushing && s.flushing[flusher.key] == f)
    && (flusher.stage.Flying? ==> forall e :: e in flusher.stage.left ==> e < |s.entries| && s.entries[e].key == flusher.key)
  }

  predicate KeysOk(s: State) {
    && (forall key :: key in s.pending ==> Distinct(s.pending[key]))
    && (forall key :: key in s.flushing ==> s.flushing[key] < |s.flushers| && s.flushers[s.flushing[key]].key == key)
    && (forall key :: key in s.pending ==> s.pending[key] != [] && key in s.flushing)
    && (forall key, i :: key in s.pending && 0 <= i < |s.pending[key]| ==>
          s.pending[key][i] < |s.entries| && s.entries[s.pending[key][i]].key == key)
  }

  /** A completion has had one answer, or it is in exactly one place, where a live flusher will find it. */
  predicate EntryOk(s: State, e: nat)
    requires e < |s.entries|
  {
    var entry := s.entries[e];
    var flies := entry.key in s.flushing && Flies(s, e, s.flushing[entry.key]);
    && entry.answers <= 1
    && (entry.answers == 1 <==> !Waits(s, e, entry.key) && !flies)
    && !(Waits(s, e, entry.key) && flies)
  }

  predicate Inv(s: State) {
    && KeysOk(s)
    && (forall f :: 0 <= f < |s.flushers| ==> FlusherOk(s, f))
    && (forall e :: 0 <= e < |s.entries| ==> EntryOk(s, e))
  }

  lemma StartedInv(s: State, key: Key)
    requires Inv(s)
    ensures Inv(Started(s, key)) && key in Started(s, key).flushing
  {
    var t := Started(s, key);
    forall f | 0 <= f < |t.flushers| ensures FlusherOk(t, f) {
      assert f < |s.flushers| ==> FlusherOk(s, f);
    }
    forall e | 0 <= e < |t.entries| ensures EntryOk(t, e) {
      assert EntryOk(s, e);
    }
  }

  lemma JoinedEntry(s: State, key: Key, e: nat)
    requires Inv(s) && key in s.flushing && e <= |s.entries|
    ensures EntryOk(Joined(s, key), e)
  {
    assert FlusherOk(s, s.flushing[key]);
    if e < |s.entries| {
      assert EntryOk(s, e);
    }
  }

  lemma JoinedKeys(s: State, key: Key)
    requires KeysOk(s) && key in s.flushing
    ensures KeysOk(Joined(s, key))
  {
    var t := Joined(s, key);
    var batch := Pending(s, key);
    assert Distinct(batch + [|s.entries|]);
    forall k | k in t.pending ensures Distinct(t.pending[k]) {
      assert k != key ==> t.pending[k] == s.pending[k];
    }
  }

  lemma JoinedInv(s: State, key: Key)
    requires Inv(s) && key in s.flushing
    ensures Inv(Joined(s, key))
  {
    var t := Joined(s, key);
    JoinedKeys(s, key);
    forall f | 0 <= f < |t.flushers| ensures FlusherOk(t, f) {
      assert FlusherOk(s, f);
    }
    forall e | 0 <= e < |t.entries| ensures EntryOk(t, e) {
      JoinedEntry(s, key, e);
    }
  }

  lemma TakenInv(s: State, f: nat)
    requires Inv(s) && IsAt(s, f, AtHead)
    ensures Inv(Taken(s, f))
  {
    var t := Taken(s, f);
    assert FlusherOk(s, f);
    forall g | 0 <= g < |t.flushers| ensures FlusherOk(t, g) {
      assert FlusherOk(s, g);
    }
    forall e | 0 <= e < |t.entries| ensures EntryOk(t, e) {
      assert EntryOk(s, e);
    }
  }

  lemma AnsweredInv(s: State, f: nat, e: nat)
    requires Inv(s) && Enabled(s, Answer(f, e))
    ensures Inv(Answered(s, f, e))
  {
    var t := Answered(s, f, e);
    assert FlusherOk(s, f);
    forall g | 0 <= g < |t.flushers| ensures FlusherOk(t, g) {
      assert FlusherOk(s, g);
    }
    forall d | 0 <= d < |t.entries| ensures EntryOk(t, d) {
      assert EntryOk(s, d);
    }
  }

  lemma StepInv(s: State, event: Event)
    requires Inv(s)
    ensures Inv(Step(s, event))
  {
    if Enabled(s, event) {
      match event {
        case Submit(key) => StartedInv(s, key); JoinedInv(Started(s, key), key);
        case Take(f) => TakenInv(s, f);
        case Answer(f, e) => AnsweredInv(s, f, e);
        case Return(f) =>
          var t := SetStage(s, f, AtHead);
          forall g | 0 <= g < |t.flushers| ensures FlusherOk(t, g) {
            assert FlusherOk(s, g);
          }
          forall e | 0 <= e < |t.entries| ensures EntryOk(t, e) {
            assert EntryOk(s, e);
          }
      }
    }
  }

  lemma {:induction false} RunInv(s: State, events: seq<Event>)
    requires Inv(s)
    ensures Inv(Run(s, events))
  {
    if |events| > 0 {
      RunInv(s, events[..|events| - 1]);
      StepInv(Run(s, events[..|events| - 1]), events[|events| - 1]);
    }
  }

  // ----- The promises --------------------------------------------------------------------------------------

  /** No completion waits for a key without a live flusher, and no key has two. */
  lemma OneFlusherPerKey(events: seq<Event>, f: nat, g: nat)
    requires var s := Run(Init, events); f < |s.flushers| && g < |s.flushers| && s.flushers[f].key == s.flushers[g].key
    requires var s := Run(Init, events); !s.flushers[f].stage.Ended? && !s.flushers[g].stage.Ended?
    ensures f == g
  {
    RunInv(Init, events);
    assert FlusherOk(Run(Init, events), f) && FlusherOk(Run(Init, events), g);
  }

  lemma PendingHasFlusher(events: seq<Event>, key: Key)
    requires key in Run(Init, events).pending
    ensures var s := Run(Init, events);
            key in s.flushing && s.flushing[key] < |s.flushers|
            && s.flushers[s.flushing[key]].key == key && !s.flushers[s.flushing[key]].stage.Ended?
  {
    var s := Run(Init, events);
    RunInv(Init, events);
    assert FlusherOk(s, s.flushing[key]);
  }

  /** A completion is answered at most once, and until then a live flusher of its key will answer it. */
  lemma AnsweredExactlyOnce(events: seq<Event>, e: nat)
    requires e < |Run(Init, events).entries|
    ensures var s := Run(Init, events);
            var key := s.entries[e].key;
            && s.entries[e].answers <= 1
            && (s.entries[e].answers == 0 ==>
                  key in s.flushing && s.flushing[key] < |s.flushers| && !s.flushers[s.flushing[key]].stage.Ended?
                  && (Waits(s, e, key) || Flies(s, e, s.flushing[key])))
  {
    var s := Run(Init, events);
    RunInv(Init, events);
    assert EntryOk(s, e);
    var key := s.entries[e].key;
    if s.entries[e].answers == 0 {
      assert key in s.flushing;
      assert FlusherOk(s, s.flushing[key]);
    }
  }

  // ----- No completion is stuck --------------------------------------------------------------------------------

  lemma {:induction false} RunConcat(s: State, a: seq<Event>, b: seq<Event>)
    ensures Run(s, a + b) == Run(Run(s, a), b)
  {
    if |b| == 0 {
      assert a + b == a;
    } else {
      RunConcat(s, a, b[..|b| - 1]);
      assert (a + b)[..|a + b| - 1] == a + b[..|b| - 1];
    }
  }

  lemma {:induction false} RunOne(s: State, e: Event)
    ensures Run(s, [e]) == Step(s, e)
  {
    assert [e][..0] == [];
  }

  /** A flusher can answer its whole batch. */
  lemma {:induction false} BatchCanLand(s: State, f: nat) returns (events: seq<Event>)
    requires Inv(s) && f < |s.flushers| && s.flushers[f].stage.Flying?
    ensures var t := Run(s, events);
            && Inv(t) && t.pending == s.pending && t.flushing == s.flushing && |t.entries| == |s.entries|
            && t.flushers == s.flushers[f := s.flushers[f].(stage := Flying({}))]
            && forall e :: 0 <= e < |s.entries| ==>
                 t.entries[e].answers == s.entries[e].answers + if e in s.flushers[f].stage.left then 1 else 0
    decreases s.flushers[f].stage.left
  {
    var left := s.flushers[f].stage.left;
    if left == {} {
      events := [];
      assert s.flushers == s.flushers[f := s.flushers[f].(stage := Flying({}))];
    } else {
      var e :| e in left;
      assert FlusherOk(s, f);
      StepInv(s, Answer(f, e));
      var rest := BatchCanLand(Step(s, Answer(f, e)), f);
      events := [Answer(f, e)] + rest;
      RunConcat(s, [Answer(f, e)], rest);
      RunOne(s, Answer(f, e));
    }
  }

  /** A flusher at its head can take what waits for its key, and answer it. */
  lemma {:induction false} PendingCanLand(s: State, f: nat, e: nat) returns (events: seq<Event>)
    requires Inv(s) && IsAt(s, f, AtHead) && e in Pending(s, s.flushers[f].key) && e < |s.entries|
    ensures e < |Run(s, events).entries| && Run(s, events).entries[e].answers == s.entries[e].answers + 1
  {
    StepInv(s, Take(f));
    var t := Step(s, Take(f));
    var rest := BatchCanLand(t, f);
    events := [Take(f)] + rest;
    RunConcat(s, [Take(f)], rest);
    RunOne(s, Take(f));
  }

  /** From every state that a run can reach, every completion can still get its one answer. */
  lemma {:induction false} NoCompletionIsStuck(s: State, e: nat) returns (events: seq<Event>)
    requires Inv(s) && e < |s.entries| && s.entries[e].answers == 0
    ensures e < |Run(s, events).entries| && Run(s, events).entries[e].answers == 1
  {
    assert EntryOk(s, e);
    if f: nat :| Flies(s, e, f) {
      events := BatchCanLand(s, f);
    } else {
      var key := s.entries[e].key;
      assert Waits(s, e, key);
      var f := s.flushing[key];
      assert FlusherOk(s, f);
      if s.flushers[f].stage.AtHead? {
        events := PendingCanLand(s, f, e);
      } else {
        events := LandAndTake(s, f, e);
      }
    }
  }

  /** Behind a batch in flight: it lands, its flusher returns, and takes the completion. */
  lemma {:induction false} LandAndTake(s: State, f: nat, e: nat) returns (events: seq<Event>)
    requires Inv(s) && f < |s.flushers| && s.flushers[f].stage.Flying? && e < |s.entries|
    requires e in Pending(s, s.flushers[f].key) && e !in s.flushers[f].stage.left
    ensures e < |Run(s, events).entries| && Run(s, events).entries[e].answers == s.entries[e].answers + 1
  {
    var first := BatchCanLand(s, f);
    var t := Run(s, first);
    StepInv(t, Return(f));
    var u := Step(t, Return(f));
    var last := PendingCanLand(u, f, e);
    RunConcat(s, first, [Return(f)]);
    RunOne(t, Return(f));
    events := first + [Return(f)] + last;
    RunConcat(s, first + [Return(f)], last);
  }

  /** Every submitted completion waits for its key, and a flusher runs for that key. */
  lemma SubmittedWaits(s: State, key: Key)
    requires Inv(s)
    ensures var t := Step(s, Submit(key));
            && |t.entries| == |s.entries| + 1 && t.entries[|s.entries|] == Entry(key, 0)
            && Pending(t, key) == Pending(s, key) + [|s.entries|] && key in t.flushing
  {
  }

  // ----- The batcher, in place -------------------------------------------------------------------------------

  class Batcher {
    var pending: map<Key, seq<nat>>
    var flushing: map<Key, nat>
    var flushers: seq<Flusher>
    var entries: seq<Entry>

    function View(): State
      reads this
    {
      State(pending, flushing, flushers, entries)
    }

    constructor ()
      ensures View() == Init && Inv(View())
    {
      pending, flushing, flushers, entries := map[], map[], [], [];
    }

    method SubmitCompletion(key: Key) returns (entry: nat)
      requires Inv(View())
      modifies this
      ensures View() == Submitted(old(View()), key) && entry == |old(entries)| && Inv(View())
    {
      StepInv(View(), Submit(key));
      entry := |entries|;
      entries := entries + [Entry(key, 0)];
      pending := pending[key := (if key in pending then pending[key] else []) + [entry]];
      if key !in flushing {
        flushing := flushing[key := |flushers|];
        flushers := flushers + [Flusher(key, AtHead)];
      }
    }

    /** One turn of a flusher: it takes the whole batch of its key, or ends. */
    method TakeBatch(f: nat) returns (batch: seq<nat>)
      requires Inv(View()) && Enabled(View(), Take(f))
      modifies this
      ensures View() == Taken(old(View()), f) && batch == Pending(old(View()), old(flushers)[f].key) && Inv(View())
    {
      StepInv(View(), Take(f));
      var key := flushers[f].key;
      batch := if key in pending then pending[key] else [];
      pending := pending - {key};
      if batch == [] {
        flushing := flushing - {key};
        flushers := flushers[f := Flusher(key, Ended)];
      } else {
        flushers := flushers[f := Flusher(key, Flying(Members(batch)))];
      }
    }

    /** A statement answers one completion of the batch in flight. */
    method AnswerCompletion(f: nat, e: nat)
      requires Inv(View()) && Enabled(View(), Answer(f, e))
      modifies this
      ensures View() == Answered(old(View()), f, e) && Inv(View())
    {
      StepInv(View(), Answer(f, e));
      entries := entries[e := entries[e].(answers := entries[e].answers + 1)];
      flushers := flushers[f := flushers[f].(stage := Flying(flushers[f].stage.left - {e}))];
    }

    /** All statements of the batch have answered, and the flusher looks for the next batch. */
    method ReturnToHead(f: nat)
      requires Inv(View()) && Enabled(View(), Return(f))
      modifies this
      ensures View() == SetStage(old(View()), f, AtHead) && Inv(View())
    {
      StepInv(View(), Return(f));
      flushers := flushers[f := flushers[f].(stage := AtHead)];
    }
  }
}
