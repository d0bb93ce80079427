/**
 The coordinator of a batch handler. Members of one queue wait until a batch is full or its linger ends,
 and leave together. `Run` folds any list of events, and a disabled event changes nothing.
 */
module BatchCoordinator {
  import opened Prelude
  import opened Ordering
  import opened Sequences

  type Queue = nat

  datatype Place = Waiting | Withdrawn | InBatch(batch: nat)

  /** Members are numbered in the order of their arrival. `results` counts what a member received. */
  datatype Member = Member(queue: Queue, priority: int, place: Place, results: nat)

  /** The first `delivered` members of a batch have their results. */
  datatype Batch = Batch(members: seq<nat>, delivered: nat)

  datatype State = State(maxSize: nat, pending: map<Queue, seq<nat>>, members: seq<Member>, batches: seq<Batch>)

  datatype Event = Arrive(queue: Queue, priority: int) | Flush(queue: Queue) | Withdraw(member: nat) | Deliver(batch: nat)

  function Init(maxSize: nat): State { State(maxSize, map[], [], []) }

  function Pending(s: State, q: Queue): seq<nat> { if q in s.pending then s.pending[q] else [] }

  function SetPending(s: State, q: Queue, waiting: seq<nat>): State {
    s.(pending := if waiting == [] then s.pending - {q} else s.pending[q := waiting])
  }

  function Priority(members: seq<Member>, m: nat): int { if m < |members| then members[m].priority else 0 }

  /** Higher priority first, then earlier arrival. */
  predicate Before(members: seq<Member>, a: nat, b: nat) {
    var p, q := Priority(members, a), Priority(members, b);
    p > q || (p == q && a < b)
  }

  function BatchOrder(members: seq<Member>): (nat, nat) -> bool { (a: nat, b: nat) => Before(members, a, b) }

  /** The oldest waiting members of the queue, up to the batch size. */
  function Oldest(s: State, q: Queue): seq<nat> {
    var waiting := Pending(s, q);
    waiting[..Min(s.maxSize, |waiting|)]
  }

  function PlaceAll(members: seq<Member>, chosen: seq<nat>, place: Place): seq<Member> {
    seq(|members|, m requires 0 <= m < |members| => if m in chosen then members[m].(place := place) else members[m])
  }

  /** The oldest members leave as one batch, in batch order. */
  function Taken(s: State, q: Queue): State {
    var oldest, waiting := Oldest(s, q), Pending(s, q);
    if waiting == [] then s
    else
      SetPending(s, q, waiting[|oldest|..])
        .(members := PlaceAll(s.members, oldest, InBatch(|s.batches|)),
          batches := s.batches + [Batch(Sort(oldest, BatchOrder(s.members)), 0)])
  }

  function Joined(s: State, q: Queue, priority: int): State {
    s.(members := s.members + [Member(q, priority, Waiting, 0)], pending := s.pending[q := Pending(s, q) + [|s.members|]])
  }

  function Arrived(s: State, q: Queue, priority: int): State {
    var t := Joined(s, q, priority);
    if |Pending(t, q)| >= s.maxSize then Taken(t, q) else t
  }

  /** A member whose context ended leaves, unless a batch already has it. */
  function Removed(s: State, m: nat): State
    requires m < |s.members|
  {
    var q := s.members[m].queue;
    var waiting := Pending(s, q);
    var i := IndexOf(waiting, m);
    if i == |waiting| then s
    else
      SetPending(s, q, Without(waiting, i))
        .(members := s.members[m := s.members[m].(place := Withdrawn)])
  }

  function Delivered(s: State, b: nat): State
    requires b < |s.batches| && s.batches[b].delivered < |s.batches[b].members|
  {
    var batch := s.batches[b];
    var m := batch.members[batch.delivered];
    if m >= |s.members| then s
    else
      s.(batches := s.batches[b := batch.(delivered := batch.delivered + 1)],
         members := s.members[m := s.members[m].(results := s.members[m].results + 1)])
  }

  predicate Enabled(s: State, e: Event) {
    match e
    case Arrive(_, _) => true
    case Flush(_) => true
    case Withdraw(m) => m < |s.members|
    case Deliver(b) => b < |s.batches| && s.batches[b].delivered < |s.batches[b].members|
  }

  function Step(s: State, e: Event): State {
    if !Enabled(s, e) then s
    else
      match e
      case Arrive(q, priority) => Arrived(s, q, priority)
      case Flush(q) => Taken(s, q)
      case Withdraw(m) => Removed(s, m)
      case Deliver(b) => Delivered(s, b)
  }

  function Run(s: State, events: seq<Event>): State {
    if |events| == 0 then s else Step(Run(s, events[..|events| - 1]), events[|events| - 1])
  }

  // ----- The invariant ---------------------------------------------------------------------------------

  predicate QueueOk(s: State, q: Queue) {
    var waiting := Pending(s, q);
    && Distinct(waiting)
    && forall i :: 0 <= i < |waiting| ==>
         waiting[i] < |s.members| && s.members[waiting[i]].queue == q && s.members[waiting[i]].place.Waiting?
  }

  predicate BatchOk(s: State, b: nat)
    requires b < |s.batches|
  {
    var batch := s.batches[b];
    && 0 < |batch.members| <= s.maxSize && batch.delivered <= |batch.members| && Distinct(batch.members)
    && (forall i :: 0 <= i < |batch.members| ==>
          batch.members[i] < |s.members| && s.members[batch.members[i]].place == InBatch(b)
          && s.members[batch.members[i]].results == if i < batch.delivered then 1 else 0)
    && (forall i, j :: 0 <= i < j < |batch.members| ==> Before(s.members, batch.members[i], batch.members[j]))
  }

  /** A member is where its place says, and only a batch gives results. */
  predicate MemberOk(s: State, m: nat)
    requires m < |s.members|
  {
    var member := s.members[m];
    match member.place
    case Waiting => m in Pending(s, member.queue) && member.results == 0
    case Withdrawn => member.results == 0
    case InBatch(b) => b < |s.batches| && m in s.batches[b].members
  }

  predicate BatchesOk(s: State) { forall b :: 0 <= b < |s.batches| ==> BatchOk(s, b) }

  predicate MembersOk(s: State) { forall m :: 0 <= m < |s.members| ==> MemberOk(s, m) }

  ghost predicate QueuesOk(s: State) { forall q :: QueueOk(s, q) }

  ghost predicate Shape(s: State) { s.maxSize > 0 && QueuesOk(s) && BatchesOk(s) && MembersOk(s) }

  /** Inside the lock, queue `q` may hold one full batch. */
  ghost predicate Locked(s: State, q: Queue) {
    Shape(s) && |Pending(s, q)| <= s.maxSize && forall p :: p != q ==> |Pending(s, p)| < s.maxSize
  }

  ghost predicate Inv(s: State) { Shape(s) && forall q :: |Pending(s, q)| < s.maxSize }

  // ----- Every step keeps the invariant ------------------------------------------------------------------

  lemma JoinedShape(s: State, q: Queue, priority: int)
    requires Inv(s)
    ensures Locked(Joined(s, q, priority), q)
  {
    var t := Joined(s, q, priority);
    forall p ensures QueueOk(t, p) && |Pending(t, p)| <= if p == q then s.maxSize else s.maxSize - 1 {
      assert QueueOk(s, p) && |Pending(s, p)| < s.maxSize;
    }
    forall b | 0 <= b < |t.batches| ensures BatchOk(t, b) {
      assert BatchOk(s, b);
    }
    forall m | 0 <= m < |t.members| ensures MemberOk(t, m) {
      assert m < |s.members| ==> MemberOk(s, m);
    }
  }

  /** The batch holds the chosen members, each once, in batch order. */
  lemma {:induction false} BatchIsOrdered(members: seq<Member>, chosen: seq<nat>)
    requires Distinct(chosen)
    ensures var batch := Sort(chosen, BatchOrder(members));
            && |batch| == |chosen| && Distinct(batch) && (forall m :: m in batch <==> m in chosen)
            && (forall i, j :: 0 <= i < j < |batch| ==> Before(members, batch[i], batch[j]))
  {
    var less, batch := BatchOrder(members), Sort(chosen, BatchOrder(members));
    assert StrictWeak(less);
    SortSorted(chosen, less);
    SortPermutes(chosen, less);
    SortDistinct(chosen, less);
    forall i, j | 0 <= i < j < |batch| ensures Before(members, batch[i], batch[j]) {
      assert !less(batch[j], batch[i]);
    }
  }

  /** When a queue holds at most one batch, all of it leaves. */
  lemma TakesAll(s: State, q: Queue)
    requires |Pending(s, q)| <= s.maxSize
    ensures Oldest(s, q) == Pending(s, q) && Pending(Taken(s, q), q) == []
  {
  }

  lemma TakenQueues(s: State, q: Queue)
    requires Locked(s, q)
    ensures QueuesOk(Taken(s, q)) && forall p :: |Pending(Taken(s, q), p)| < s.maxSize
  {
    var t := Taken(s, q);
    TakesAll(s, q);
    assert QueueOk(s, q);
    forall p ensures QueueOk(t, p) && |Pending(t, p)| < s.maxSize {
      assert QueueOk(s, p);
      assert p != q ==> Pending(t, p) == Pending(s, p);
    }
  }

  lemma PlacedOrder(members: seq<Member>, chosen: seq<nat>, place: Place)
    ensures forall a, b :: Before(PlaceAll(members, chosen, place), a, b) <==> Before(members, a, b)
  {
  }

  lemma TakenMembers(s: State, q: Queue)
    requires Shape(s) && 0 < |Pending(s, q)| <= s.maxSize
    ensures MembersOk(Taken(s, q))
  {
    var t, waiting := Taken(s, q), Pending(s, q);
    TakesAll(s, q);
    assert QueueOk(s, q);
    BatchIsOrdered(s.members, waiting);
    forall m | 0 <= m < |s.members| ensures MemberOk(t, m) {
      assert MemberOk(s, m);
    }
  }

  lemma TakenBatches(s: State, q: Queue, b: nat)
    requires Shape(s) && 0 < |Pending(s, q)| <= s.maxSize && b < |s.batches|
    ensures BatchOk(Taken(s, q), b)
  {
    var t, waiting := Taken(s, q), Pending(s, q);
    TakesAll(s, q);
    assert QueueOk(s, q);
    assert BatchOk(s, b);
    forall i | 0 <= i < |s.batches[b].members|
      ensures t.members[s.batches[b].members[i]] == s.members[s.batches[b].members[i]]
    {
      assert s.batches[b].members[i] !in waiting;
    }
    PlacedOrder(s.members, waiting, InBatch(|s.batches|));
  }

  lemma NewBatchOk(s: State, q: Queue, waiting: seq<nat>)
    requires Shape(s) && waiting == Pending(s, q) && 0 < |waiting| <= s.maxSize
    ensures BatchOk(Taken(s, q), |s.batches|)
  {
    var t := Taken(s, q);
    TakesAll(s, q);
    assert QueueOk(s, q);
    BatchIsOrdered(s.members, waiting);
    PlacedOrder(s.members, waiting, InBatch(|s.batches|));
    var batch := t.batches[|s.batches|].members;
    forall i | 0 <= i < |batch|
      ensures batch[i] < |s.members| && t.members[batch[i]] == s.members[batch[i]].(place := InBatch(|s.batches|))
              && s.members[batch[i]].results == 0
    {
      assert batch[i] in waiting;
      assert MemberOk(s, batch[i]);
    }
  }

  lemma TakenInv(s: State, q: Queue)
    requires Locked(s, q)
    ensures Inv(Taken(s, q))
  {
    TakenQueues(s, q);
    if |Pending(s, q)| > 0 {
      TakenMembers(s, q);
      forall b | 0 <= b < |s.batches| ensures BatchOk(Taken(s, q), b) {
        TakenBatches(s, q, b);
      }
      NewBatchOk(s, q, Pending(s, q));
    }
  }

  lemma RemovedQueues(s: State, m: nat)
    requires Inv(s) && m < |s.members| && m in Pending(s, s.members[m].queue)
    ensures QueuesOk(Removed(s, m)) && forall p :: |Pending(Removed(s, m), p)| < s.maxSize
  {
    var t, q := Removed(s, m), s.members[m].queue;
    assert QueueOk(s, q) && |Pending(s, q)| < s.maxSize;
    WithoutOne(Pending(s, q), IndexOf(Pending(s, q), m));
    forall p ensures QueueOk(t, p) && |Pending(t, p)| < s.maxSize {
      assert QueueOk(s, p) && |Pending(s, p)| < s.maxSize;
      if p == q {
        forall k | 0 <= k < |Pending(t, q)| ensures Pending(t, q)[k] in Pending(s, q) && Pending(t, q)[k] != m {
          assert Pending(t, q)[k] in Pending(t, q);
        }
      }
    }
  }

  lemma RemovedMembers(s: State, m: nat)
    requires Inv(s) && m < |s.members| && m in Pending(s, s.members[m].queue)
    ensures BatchesOk(Removed(s, m)) && MembersOk(Removed(s, m))
  {
    var t, q := Removed(s, m), s.members[m].queue;
    assert QueueOk(s, q);
    WithoutOne(Pending(s, q), IndexOf(Pending(s, q), m));
    forall b | 0 <= b < |t.batches| ensures BatchOk(t, b) {
      assert BatchOk(s, b);
    }
    forall n | 0 <= n < |t.members| ensures MemberOk(t, n) {
      assert MemberOk(s, n);
    }
  }

  lemma RemovedInv(s: State, m: nat)
    requires Inv(s) && m < |s.members|
    ensures Inv(Removed(s, m))
  {
    if m in Pending(s, s.members[m].queue) {
      RemovedQueues(s, m);
      RemovedMembers(s, m);
    }
  }

  lemma DeliveredInv(s: State, b: nat)
    requires Inv(s) && Enabled(s, Deliver(b))
    ensures Inv(Delivered(s, b))
  {
    var t, batch := Delivered(s, b), s.batches[b];
    assert BatchOk(s, b);
    forall p ensures QueueOk(t, p) && |Pending(t, p)| < s.maxSize {
      assert QueueOk(s, p);
    }
    forall c | 0 <= c < |t.batches| ensures BatchOk(t, c) {
      assert BatchOk(s, c);
    }
    forall m | 0 <= m < |t.members| ensures MemberOk(t, m) {
      assert MemberOk(s, m);
    }
  }

  lemma StepInv(s: State, e: Event)
    requires Inv(s)
    ensures Inv(Step(s, e)) && Step(s, e).maxSize == s.maxSize
  {
    if Enabled(s, e) {
      match e {
        case Arrive(q, priority) =>
          var t := Joined(s, q, priority);
          JoinedShape(s, q, priority);
          if |Pending(t, q)| >= s.maxSize {
            TakenInv(t, q);
          }
        case Flush(q) => TakenInv(s, q);
        case Withdraw(m) => RemovedInv(s, m);
        case Deliver(b) => DeliveredInv(s, b);
      }
    }
  }

  lemma {:induction false} RunInv(s: State, events: seq<Event>)
    requires Inv(s)
    ensures Inv(Run(s, events)) && Run(s, events).maxSize == s.maxSize
  {
    if |events| > 0 {
      RunInv(s, events[..|events| - 1]);
      StepInv(Run(s, events[..|events| - 1]), events[|events| - 1]);
    }
  }

  // ----- The promises --------------------------------------------------------------------------------------

  lemma ReachableInv(maxSize: nat, events: seq<Event>)
    requires maxSize > 0
    ensures Inv(Run(Init(maxSize), events)) && Run(Init(maxSize), events).maxSize == maxSize
  {
    RunInv(Init(maxSize), events);
  }

  /** Outside the lock, no queue holds a full batch. */
  lemma PendingBelowMaximum(maxSize: nat, events: seq<Event>, q: Queue)
    requires maxSize > 0
    ensures |Pending(Run(Init(maxSize), events), q)| < maxSize
  {
    ReachableInv(maxSize, events);
  }

  /** A member waits in its queue, or has withdrawn, or is in one batch, and in no second place. */
  lemma MemberInOnePlace(maxSize: nat, events: seq<Event>, m: nat)
    requires maxSize > 0 && m < |Run(Init(maxSize), events).members|
    ensures var s := Run(Init(maxSize), events);
            var member := s.members[m];
            && (forall q :: m in Pending(s, q) <==> q == member.queue && member.place.Waiting?)
            && (forall b :: 0 <= b < |s.batches| ==> (m in s.batches[b].members <==> member.place == InBatch(b)))
            && (member.place.InBatch? ==> member.place.batch < |s.batches|)
  {
    var s := Run(Init(maxSize), events);
    ReachableInv(maxSize, events);
    assert MemberOk(s, m);
    forall q ensures m in Pending(s, q) ==> q == s.members[m].queue && s.members[m].place.Waiting? {
      assert QueueOk(s, q);
    }
    forall b | 0 <= b < |s.batches| ensures m in s.batches[b].members ==> s.members[m].place == InBatch(b) {
      assert BatchOk(s, b);
    }
  }

  /** A batch never exceeds the maximum, and its members stand by priority, then by arrival. */
  lemma BatchesAreOrdered(maxSize: nat, events: seq<Event>, b: nat)
    requires maxSize > 0 && b < |Run(Init(maxSize), events).batches|
    ensures var s := Run(Init(maxSize), events);
            var batch := s.batches[b].members;
            && 0 < |batch| <= maxSize
            && (forall i :: 0 <= i < |batch| ==> batch[i] < |s.members|)
            && (forall i, j :: 0 <= i < j < |batch| ==>
                  s.members[batch[i]].priority > s.members[batch[j]].priority
                  || (s.members[batch[i]].priority == s.members[batch[j]].priority && batch[i] < batch[j]))
  {
    var s := Run(Init(maxSize), events);
    ReachableInv(maxSize, events);
    assert BatchOk(s, b);
    assert forall m :: 0 <= m < |s.members| ==> Priority(s.members, m) == s.members[m].priority;
  }

  /** A member that arrives keeps its queue and its priority, whatever happens to it. */
  lemma ArrivalIsKept(s: State, q: Queue, priority: int)
    requires Inv(s)
    ensures var t, m := Step(s, Arrive(q, priority)), |s.members|;
            && |t.members| == m + 1 && t.members[m].queue == q && t.members[m].priority == priority && t.members[m].results == 0
            && (forall n :: 0 <= n < m ==> t.members[n].queue == s.members[n].queue && t.members[n].priority == s.members[n].priority)
            && (if |Pending(s, q)| + 1 >= s.maxSize then t.members[m].place == InBatch(|s.batches|) else t.members[m].place.Waiting?)
  {
    JoinedShape(s, q, priority);
  }

  /** A batch is all that waits in its queue, and so the oldest members. */
  lemma BatchTakesAllWaiting(s: State, q: Queue)
    requires Shape(s) && 0 < |Pending(s, q)| <= s.maxSize
    ensures var t := Taken(s, q);
            && |t.batches| == |s.batches| + 1 && Pending(t, q) == []
            && (forall m :: m in t.batches[|s.batches|].members <==> m in Pending(s, q))
            && |t.batches[|s.batches|].members| == |Pending(s, q)|
  {
    TakesAll(s, q);
    assert QueueOk(s, q);
    BatchIsOrdered(s.members, Pending(s, q));
  }

  /** A member gets at most one result, and it has exactly one once its batch has delivered all. */
  lemma OneResultEach(maxSize: nat, events: seq<Event>, m: nat)
    requires maxSize > 0 && m < |Run(Init(maxSize), events).members|
    ensures var s := Run(Init(maxSize), events);
            var member := s.members[m];
            && member.results <= 1
            && (!member.place.InBatch? ==> member.results == 0)
            && (member.place.InBatch? ==>
                  member.place.batch < |s.batches|
                  && var batch := s.batches[member.place.batch];
                     batch.delivered == |batch.members| ==> member.results == 1)
  {
    var s := Run(Init(maxSize), events);
    ReachableInv(maxSize, events);
    assert MemberOk(s, m);
    if s.members[m].place.InBatch? {
      var b := s.members[m].place.batch;
      assert BatchOk(s, b);
      var i :| 0 <= i < |s.batches[b].members| && s.batches[b].members[i] == m;
    }
  }

  // ----- Outcomes ------------------------------------------------------------------------------------------

  /** What the handler returned for a member. Only the first two kinds with their content are valid. */
  datatype Outcome = Succeeded(value: nat) | FailedWith(error: Option<nat>) | Invalid

  datatype Result = Value(value: nat) | Error(error: nat)

  predicate OutcomeOk(o: Outcome) { o.Succeeded? || (o.FailedWith? && o.error.Some?) }

  function ResultOf(o: Outcome): Result
    requires OutcomeOk(o)
  {
    if o.Succeeded? then Value(o.value) else Error(o.error.value)
  }

  /** One valid outcome for each member gives each member its own result; anything else gives none. */
  method NormalizeOutcomes(outcomes: seq<Outcome>, expected: nat) returns (results: Option<seq<Result>>)
    ensures results.Some? <==> |outcomes| == expected && forall i :: 0 <= i < |outcomes| ==> OutcomeOk(outcomes[i])
    ensures results.Some? ==> |results.value| == expected
    ensures results.Some? ==> forall i :: 0 <= i < |outcomes| ==> results.value[i] == ResultOf(outcomes[i])
  {
    if |outcomes| != expected {
      return None;
    }
    var list: seq<Result> := [];
    var i := 0;
    while i < |outcomes|
      invariant 0 <= i <= |outcomes| && |list| == i
      invariant forall k :: 0 <= k < i ==> OutcomeOk(outcomes[k]) && list[k] == ResultOf(outcomes[k])
    {
      match outcomes[i] {
        case Succeeded(value) => list := list + [Value(value)];
        case FailedWith(error) =>
          if error.None? {
            return None;
          }
          list := list + [Error(error.value)];
        case Invalid => return None;
      }
      i := i + 1;
    }
    return Some(list);
  }

  // ----- The coordinator, in place ---------------------------------------------------------------------------

  class Coordinator {
    const maxSize: nat
    var pending: map<Queue, seq<nat>>
    var members: seq<Member>
    var batches: seq<Batch>

    function View(): State
      reads this
    {
      State(maxSize, pending, members, batches)
    }

    constructor (size: nat)
      ensures View() == Init(size) && (size > 0 ==> Inv(View()))
    {
      maxSize, pending, members, batches := size, map[], [], [];
    }

    /** A member joins its queue, and a full queue leaves at once. */
    method Handle(q: Queue, priority: int)
      requires Inv(View())
      modifies this
      ensures View() == Arrived(old(View()), q, priority) && Inv(View())
    {
      JoinedShape(View(), q, priority);
      pending := pending[q := (if q in pending then pending[q] else []) + [|members|]];
      members := members + [Member(q, priority, Waiting, 0)];
      if |pending[q]| >= maxSize {
        TakeBatch(q);
      }
    }

    method TakeBatch(q: Queue)
      modifies this
      ensures View() == Taken(old(View()), q)
      ensures Locked(old(View()), q) ==> Inv(View())
    {
      if Locked(View(), q) {
        TakenInv(View(), q);
      }
      if q !in pending || pending[q] == [] {
        return;
      }
      var waiting := pending[q];
      var size := Min(maxSize, |waiting|);
      var oldest := waiting[..size];
      pending := if size == |waiting| then pending - {q} else pending[q := waiting[size..]];
      batches := batches + [Batch(Sort(oldest, BatchOrder(members)), 0)];
      members := PlaceAll(members, oldest, InBatch(|batches| - 1));
    }

    /** Finds the member among those that wait, and closes the gap that it leaves. */
    method Remove(m: nat)
      requires Inv(View()) && m < |members|
      modifies this
      ensures View() == Removed(old(View()), m) && Inv(View())
    {
      RemovedInv(View(), m);
      var q := members[m].queue;
      var waiting := if q in pending then pending[q] else [];
      var i := 0;
      while i < |waiting|
        invariant 0 <= i <= |waiting| && View() == old(View())
        invariant forall k :: 0 <= k < i ==> waiting[k] != m
      {
        if waiting[i] == m {
          var rest := Without(waiting, i);
          pending := if rest == [] then pending - {q} else pending[q := rest];
          members := members[m := members[m].(place := Withdrawn)];
          assert IndexOf(waiting, m) == i;
          return;
        }
        i := i + 1;
      }
      assert IndexOf(waiting, m) == |waiting|;
    }

    /** Gives each member of the batch its result, in order. */
    method DeliverBatch(b: nat)
      requires Inv(View()) && b < |batches|
      modifies this
      ensures Inv(View()) && pending == old(pending) && |members| == |old(members)|
      ensures |batches| == |old(batches)| && batches[b] == old(batches[b]).(delivered := |old(batches[b]).members|)
      ensures forall m :: m in batches[b].members ==> m < |members| && members[m].results == 1
    {
      while batches[b].delivered < |batches[b].members|
        invariant Inv(View()) && pending == old(pending) && |members| == |old(members)| && |batches| == |old(batches)|
        invariant batches[b] == old(batches[b]).(delivered := batches[b].delivered)
        decreases |batches[b].members| - batches[b].delivered
      {
        assert BatchOk(View(), b);
        DeliveredInv(View(), b);
        var m := batches[b].members[batches[b].delivered];
        batches := batches[b := batches[b].(delivered := batches[b].delivered + 1)];
        members := members[m := members[m].(results := members[m].results + 1)];
      }
      assert BatchOk(View(), b);
    }
  }
}
