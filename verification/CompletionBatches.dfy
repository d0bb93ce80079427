/**
 Batches of fast-tier completions: how a batch is cut into statements, and how one statement is sent,
 sent again after a deadlock, and its claimed rows handed to the completions that reserved slots for them.
 */
module CompletionBatches {
  import opened Prelude
  import opened Ordering
  import Dispatch
  import DispatchProofs

  /** The most completions, and the most claims, of one statement. */
  const BATCH_LIMIT := 100

  /** `limit` is how many tasks the reservation of this completion lets the statement claim. */
  datatype Entry = Entry(id: nat, taskId: string, limit: nat)

  function Claims(entries: seq<Entry>): nat {
    if |entries| == 0 then 0 else Claims(entries[..|entries| - 1]) + entries[|entries| - 1].limit
  }

  function Concat<T>(parts: seq<seq<T>>): seq<T> {
    if |parts| == 0 then [] else Concat(parts[..|parts| - 1]) + parts[|parts| - 1]
  }

  // ----- Chunks ----------------------------------------------------------------------------------------

  /** A statement within its limits. A completion that alone asks for too much goes alone. */
  predicate ChunkOk(chunk: seq<Entry>) {
    0 < |chunk| <= BATCH_LIMIT && (|chunk| == 1 || Claims(chunk) <= BATCH_LIMIT)
  }

  /** `done` and the chunk under way hold the first `i` completions, within the limits. */
  predicate Cut(entries: seq<Entry>, done: seq<seq<Entry>>, chunk: seq<Entry>, i: nat)
    requires i <= |entries|
  {
    && Concat(done) + chunk == entries[..i]
    && (i > 0 ==> ChunkOk(chunk))
    && forall k :: 0 <= k < |done| ==> ChunkOk(done[k])
  }

  lemma ClaimsAppend(entries: seq<Entry>, entry: Entry)
    ensures Claims(entries + [entry]) == Claims(entries) + entry.limit
  {
    assert (entries + [entry])[..|entries|] == entries;
  }

  lemma PrefixGrows<T>(xs: seq<T>, front: seq<T>, back: seq<T>, i: nat)
    requires i < |xs| && front + back == xs[..i]
    ensures front + (back + [xs[i]]) == xs[..i + 1]
  {
    assert front + (back + [xs[i]]) == front + back + [xs[i]];
  }

  lemma CutGrows(entries: seq<Entry>, done: seq<seq<Entry>>, chunk: seq<Entry>, i: nat)
    requires i < |entries| && Cut(entries, done, chunk, i)
    requires chunk == [] || (|chunk| < BATCH_LIMIT && Claims(chunk) + entries[i].limit <= BATCH_LIMIT)
    ensures Cut(entries, done, chunk + [entries[i]], i + 1)
  {
    ClaimsAppend(chunk, entries[i]);
    PrefixGrows(entries, Concat(done), chunk, i);
  }

  lemma CutCloses(entries: seq<Entry>, done: seq<seq<Entry>>, chunk: seq<Entry>, i: nat)
    requires i < |entries| && Cut(entries, done, chunk, i) && i > 0
    ensures Cut(entries, done + [chunk], [entries[i]], i + 1)
  {
    ConcatAppend(done, chunk);
    assert Concat(done + [chunk]) + [entries[i]] == entries[..i + 1];
  }

  /** Every completion goes out, in order, and no statement exceeds its limits. */
  method CompletionChunks(entries: seq<Entry>) returns (chunks: seq<seq<Entry>>)
    ensures Concat(chunks) == entries
    ensures entries != [] ==> forall i :: 0 <= i < |chunks| ==> ChunkOk(chunks[i])
  {
    var done: seq<seq<Entry>>, chunk: seq<Entry> := [], [];
    var limit, i := 0, 0;
    while i < |entries|
      invariant 0 <= i <= |entries| && Cut(entries, done, chunk, i)
      invariant limit == Claims(chunk) && (chunk == [] <==> i == 0)
    {
      var entry := entries[i];
      if |chunk| > 0 && (|chunk| == BATCH_LIMIT || limit + entry.limit > BATCH_LIMIT) {
        CutCloses(entries, done, chunk, i);
        done := done + [chunk];
        chunk, limit := [], 0;
      } else {
        CutGrows(entries, done, chunk, i);
      }
      ClaimsAppend(chunk, entry);
      chunk := chunk + [entry];
      limit := limit + entry.limit;
      i := i + 1;
    }
    assert entries[..i] == entries;
    ConcatAppend(done, chunk);
    chunks := done + [chunk];
  }

  lemma {:induction false} ConcatAppend<T>(parts: seq<seq<T>>, part: seq<T>)
    ensures Concat(parts + [part]) == Concat(parts) + part
  {
    assert (parts + [part])[..|parts|] == parts;
  }

  /** A reservation never exceeds the concurrency, so within its maximum no statement claims too much. */
  lemma {:induction false} ReservationFits(s: Dispatch.State, i: nat, chunk: seq<Entry>)
    requires DispatchProofs.Inv(s) && s.concurrency <= BATCH_LIMIT
    requires Dispatch.IsSlot(s, i) && s.ledger[i].stage.Claiming?
    requires ChunkOk(chunk) && (|chunk| == 1 ==> chunk[0].limit <= s.ledger[i].stage.limit)
    ensures Claims(chunk) <= BATCH_LIMIT
  {
    DispatchProofs.ReservedWithinConcurrency(s, i);
    if |chunk| == 1 {
      assert chunk[..0] == [];
    }
  }

  // ----- Rows ------------------------------------------------------------------------------------------

  /** Every row carries the accepted IDs; the placeholder of a statement that claims nothing has no task. */
  datatype Row = Row(task: Option<nat>, accepted: Option<set<string>>)

  function Claimed(rows: seq<Row>): seq<Row> {
    if |rows| == 0 then []
    else Claimed(rows[..|rows| - 1]) + if rows[|rows| - 1].task.Some? then [rows[|rows| - 1]] else []
  }

  /** The rows before `k` that claim a task. */
  function ClaimingBefore(rows: seq<Row>, k: nat): set<nat> {
    set j: nat | j < k && j < |rows| && rows[j].task.Some?
  }

  lemma {:induction false} ClaimedCount(rows: seq<Row>, k: nat)
    requires k <= |rows|
    ensures |Claimed(rows[..k])| == |ClaimingBefore(rows, k)|
  {
    if k > 0 {
      ClaimedCount(rows, k - 1);
      assert rows[..k][..k - 1] == rows[..k - 1];
      assert ClaimingBefore(rows, k) == ClaimingBefore(rows, k - 1) + if rows[k - 1].task.Some? then {k - 1} else {};
    }
  }

  lemma {:induction false} ClaimedGrows(rows: seq<Row>, k: nat)
    requires k <= |rows|
    ensures Claimed(rows[..k]) <= Claimed(rows)
    decreases |rows| - k
  {
    if k < |rows| {
      ClaimedGrows(rows, k + 1);
      assert rows[..k + 1][..k] == rows[..k];
    } else {
      assert rows[..k] == rows;
    }
  }

  /** Row `k` is kept exactly if it claims a task, after as many rows as claim one before it; nothing else is kept. */
  lemma ClaimedExactly(rows: seq<Row>, k: nat)
    requires k < |rows| && rows[k].task.Some?
    ensures |ClaimingBefore(rows, k)| < |Claimed(rows)| == |ClaimingBefore(rows, |rows|)|
    ensures Claimed(rows)[|ClaimingBefore(rows, k)|] == rows[k]
  {
    ClaimedCount(rows, k);
    ClaimedCount(rows, |rows|);
    ClaimedGrows(rows, k + 1);
    assert rows[..|rows|] == rows && rows[..k + 1][..k] == rows[..k];
  }

  /** Keeps the claimed rows at the front of the same array. */
  method ClaimedFastRows(rows: array<Row>) returns (n: nat)
    modifies rows
    ensures n <= rows.Length && rows[..n] == Claimed(old(rows[..]))
  {
    n := 0;
    var i := 0;
    ghost var was := rows[..];
    while i < rows.Length
      invariant 0 <= n <= i <= rows.Length
      invariant rows[..n] == Claimed(was[..i])
      invariant rows[i..] == was[i..]
    {
      assert rows[i] == was[i] by {
        assert rows[i..][0] == was[i..][0];
      }
      assert was[..i + 1][..i] == was[..i];
      if rows[i].task.Some? {
        rows[n] := rows[i];
        n := n + 1;
      }
      assert rows[i + 1..] == was[i + 1..] by {
        assert was[i + 1..] == was[i..][1..];
      }
      i := i + 1;
    }
    assert was[..i] == was;
  }

  /** `shares` hands out rows from the front, each completion within its limit. */
  predicate Shared(entries: seq<Entry>, claimed: seq<Row>, shares: seq<seq<Row>>) {
    && |shares| == |entries|
    && (forall i :: 0 <= i < |entries| ==> |shares[i]| <= entries[i].limit)
    && Concat(shares) <= claimed
    && (|claimed| <= Claims(entries) ==> Concat(shares) == claimed)
  }

  /** The first completions have their rows, `from` rows in all. */
  predicate SharedUpTo(entries: seq<Entry>, claimed: seq<Row>, shares: seq<seq<Row>>, from: nat) {
    && |shares| <= |entries| && from <= |claimed| && Concat(shares) == claimed[..from]
    && (forall i :: 0 <= i < |shares| ==> |shares[i]| <= entries[i].limit)
    && (from == |claimed| || from == Claims(entries[..|shares|]))
  }

  lemma ShareGrows(entries: seq<Entry>, claimed: seq<Row>, shares: seq<seq<Row>>, from: nat, take: nat)
    requires SharedUpTo(entries, claimed, shares, from) && |shares| < |entries|
    requires take == Min(entries[|shares|].limit, |claimed| - from)
    ensures SharedUpTo(entries, claimed, shares + [claimed[from..from + take]], from + take)
  {
    var i := |shares|;
    ConcatAppend(shares, claimed[from..from + take]);
    ClaimsAppend(entries[..i], entries[i]);
    assert entries[..i + 1] == entries[..i] + [entries[i]];
    assert claimed[..from] + claimed[from..from + take] == claimed[..from + take];
  }

  method ShareRows(entries: seq<Entry>, claimed: seq<Row>) returns (shares: seq<seq<Row>>)
    ensures Shared(entries, claimed, shares)
  {
    shares := [];
    var i, from := 0, 0;
    while i < |entries|
      invariant 0 <= i <= |entries| && |shares| == i
      invariant 0 <= from <= |claimed| && SharedUpTo(entries, claimed, shares, from)
    {
      var take := Min(entries[i].limit, |claimed| - from);
      ShareGrows(entries, claimed, shares, from, take);
      shares := shares + [claimed[from..from + take]];
      from := from + take;
      i := i + 1;
    }
    assert entries[..i] == entries;
  }

  // ----- One statement -----------------------------------------------------------------------------------

  /** The most attempts of one statement. */
  const ATTEMPTS := 3

  datatype Reply = Rows(rows: seq<Row>) | Deadlock | Aborted | OtherFailure

  /** PostgreSQL claims at most what the statement asked for. */
  ghost predicate WithinLimit(replies: (nat, nat) -> Reply) {
    forall attempt, limit :: replies(attempt, limit).Rows? ==> |Claimed(replies(attempt, limit).rows)| <= limit
  }

  function Emptied(entries: seq<Entry>): seq<Entry> {
    seq(|entries|, i requires 0 <= i < |entries| => entries[i].(limit := 0))
  }

  lemma {:induction false} EmptiedClaimsNothing(entries: seq<Entry>)
    ensures Claims(Emptied(entries)) == 0
  {
    if |entries| > 0 {
      EmptiedClaimsNothing(entries[..|entries| - 1]);
      assert Emptied(entries)[..|entries| - 1] == Emptied(entries[..|entries| - 1]);
    }
  }

  /** A statement that would claim through a closed gate claims nothing. */
  function GateRead(entries: seq<Entry>, open: bool): (sent: seq<Entry>)
    ensures |sent| == |entries|
  {
    if Claims(entries) > 0 && !open then Emptied(entries) else entries
  }

  /** What the statement claims for once the gate has been read `n` times. */
  function Gated(entries: seq<Entry>, gate: nat -> bool, n: nat): (sent: seq<Entry>)
    ensures |sent| == |entries|
  {
    if n == 0 then entries else GateRead(Gated(entries, gate, n - 1), gate(n - 1))
  }

  /** The reply to attempt `k`, which claims for what the gate has left. */
  function ReplyTo(entries: seq<Entry>, gate: nat -> bool, replies: (nat, nat) -> Reply, k: nat): Reply {
    replies(k, Claims(Gated(entries, gate, k + 1)))
  }

  lemma {:induction false} ReplyIsWithin(entries: seq<Entry>, gate: nat -> bool, replies: (nat, nat) -> Reply, k: nat)
    requires WithinLimit(replies)
    ensures var reply := ReplyTo(entries, gate, replies, k);
            reply.Rows? ==> |Claimed(reply.rows)| <= Claims(Gated(entries, gate, k + 1))
  {
  }

  /** An attempt follows exactly each deadlock before the last attempt. */
  predicate Resent(entries: seq<Entry>, gate: nat -> bool, replies: (nat, nat) -> Reply, attempts: nat) {
    && 1 <= attempts <= ATTEMPTS
    && (forall k :: 0 <= k < attempts - 1 ==> ReplyTo(entries, gate, replies, k).Deadlock?)
    && (attempts < ATTEMPTS ==> !ReplyTo(entries, gate, replies, attempts - 1).Deadlock?)
  }

  /**
   Sends the statement, and sends it again only after a deadlock. The claim gate is read before each
   attempt, so once it closes, no later attempt claims.
   */
  method SendFenced(entries: seq<Entry>, gate: nat -> bool, replies: (nat, nat) -> Reply)
    returns (rows: Option<seq<Row>>, sent: seq<Entry>, attempts: nat)
    ensures 1 <= attempts <= ATTEMPTS && sent == Gated(entries, gate, attempts)
    ensures Resent(entries, gate, replies, attempts)
    ensures var last := ReplyTo(entries, gate, replies, attempts - 1); rows == if last.Rows? then Some(last.rows) else None
  {
    attempts, sent := 0, entries;
    while true
      invariant 0 <= attempts < ATTEMPTS && sent == Gated(entries, gate, attempts)
      invariant forall k :: 0 <= k < attempts ==> ReplyTo(entries, gate, replies, k).Deadlock?
      decreases ATTEMPTS - attempts
    {
      sent := GateRead(sent, gate(attempts));
      assert sent == Gated(entries, gate, attempts + 1);
      var reply := replies(attempts, Claims(sent));
      attempts := attempts + 1;
      if reply.Rows? {
        return Some(reply.rows), sent, attempts;
      }
      if attempts >= ATTEMPTS || !reply.Deadlock? {
        return None, sent, attempts;
      }
    }
  }

  /** Once an attempt finds the gate closed, no attempt from then on claims a task. */
  lemma {:induction false} ClosedGateClaimsNothing(entries: seq<Entry>, gate: nat -> bool, k: nat, n: nat)
    requires k < n && !gate(k)
    ensures Claims(Gated(entries, gate, n)) == 0
    decreases n
  {
    var before := Gated(entries, gate, n - 1);
    if k < n - 1 {
      ClosedGateClaimsNothing(entries, gate, k, n - 1);
    } else {
      EmptiedClaimsNothing(before);
    }
  }

  /** While every attempt finds the gate open, each claims for all that the chunk asks. */
  lemma {:induction false} OpenGateKeepsClaims(entries: seq<Entry>, gate: nat -> bool, n: nat)
    requires forall k :: 0 <= k < n ==> gate(k)
    ensures Gated(entries, gate, n) == entries
  {
    if n > 0 {
      OpenGateKeepsClaims(entries, gate, n - 1);
    }
  }

  // ----- One chunk ---------------------------------------------------------------------------------------

  datatype Answer = Refused | Answered(accepted: bool, rows: seq<Row>)

  function Shares(answers: seq<Answer>): seq<seq<Row>> {
    seq(|answers|, i requires 0 <= i < |answers| => if answers[i].Answered? then answers[i].rows else [])
  }

  function ByTask(): (Entry, Entry) -> bool { (a: Entry, b: Entry) => LexLess(Codes(a.taskId), Codes(b.taskId)) }

  lemma {:induction false} TaskOrderIsStrictWeak()
    ensures StrictWeak(ByTask())
  {
    var less := ByTask();
    forall a, b ensures less(a, b) ==> !less(b, a) {
      LexAsymmetric(Codes(a.taskId), Codes(b.taskId));
    }
    forall a, b, c ensures !less(a, b) && !less(b, c) ==> !less(a, c) {
      LexNegativelyTransitive(Codes(a.taskId), Codes(b.taskId), Codes(c.taskId));
    }
  }

  /** A reply that answers the chunk: its first row names the accepted IDs. */
  predicate Usable(reply: Reply) { reply.Rows? && |reply.rows| > 0 && reply.rows[0].accepted.Some? }

  /** Every completion has its answer, and each claimed row belongs to one of them, within its limit. */
  predicate AnswersOk(sent: seq<Entry>, reply: Reply, answers: seq<Answer>) {
    && |answers| == |sent|
    && (!Usable(reply) ==> forall i :: 0 <= i < |sent| ==> answers[i].Refused?)
    && (Usable(reply) ==>
          && (forall i :: 0 <= i < |sent| ==>
                answers[i].Answered? && |answers[i].rows| <= sent[i].limit
                && (answers[i].accepted <==> sent[i].taskId in reply.rows[0].accepted.value))
          && Concat(Shares(answers)) == Claimed(reply.rows))
  }

  /** The answers follow from the last of at most three attempts, under the limits that the gate left. */
  predicate Completed(
    order: seq<Entry>, gate: nat -> bool, replies: (nat, nat) -> Reply, answers: seq<Answer>, attempts: nat)
  {
    && Resent(order, gate, replies, attempts)
    && AnswersOk(Gated(order, gate, attempts), ReplyTo(order, gate, replies, attempts - 1), answers)
  }

  /** Answers every completion of the chunk once, in task ID order. Only a chunk that claims needs a connection. */
  method CompleteChunk(chunk: seq<Entry>, connected: bool, gate: nat -> bool, replies: (nat, nat) -> Reply)
    returns (order: seq<Entry>, answers: seq<Answer>, attempts: nat)
    requires WithinLimit(replies)
    ensures multiset(order) == multiset(chunk) && Sorted(order, ByTask())
    ensures Claims(order) > 0 && !connected ==>
              attempts == 0 && |answers| == |chunk| && forall i :: 0 <= i < |answers| ==> answers[i].Refused?
    ensures Claims(order) == 0 || connected ==> Completed(order, gate, replies, answers, attempts)
  {
    order := InTaskOrder(chunk);
    if Claims(order) > 0 && !connected {
      return order, seq(|chunk|, _ => Refused), 0;
    }
    answers, attempts := SendChunk(order, gate, replies);
  }

  method InTaskOrder(chunk: seq<Entry>) returns (order: seq<Entry>)
    ensures multiset(order) == multiset(chunk) && Sorted(order, ByTask())
  {
    order := Sort(chunk, ByTask());
    SortMultiset(chunk, ByTask());
    TaskOrderIsStrictWeak();
    SortSorted(chunk, ByTask());
  }

  method SendChunk(order: seq<Entry>, gate: nat -> bool, replies: (nat, nat) -> Reply)
    returns (answers: seq<Answer>, attempts: nat)
    requires WithinLimit(replies)
    ensures Completed(order, gate, replies, answers, attempts)
  {
    var rows, sent;
    rows, sent, attempts := SendFenced(order, gate, replies);
    ReplyIsWithin(order, gate, replies, attempts - 1);
    if rows.None? || |rows.value| == 0 || rows.value[0].accepted.None? {
      answers := seq(|sent|, _ => Refused);
    } else {
      answers := AnswerAll(sent, rows.value);
    }
  }

  method AnswerAll(sent: seq<Entry>, rows: seq<Row>) returns (answers: seq<Answer>)
    requires |Claimed(rows)| <= Claims(sent) && Usable(Rows(rows))
    ensures AnswersOk(sent, Rows(rows), answers)
  {
    var buffer := new Row[|rows|](i requires 0 <= i < |rows| => rows[i]);
    assert buffer[..] == rows;
    var accepted := rows[0].accepted.value;
    var count := ClaimedFastRows(buffer);
    var shares := ShareRows(sent, buffer[..count]);
    answers := [];
    var i := 0;
    while i < |sent|
      invariant 0 <= i <= |sent| && |answers| == i
      invariant forall k :: 0 <= k < i ==> answers[k] == Answered(sent[k].taskId in accepted, shares[k])
    {
      answers := answers + [Answered(sent[i].taskId in accepted, shares[i])];
      i := i + 1;
    }
    assert Shares(answers) == shares;
  }

  /** The gate changes nothing but the limits. */
  lemma {:induction false} GatedKeepsTasks(entries: seq<Entry>, gate: nat -> bool, n: nat)
    ensures |Gated(entries, gate, n)| == |entries|
    ensures forall i :: 0 <= i < |entries| ==>
              Gated(entries, gate, n)[i] == entries[i] || Gated(entries, gate, n)[i] == entries[i].(limit := 0)
  {
    if n > 0 {
      GatedKeepsTasks(entries, gate, n - 1);
    }
  }

  /** The answer to `entry`: its own task ID decides on acceptance, and its own limit bounds its rows. */
  predicate AnswerOk(entry: Entry, answer: Answer, reply: Reply) {
    if Usable(reply)
    then answer.Answered? && |answer.rows| <= entry.limit && (answer.accepted <==> entry.taskId in reply.rows[0].accepted.value)
    else answer.Refused?
  }

  /** Whatever the gate did, each completion of a chunk is answered for its own task. */
  lemma AnsweredForOwnTask(
    order: seq<Entry>, gate: nat -> bool, replies: (nat, nat) -> Reply, answers: seq<Answer>, attempts: nat)
    requires Completed(order, gate, replies, answers, attempts)
    ensures var reply := ReplyTo(order, gate, replies, attempts - 1);
            && |answers| == |order|
            && (forall i :: 0 <= i < |order| ==> AnswerOk(order[i], answers[i], reply))
            && (Usable(reply) ==> Concat(Shares(answers)) == Claimed(reply.rows))
  {
    GatedKeepsTasks(order, gate, attempts);
  }
}
