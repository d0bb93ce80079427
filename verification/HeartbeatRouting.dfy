/**
 Heartbeat leases on their way to PostgreSQL and back: each round sorts its members by task ID, cuts
 them into batches, and shares one statement with other rounds. The rows come back by batch position.
 */
module HeartbeatRouting {
  import opened Prelude
  import opened Ordering
  import opened Sequences

  /** The size of every batch of a round but its last. */
  const LEASE_LIMIT := 100

  datatype Status = Accepted | CancelRequested | DeadlineExceeded | TimeoutExceeded | Stale | NotDue | Busy

  /** One lease to renew. `taskId` need not be unique in a round, so only positions identify members. */
  datatype Member = Member(taskId: string, fence: nat)

  /** `status` is absent when the row's status is not one that the worker knows. */
  datatype Row = Row(batch: int, taskId: string, status: Option<Status>)

  // ----- The order and the batches of one round ----------------------------------------------------

  function Key(members: seq<Member>, i: nat): seq<nat> {
    if i < |members| then Codes(members[i].taskId) else []
  }

  function ByTaskId(members: seq<Member>): (nat, nat) -> bool {
    (i: nat, j: nat) => LexLess(Key(members, i), Key(members, j))
  }

  function Indices(n: nat): seq<nat> { seq(n, i requires 0 <= i => i) }

  /** The positions of the members in the order of their task IDs. */
  function Order(members: seq<Member>): seq<nat> { Sort(Indices(|members|), ByTaskId(members)) }

  lemma OrderPermutes(members: seq<Member>)
    ensures |Order(members)| == |members| && Distinct(Order(members))
    ensures forall i: nat :: i in Order(members) <==> i < |members|
  {
    var indices := Indices(|members|);
    SortPermutes(indices, ByTaskId(members));
    SortDistinct(indices, ByTaskId(members));
    forall i: nat ensures i in indices <==> i < |members| {
      if i < |members| {
        assert indices[i] == i;
      }
    }
  }

  /** At the first place where the texts differ, `a` ends or has the smaller character. */
  ghost predicate TextBefore(a: string, b: string) {
    exists n: nat :: n <= |a| && n < |b| && a[..n] == b[..n] && (n == |a| || a[n] < b[n])
  }

  lemma {:induction false} TextOrder(a: string, b: string)
    ensures LexLess(Codes(a), Codes(b)) <==> TextBefore(a, b)
  {
    LexLessExactly(Codes(a), Codes(b));
    if n: nat :| DiffersAt(Codes(a), Codes(b), n) {
      assert forall i :: 0 <= i < n ==> Codes(a)[..n][i] == a[i] as int && Codes(b)[..n][i] == b[i] as int;
      assert a[..n] == b[..n];
    }
    if n: nat :| n <= |a| && n < |b| && a[..n] == b[..n] && (n == |a| || a[n] < b[n]) {
      assert forall i :: 0 <= i < n ==> a[..n][i] == a[i] && b[..n][i] == b[i];
      assert Codes(a)[..n] == Codes(b)[..n];
      assert DiffersAt(Codes(a), Codes(b), n);
    }
  }

  lemma OrderIsSorted(members: seq<Member>)
    ensures Sorted(Order(members), ByTaskId(members))
  {
    var less := ByTaskId(members);
    forall a, b ensures less(a, b) ==> !less(b, a) {
      LexAsymmetric(Key(members, a), Key(members, b));
    }
    forall a, b, c ensures !less(a, b) && !less(b, c) ==> !less(a, c) {
      LexNegativelyTransitive(Key(members, a), Key(members, b), Key(members, c));
    }
    SortSorted(Indices(|members|), less);
  }

  /** What is sent at position `j` does not belong before what is sent at position `i`. */
  ghost predicate InTextOrder(members: seq<Member>, order: seq<nat>, i: nat, j: nat)
    requires i < |order| && j < |order|
  {
    order[i] < |members| && order[j] < |members| && !TextBefore(members[order[j]].taskId, members[order[i]].taskId)
  }

  /** Leases go out in the order of their task IDs, character by character, as a batched completion names its tasks. */
  lemma OrderIsByTaskId(members: seq<Member>)
    ensures |Order(members)| == |members|
    ensures forall i, j :: 0 <= i < j < |members| ==> InTextOrder(members, Order(members), i, j)
  {
    var order := Order(members);
    OrderIsSorted(members);
    OrderPermutes(members);
    forall i, j | 0 <= i < j < |members| ensures InTextOrder(members, order, i, j) {
      assert order[i] in order && order[j] in order;
      assert !ByTaskId(members)(order[j], order[i]);
      TextOrder(members[order[j]].taskId, members[order[i]].taskId);
    }
  }

  function BatchCount(n: nat): nat { (n + LEASE_LIMIT - 1) / LEASE_LIMIT }

  function BatchSize(n: nat, b: nat): nat
    requires b < BatchCount(n)
  {
    Min(LEASE_LIMIT, n - b * LEASE_LIMIT)
  }

  /** The number of leases in each batch of a round of `n` members. */
  function BatchSizes(n: nat): seq<nat> { seq(BatchCount(n), b requires 0 <= b < BatchCount(n) => BatchSize(n, b)) }

  /** Position `k` of the sent order is place `k % LEASE_LIMIT` of batch `k / LEASE_LIMIT`. */
  lemma PlaceOf(n: nat, k: nat)
    requires k < n
    ensures var b, i := k / LEASE_LIMIT, k % LEASE_LIMIT;
            b * LEASE_LIMIT + i == k && b < BatchCount(n) && i < BatchSize(n, b)
  {
  }

  lemma PositionOf(b: nat, i: nat)
    requires i < LEASE_LIMIT
    ensures (b * LEASE_LIMIT + i) / LEASE_LIMIT == b && (b * LEASE_LIMIT + i) % LEASE_LIMIT == i
  {
  }

  /** Batches follow each other without a gap, and the last one ends with the round. */
  lemma BatchEnd(n: nat, b: nat)
    requires b < BatchCount(n)
    ensures BatchSize(n, b) <= LEASE_LIMIT && b * LEASE_LIMIT + BatchSize(n, b) == Min((b + 1) * LEASE_LIMIT, n)
    ensures b + 1 == BatchCount(n) ==> n <= (b + 1) * LEASE_LIMIT
    ensures b * LEASE_LIMIT < n
  {
  }

  // ----- Routing the rows of a shared statement ----------------------------------------------------

  /** The rows of one batch, in the order in which they arrived. */
  function RowsOf(rows: seq<Row>, batch: int): seq<Row> {
    if |rows| == 0 then []
    else
      var last := rows[|rows| - 1];
      RowsOf(rows[..|rows| - 1], batch) + if last.batch == batch then [last] else []
  }

  /** How many batches come before round `g` in the statement. */
  function Offset(sizes: seq<seq<nat>>, g: nat): nat
    requires g <= |sizes|
  {
    if g == 0 then 0 else Offset(sizes, g - 1) + |sizes[g - 1]|
  }

  /** Every row names a batch of the statement. */
  predicate PositionsOk(sizes: seq<seq<nat>>, rows: seq<Row>) {
    forall i :: 0 <= i < |rows| ==> 1 <= rows[i].batch <= Offset(sizes, |sizes|)
  }

  /** Each batch of the first `n` rounds has one row for each lease. */
  predicate CountsOk(sizes: seq<seq<nat>>, rows: seq<Row>, n: nat)
    requires n <= |sizes|
  {
    forall g, b :: 0 <= g < n && 0 <= b < |sizes[g]| ==> |RowsOf(rows, Offset(sizes, g) + b + 1)| == sizes[g][b]
  }

  function RoutedOf(sizes: seq<seq<nat>>, rows: seq<Row>, g: nat): seq<seq<Row>>
    requires g < |sizes|
  {
    seq(|sizes[g]|, b requires 0 <= b => RowsOf(rows, Offset(sizes, g) + b + 1))
  }

  /** What each round gets: the rows of its own batches, or nothing when any row or count is wrong. */
  function Routed(sizes: seq<seq<nat>>, rows: seq<Row>): Option<seq<seq<seq<Row>>>> {
    if PositionsOk(sizes, rows) && CountsOk(sizes, rows, |sizes|)
    then Some(seq(|sizes|, g requires 0 <= g < |sizes| => RoutedOf(sizes, rows, g)))
    else None
  }

  method RoutePoolRows(sizes: seq<seq<nat>>, rows: seq<Row>) returns (routed: Option<seq<seq<seq<Row>>>>)
    ensures routed == Routed(sizes, rows)
  {
    var batches: seq<seq<Row>> := [];
    var g := 0;
    while g < |sizes|
      invariant 0 <= g <= |sizes| && |batches| == Offset(sizes, g)
      invariant forall p :: 0 <= p < |batches| ==> batches[p] == []
    {
      batches := batches + seq(|sizes[g]|, _ => []);
      g := g + 1;
    }
    var i := 0;
    while i < |rows|
      invariant 0 <= i <= |rows| && |batches| == Offset(sizes, |sizes|)
      invariant PositionsOk(sizes, rows[..i])
      invariant forall p :: 0 <= p < |batches| ==> batches[p] == RowsOf(rows[..i], p + 1)
    {
      var position := rows[i].batch;
      if position < 1 || position > |batches| {
        return None;
      }
      assert rows[..i + 1][..i] == rows[..i];
      batches := batches[position - 1 := batches[position - 1] + [rows[i]]];
      i := i + 1;
    }
    assert rows[..i] == rows;
    routed := SplitBatches(sizes, rows, batches);
  }

  /** The batches of round `g`, if each has as many rows as it has leases. */
  method TakeOwn(sizes: seq<seq<nat>>, ghost rows: seq<Row>, batches: seq<seq<Row>>, g: nat, offset: nat)
    returns (own: Option<seq<seq<Row>>>)
    requires g < |sizes| && offset == Offset(sizes, g) && offset + |sizes[g]| <= |batches|
    requires forall p :: 0 <= p < |batches| ==> batches[p] == RowsOf(rows, p + 1)
    ensures own.Some? <==> forall b :: 0 <= b < |sizes[g]| ==> |RowsOf(rows, Offset(sizes, g) + b + 1)| == sizes[g][b]
    ensures own.Some? ==> own.value == RoutedOf(sizes, rows, g)
  {
    var list: seq<seq<Row>> := [];
    var b := 0;
    while b < |sizes[g]|
      invariant 0 <= b <= |sizes[g]| && |list| == b
      invariant forall k :: 0 <= k < b ==> list[k] == RowsOf(rows, Offset(sizes, g) + k + 1) && |list[k]| == sizes[g][k]
    {
      if |batches[offset + b]| != sizes[g][b] {
        return None;
      }
      list := list + [batches[offset + b]];
      b := b + 1;
    }
    assert list == RoutedOf(sizes, rows, g);
    return Some(list);
  }

  /** Gives each round the batches it sent, if each has as many rows as it has leases. */
  method SplitBatches(sizes: seq<seq<nat>>, ghost rows: seq<Row>, batches: seq<seq<Row>>)
    returns (routed: Option<seq<seq<seq<Row>>>>)
    requires |batches| == Offset(sizes, |sizes|)
    requires PositionsOk(sizes, rows)
    requires forall p :: 0 <= p < |batches| ==> batches[p] == RowsOf(rows, p + 1)
    ensures routed == Routed(sizes, rows)
  {
    var result: seq<seq<seq<Row>>> := [];
    var g, offset := 0, 0;
    while g < |sizes|
      invariant 0 <= g <= |sizes| && offset == Offset(sizes, g)
      invariant CountsOk(sizes, rows, g)
      invariant |result| == g && forall k :: 0 <= k < g ==> result[k] == RoutedOf(sizes, rows, k)
    {
      OffsetGrows(sizes, g + 1, |sizes|);
      var own := TakeOwn(sizes, rows, batches, g, offset);
      if own.None? {
        return None;
      }
      result := result + [own.value];
      offset, g := offset + |sizes[g]|, g + 1;
    }
    assert result == seq(|sizes|, k requires 0 <= k < |sizes| => RoutedOf(sizes, rows, k));
    return Some(result);
  }

  lemma {:induction false} OffsetGrows(sizes: seq<seq<nat>>, g: nat, h: nat)
    requires g <= h <= |sizes|
    ensures Offset(sizes, g) <= Offset(sizes, h)
  {
    if g < h {
      OffsetGrows(sizes, g, h - 1);
    }
  }

  // ----- No row is lost, and none is exchanged -------------------------------------------------------

  /** The rows of a batch are those that name it, in the order in which they came. */
  lemma {:induction false} RowsOfExactly(rows: seq<Row>, more: seq<Row>, row: Row, batch: int)
    ensures RowsOf([], batch) == [] && RowsOf([row], batch) == (if row.batch == batch then [row] else [])
    ensures RowsOf(rows + more, batch) == RowsOf(rows, batch) + RowsOf(more, batch)
  {
    assert [row][..0] == [];
    if |more| == 0 {
      assert rows + more == rows;
    } else {
      RowsOfExactly(rows, more[..|more| - 1], row, batch);
      assert (rows + more)[..|rows + more| - 1] == rows + more[..|more| - 1];
    }
  }

  /** Every batch of the statement has a position of its own. */
  lemma {:induction false} PositionsAreDistinct(sizes: seq<seq<nat>>, g: nat, b: nat, h: nat, c: nat)
    requires g < |sizes| && b < |sizes[g]| && h < |sizes| && c < |sizes[h]|
    ensures 1 <= Offset(sizes, g) + b + 1 <= Offset(sizes, |sizes|)
    ensures Offset(sizes, g) + b == Offset(sizes, h) + c ==> g == h && b == c
  {
    OffsetGrows(sizes, g + 1, |sizes|);
    if g < h {
      OffsetGrows(sizes, g + 1, h);
    } else if h < g {
      OffsetGrows(sizes, h + 1, g);
    }
  }

  /** Every position of the statement is that of a batch. */
  lemma {:induction false} PositionHasBatch(sizes: seq<seq<nat>>, n: nat, position: int) returns (g: nat, b: nat)
    requires n <= |sizes| && 1 <= position <= Offset(sizes, n)
    ensures g < n && b < |sizes[g]| && position == Offset(sizes, g) + b + 1
  {
    if position > Offset(sizes, n - 1) {
      g, b := n - 1, position - Offset(sizes, n - 1) - 1;
    } else {
      g, b := PositionHasBatch(sizes, n - 1, position);
    }
  }

  lemma {:induction false} RowIsInItsBatch(rows: seq<Row>, row: Row)
    requires row in rows
    ensures row in RowsOf(rows, row.batch)
  {
    var n := |rows| - 1;
    if row != rows[n] {
      assert row in rows[..n];
      RowIsInItsBatch(rows[..n], row);
    }
  }

  /** An answer is routed exactly when every row names a batch of the statement and every batch has one row for each of its leases. */
  lemma RoutedExactly(sizes: seq<seq<nat>>, rows: seq<Row>)
    ensures Routed(sizes, rows).Some? <==>
              && (forall i :: 0 <= i < |rows| ==> 1 <= rows[i].batch <= Offset(sizes, |sizes|))
              && (forall g, b :: 0 <= g < |sizes| && 0 <= b < |sizes[g]| ==> |RowsOf(rows, Offset(sizes, g) + b + 1)| == sizes[g][b])
  {
  }

  /** Every row of a routed answer is in the batch that it names, beside one row for each other lease of that batch. */
  lemma RowReachesItsRound(sizes: seq<seq<nat>>, rows: seq<Row>, row: Row) returns (g: nat, b: nat)
    requires Routed(sizes, rows).Some? && row in rows
    ensures g < |sizes| && b < |sizes[g]| && row.batch == Offset(sizes, g) + b + 1
    ensures |Routed(sizes, rows).value| == |sizes| && |Routed(sizes, rows).value[g]| == |sizes[g]|
    ensures row in Routed(sizes, rows).value[g][b] && |Routed(sizes, rows).value[g][b]| == sizes[g][b]
  {
    var i :| 0 <= i < |rows| && rows[i] == row;
    g, b := PositionHasBatch(sizes, |sizes|, row.batch);
    RowIsInItsBatch(rows, row);
    assert Routed(sizes, rows).value[g] == RoutedOf(sizes, rows, g);
  }

  // ----- The statuses of one round -----------------------------------------------------------------

  /** The row that answers the lease at position `k` of the sent order. */
  function RowAt(batches: seq<seq<Row>>, k: nat): Option<Row> {
    var b, i := k / LEASE_LIMIT, k % LEASE_LIMIT;
    if b < |batches| && i < |batches[b]| then Some(batches[b][i]) else None
  }

  /** The row at position `k` names the task of the member that was sent there, with a known status. */
  predicate RowFits(members: seq<Member>, order: seq<nat>, batches: seq<seq<Row>>, k: nat) {
    var row := RowAt(batches, k);
    && k < |order| && order[k] < |members|
    && row.Some? && row.value.taskId == members[order[k]].taskId && row.value.status.Some?
  }

  /** The first `n` positions fit, and their statuses stand at the positions of their members. */
  predicate StatusesUpTo(members: seq<Member>, order: seq<nat>, batches: seq<seq<Row>>, statuses: seq<Status>, n: nat) {
    && |statuses| == |members| == |order|
    && forall k :: 0 <= k < n ==>
         RowFits(members, order, batches, k) && RowAt(batches, k).value.status == Some(statuses[order[k]])
  }

  predicate Fits(members: seq<Member>, batches: seq<seq<Row>>) {
    && |batches| == BatchCount(|members|)
    && (forall b :: 0 <= b < |batches| ==> |batches[b]| == BatchSize(|members|, b))
    && (forall k :: 0 <= k < |members| ==> RowFits(members, Order(members), batches, k))
  }

  /** Each status stands at the position of its own member. */
  predicate AreStatuses(members: seq<Member>, batches: seq<seq<Row>>, statuses: seq<Status>) {
    StatusesUpTo(members, Order(members), batches, statuses, |members|)
  }

  /** The first `b` batches have their sizes and their statuses. */
  predicate Applied(members: seq<Member>, order: seq<nat>, batches: seq<seq<Row>>, statuses: seq<Status>, b: nat)
    requires b <= |batches| == BatchCount(|members|)
  {
    && (forall c :: 0 <= c < b ==> |batches[c]| == BatchSize(|members|, c))
    && StatusesUpTo(members, order, batches, statuses, Min(b * LEASE_LIMIT, |members|))
  }

  /** Extends `before` by the statuses of batch `b`, or finds a position whose row does not fit. */
  method ApplyBatch(members: seq<Member>, order: seq<nat>, batches: seq<seq<Row>>, b: nat, before: seq<Status>)
    returns (statuses: Option<seq<Status>>)
    requires b < |batches| == BatchCount(|members|) && |batches[b]| == BatchSize(|members|, b)
    requires Distinct(order) && forall k :: 0 <= k < |order| ==> order[k] < |members|
    requires Applied(members, order, batches, before, b)
    ensures statuses.Some? ==> Applied(members, order, batches, statuses.value, b + 1)
    ensures statuses.None? ==> exists k :: 0 <= k < |members| && !RowFits(members, order, batches, k)
  {
    BatchEnd(|members|, b);
    var rows, result := batches[b], before;
    var i := 0;
    while i < |rows|
      invariant 0 <= i <= |rows|
      invariant StatusesUpTo(members, order, batches, result, b * LEASE_LIMIT + i)
    {
      var k := b * LEASE_LIMIT + i;
      PositionOf(b, i);
      assert RowAt(batches, k) == Some(rows[i]);
      if rows[i].taskId != members[order[k]].taskId || rows[i].status.None? {
        assert !RowFits(members, order, batches, k);
        return None;
      }
      result := result[order[k] := rows[i].status.value];
      i := i + 1;
    }
    return Some(result);
  }

  lemma AppliedAll(members: seq<Member>, batches: seq<seq<Row>>, statuses: seq<Status>)
    requires |batches| == BatchCount(|members|) && Applied(members, Order(members), batches, statuses, |batches|)
    ensures Fits(members, batches) && AreStatuses(members, batches, statuses)
  {
    if |batches| > 0 {
      BatchEnd(|members|, |batches| - 1);
    }
  }

  method CollectStatuses(members: seq<Member>, batches: seq<seq<Row>>) returns (statuses: Option<seq<Status>>)
    requires |batches| == BatchCount(|members|)
    ensures statuses.Some? <==> Fits(members, batches)
    ensures statuses.Some? ==> AreStatuses(members, batches, statuses.value)
  {
    var order := Order(members);
    OrderPermutes(members);
    assert forall k :: 0 <= k < |order| ==> order[k] in order;
    var result: seq<Status> := seq(|members|, _ => Stale);
    var b := 0;
    while b < |batches|
      invariant 0 <= b <= |batches|
      invariant Applied(members, order, batches, result, b)
    {
      if |batches[b]| != BatchSize(|members|, b) {
        return None;
      }
      var applied := ApplyBatch(members, order, batches, b, result);
      if applied.None? {
        return None;
      }
      result := applied.value;
      b := b + 1;
    }
    AppliedAll(members, batches, result);
    return Some(result);
  }

  // ----- The promises ----------------------------------------------------------------------------

  function SizesOf(rounds: seq<seq<Member>>): seq<seq<nat>> {
    seq(|rounds|, g requires 0 <= g < |rounds| => BatchSizes(|rounds[g]|))
  }

  /** The answer of PostgreSQL for batch `b` of round `g`: one row for each lease, in input order. */
  predicate Answers(rounds: seq<seq<Member>>, answers: seq<seq<Status>>, rows: seq<Row>, g: nat, b: nat)
    requires g < |rounds| == |answers| && |answers[g]| == |rounds[g]| && b < BatchCount(|rounds[g]|)
  {
    var sizes, order := SizesOf(rounds), Order(rounds[g]);
    var batch := RowsOf(rows, Offset(sizes, g) + b + 1);
    && |batch| == BatchSize(|rounds[g]|, b)
    && forall i :: 0 <= i < |batch| ==>
         var k := b * LEASE_LIMIT + i;
         && k < |order| && order[k] < |rounds[g]|
         && batch[i].taskId == rounds[g][order[k]].taskId
         && batch[i].status == Some(answers[g][order[k]])
  }

  /** PostgreSQL answered every batch of every round, and no row names another batch. */
  predicate AnswersAll(rounds: seq<seq<Member>>, answers: seq<seq<Status>>, rows: seq<Row>) {
    && |answers| == |rounds|
    && (forall g :: 0 <= g < |rounds| ==> |answers[g]| == |rounds[g]|)
    && PositionsOk(SizesOf(rounds), rows)
    && (forall g, b :: 0 <= g < |rounds| && 0 <= b < BatchCount(|rounds[g]|) ==> Answers(rounds, answers, rows, g, b))
  }

  lemma AnswersRoute(rounds: seq<seq<Member>>, answers: seq<seq<Status>>, rows: seq<Row>)
    requires AnswersAll(rounds, answers, rows)
    ensures CountsOk(SizesOf(rounds), rows, |rounds|)
  {
    var sizes := SizesOf(rounds);
    forall h, b | 0 <= h < |sizes| && 0 <= b < |sizes[h]|
      ensures |RowsOf(rows, Offset(sizes, h) + b + 1)| == sizes[h][b]
    {
      assert Answers(rounds, answers, rows, h, b);
    }
  }

  /** Row `i` of batch `b` of round `g`, as routed, answers the member that was sent there. */
  lemma AnswersBatchRow(rounds: seq<seq<Member>>, answers: seq<seq<Status>>, rows: seq<Row>, g: nat, b: nat, i: nat)
    requires AnswersAll(rounds, answers, rows) && g < |rounds|
    requires b < BatchCount(|rounds[g]|) && i < BatchSize(|rounds[g]|, b)
    ensures var own, order := RoutedOf(SizesOf(rounds), rows, g), Order(rounds[g]);
            var k := b * LEASE_LIMIT + i;
            && b < |own| && i < |own[b]| && k < |order| && order[k] < |rounds[g]|
            && own[b][i].taskId == rounds[g][order[k]].taskId
            && own[b][i].status == Some(answers[g][order[k]])
  {
    assert Answers(rounds, answers, rows, g, b);
    var own := RoutedOf(SizesOf(rounds), rows, g);
    assert own[b] == RowsOf(rows, Offset(SizesOf(rounds), g) + b + 1);
    assert own[b][i].status == Some(answers[g][Order(rounds[g])[b * LEASE_LIMIT + i]]);
  }

  lemma AnswersRow(rounds: seq<seq<Member>>, answers: seq<seq<Status>>, rows: seq<Row>, g: nat, k: nat)
    requires AnswersAll(rounds, answers, rows) && g < |rounds| && k < |rounds[g]|
    ensures var own := RoutedOf(SizesOf(rounds), rows, g);
            && RowFits(rounds[g], Order(rounds[g]), own, k)
            && RowAt(own, k).value.status == Some(answers[g][Order(rounds[g])[k]])
  {
    PlaceOf(|rounds[g]|, k);
    AnswersBatchRow(rounds, answers, rows, g, k / LEASE_LIMIT, k % LEASE_LIMIT);
  }

  lemma AnswersFit(rounds: seq<seq<Member>>, answers: seq<seq<Status>>, rows: seq<Row>, g: nat)
    requires AnswersAll(rounds, answers, rows) && g < |rounds|
    ensures Fits(rounds[g], RoutedOf(SizesOf(rounds), rows, g))
  {
    var own := RoutedOf(SizesOf(rounds), rows, g);
    forall k | 0 <= k < |rounds[g]| ensures RowFits(rounds[g], Order(rounds[g]), own, k) {
      AnswersRow(rounds, answers, rows, g, k);
    }
    forall b | 0 <= b < |own| ensures |own[b]| == BatchSize(|rounds[g]|, b) {
      assert Answers(rounds, answers, rows, g, b);
    }
  }

  /**
   Rounds of any workers share one statement, and the rows of its batches arrive in any interleaving.
   Every round then gets statuses, and each member the one that PostgreSQL returned for its own lease,
   whichever members name the same task.
   */
  lemma MemberGetsItsOwnStatus(
    rounds: seq<seq<Member>>, answers: seq<seq<Status>>, rows: seq<Row>, g: nat, statuses: seq<Status>)
    requires AnswersAll(rounds, answers, rows) && g < |rounds|
    ensures Routed(SizesOf(rounds), rows).Some?
    ensures Fits(rounds[g], Routed(SizesOf(rounds), rows).value[g])
    ensures AreStatuses(rounds[g], Routed(SizesOf(rounds), rows).value[g], statuses) <==> statuses == answers[g]
  {
    AnswersRoute(rounds, answers, rows);
    AnswersFit(rounds, answers, rows, g);
    var order, own := Order(rounds[g]), RoutedOf(SizesOf(rounds), rows, g);
    assert Routed(SizesOf(rounds), rows).value[g] == own;
    OrderPermutes(rounds[g]);
    forall k | 0 <= k < |rounds[g]|
      ensures RowFits(rounds[g], order, own, k) && RowAt(own, k).value.status == Some(answers[g][order[k]])
    {
      AnswersRow(rounds, answers, rows, g, k);
    }
    if AreStatuses(rounds[g], own, statuses) {
      forall i: nat | i < |rounds[g]| ensures statuses[i] == answers[g][i] {
        assert i in order;
        var k :| 0 <= k < |order| && order[k] == i;
        assert RowFits(rounds[g], order, own, k);
      }
      assert statuses == answers[g];
    }
  }

  lemma {:induction false} RowsOfBatch(rows: seq<Row>, batch: int)
    ensures forall row :: row in RowsOf(rows, batch) ==> row in rows && row.batch == batch
  {
    if |rows| > 0 {
      RowsOfBatch(rows[..|rows| - 1], batch);
    }
  }

  lemma RoutedRow(sizes: seq<seq<nat>>, rows: seq<Row>, g: nat, k: nat)
    requires g < |sizes| && RowAt(RoutedOf(sizes, rows, g), k).Some?
    ensures RowAt(RoutedOf(sizes, rows, g), k).value in rows
    ensures RowAt(RoutedOf(sizes, rows, g), k).value.batch == Offset(sizes, g) + k / LEASE_LIMIT + 1
  {
    RowsOfBatch(rows, Offset(sizes, g) + k / LEASE_LIMIT + 1);
  }

  /**
   Whatever rows arrive, a round that gets statuses read each one from a row of its own batch that
   names the member's own task. Rows with another position, count or task ID give no status.
   */
  lemma StatusesComeFromOwnRows(rounds: seq<seq<Member>>, rows: seq<Row>, g: nat, statuses: seq<Status>, i: nat)
    requires Routed(SizesOf(rounds), rows).Some?
    requires g < |rounds| && AreStatuses(rounds[g], Routed(SizesOf(rounds), rows).value[g], statuses) && i < |rounds[g]|
    ensures exists batch :: Row(batch, rounds[g][i].taskId, Some(statuses[i])) in rows
                            && Offset(SizesOf(rounds), g) < batch <= Offset(SizesOf(rounds), g) + BatchCount(|rounds[g]|)
  {
    var order, own := Order(rounds[g]), RoutedOf(SizesOf(rounds), rows, g);
    OrderPermutes(rounds[g]);
    assert i in order;
    var k :| 0 <= k < |order| && order[k] == i;
    assert RowFits(rounds[g], order, own, k);
    RoutedRow(SizesOf(rounds), rows, g, k);
    var row := RowAt(own, k).value;
    assert row == Row(row.batch, rounds[g][i].taskId, Some(statuses[i]));
  }
}
