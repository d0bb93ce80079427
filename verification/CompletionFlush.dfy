/**
 One turn of the goroutine that flushes completions: it takes the whole batch of its key, cuts it into
 chunks, sends each chunk, and answers every completion of the batch exactly once.
 */
module CompletionFlush {
  import opened Sequences
  import Batches = CompletionBatches
  import Queue = CompletionQueue

  // ----- Which completions are answered ----------------------------------------------------------------

  function Ids(entries: seq<Batches.Entry>): seq<nat> {
    seq(|entries|, i requires 0 <= i < |entries| => entries[i].id)
  }

  lemma {:induction false} IdsConcat(a: seq<Batches.Entry>, b: seq<Batches.Entry>)
    ensures Ids(a + b) == Ids(a) + Ids(b)
  {
  }

  lemma {:induction false} OneLess(entries: seq<Batches.Entry>, i: nat)
    requires i < |entries|
    ensures multiset(Without(entries, i)) == multiset(entries) - multiset{entries[i]}
    ensures multiset(Ids(entries)) == multiset(Ids(Without(entries, i))) + multiset{entries[i].id}
  {
    var before, after := entries[..i], entries[i + 1..];
    assert entries == before + [entries[i]] + after;
    IdsConcat(before, after);
    assert Ids(entries) == Ids(before) + [entries[i].id] + Ids(after);
  }

  /** The same completions in another order have the same IDs. */
  lemma {:induction false} SameIds(a: seq<Batches.Entry>, b: seq<Batches.Entry>)
    requires multiset(a) == multiset(b)
    ensures multiset(Ids(a)) == multiset(Ids(b))
    decreases |a|
  {
    if |a| == 0 {
      assert |multiset(b)| == 0;
    } else {
      assert a[0] in multiset(b);
      var j :| 0 <= j < |b| && b[j] == a[0];
      OneLess(a, 0);
      OneLess(b, j);
      SameIds(Without(a, 0), Without(b, j));
    }
  }

  /** IDs that are the batch in another order name each of its completions once. */
  lemma EachOnce(batch: seq<nat>, ids: seq<nat>)
    requires Distinct(batch) && multiset(ids) == multiset(batch)
    ensures Distinct(ids) && forall e :: e in ids <==> e in batch
  {
    DistinctMultiset(batch);
    DistinctMultiset(ids);
    forall e ensures e in ids <==> e in batch {
      assert e in multiset(ids) <==> e in multiset(batch);
    }
  }

  // ----- Sending a batch -------------------------------------------------------------------------------

  /** What the statements of one chunk meet: a connection, the claim gate, and the replies of PostgreSQL. */
  datatype Sending = Sending(connected: bool, gate: nat -> bool, replies: (nat, nat) -> Batches.Reply)

  /** One chunk as it went out, with the answers of its completions. */
  datatype Statement = Statement(order: seq<Batches.Entry>, answers: seq<Batches.Answer>, attempts: nat)

  /** What the last attempt got. A statement that had no connection fares like one that failed. */
  function FinalReply(st: Statement, sending: Sending): Batches.Reply {
    if st.attempts == 0 then Batches.OtherFailure
    else Batches.ReplyTo(st.order, sending.gate, sending.replies, st.attempts - 1)
  }

  /** Each completion has the answer to its own task, and each row that the statement claimed is with one of them. */
  predicate StatementOk(st: Statement, sending: Sending) {
    var reply := FinalReply(st, sending);
    && st.attempts <= Batches.ATTEMPTS && |st.answers| == |st.order|
    && (st.attempts == 0 <==> Batches.Claims(st.order) > 0 && !sending.connected)
    && (forall i :: 0 <= i < |st.order| ==> Batches.AnswerOk(st.order[i], st.answers[i], reply))
    && (Batches.Usable(reply) ==> Batches.Concat(Batches.Shares(st.answers)) == Batches.Claimed(reply.rows))
  }

  /** All completions, in the order in which they went out. */
  function Sent(statements: seq<Statement>): seq<Batches.Entry> {
    if |statements| == 0 then [] else Sent(statements[..|statements| - 1]) + statements[|statements| - 1].order
  }

  lemma {:induction false} SentAppend(statements: seq<Statement>, st: Statement)
    ensures Sent(statements + [st]) == Sent(statements) + st.order
  {
    assert (statements + [st])[..|statements|] == statements;
  }

  /** Every completion that went out did so in one of the statements. */
  lemma {:induction false} SentIn(statements: seq<Statement>, k: nat) returns (c: nat, i: nat)
    requires k < |Sent(statements)|
    ensures c < |statements| && i < |statements[c].order| && statements[c].order[i] == Sent(statements)[k]
  {
    var n := |statements| - 1;
    var before := Sent(statements[..n]);
    if k < |before| {
      c, i := SentIn(statements[..n], k);
    } else {
      c, i := n, k - |before|;
    }
  }

  /** A statement that a missing connection refused. */
  lemma RefusedIsOk(st: Statement, sending: Sending)
    requires st.attempts == 0 && Batches.Claims(st.order) > 0 && !sending.connected && |st.answers| == |st.order|
    requires forall i :: 0 <= i < |st.answers| ==> st.answers[i].Refused?
    ensures StatementOk(st, sending)
  {
  }

  lemma CompletedIsOk(st: Statement, sending: Sending)
    requires Batches.Claims(st.order) == 0 || sending.connected
    requires Batches.Completed(st.order, sending.gate, sending.replies, st.answers, st.attempts)
    ensures StatementOk(st, sending)
  {
    Batches.AnsweredForOwnTask(st.order, sending.gate, sending.replies, st.answers, st.attempts);
  }

  method SendStatement(chunk: seq<Batches.Entry>, sending: Sending) returns (st: Statement)
    requires Batches.WithinLimit(sending.replies)
    ensures multiset(st.order) == multiset(chunk) && StatementOk(st, sending)
  {
    var order, answers, attempts := Batches.CompleteChunk(chunk, sending.connected, sending.gate, sending.replies);
    st := Statement(order, answers, attempts);
    if Batches.Claims(order) > 0 && !sending.connected {
      assert |multiset(order)| == |multiset(chunk)|;
      RefusedIsOk(st, sending);
    } else {
      CompletedIsOk(st, sending);
    }
  }

  predicate AllOk(statements: seq<Statement>, sending: nat -> Sending) {
    forall c :: 0 <= c < |statements| ==> StatementOk(statements[c], sending(c))
  }

  /** The statements are the first chunks, each in its own order. */
  predicate SentChunks(statements: seq<Statement>, chunks: seq<seq<Batches.Entry>>) {
    |statements| <= |chunks| && multiset(Sent(statements)) == multiset(Batches.Concat(chunks[..|statements|]))
  }

  lemma SentGrows(statements: seq<Statement>, chunks: seq<seq<Batches.Entry>>, st: Statement)
    requires SentChunks(statements, chunks) && |statements| < |chunks|
    requires multiset(st.order) == multiset(chunks[|statements|])
    ensures SentChunks(statements + [st], chunks)
  {
    var c := |statements|;
    assert chunks[..c + 1] == chunks[..c] + [chunks[c]];
    Batches.ConcatAppend(chunks[..c], chunks[c]);
    SentAppend(statements, st);
  }

  method SendBatch(entries: seq<Batches.Entry>, sending: nat -> Sending) returns (statements: seq<Statement>)
    requires entries != [] && forall c :: Batches.WithinLimit(sending(c).replies)
    ensures multiset(Sent(statements)) == multiset(entries) && AllOk(statements, sending)
  {
    var chunks := Batches.CompletionChunks(entries);
    statements := [];
    while |statements| < |chunks|
      invariant SentChunks(statements, chunks) && AllOk(statements, sending)
    {
      var c := |statements|;
      assert Batches.WithinLimit(sending(c).replies);
      var st := SendStatement(chunks[c], sending(c));
      SentGrows(statements, chunks, st);
      statements := statements + [st];
    }
    assert chunks[..|statements|] == chunks;
  }

  // ----- Answers by ID -----------------------------------------------------------------------------------

  /** The completions of `st` have their answers under their IDs. */
  predicate Keeps(answers: map<nat, Batches.Answer>, st: Statement) {
    && |st.answers| == |st.order|
    && forall i :: 0 <= i < |st.order| ==> st.order[i].id in answers && answers[st.order[i].id] == st.answers[i]
  }

  /** Adds the answers of a statement whose IDs are new. */
  method AddAnswers(before: map<nat, Batches.Answer>, st: Statement) returns (answers: map<nat, Batches.Answer>)
    requires |st.answers| == |st.order| && Distinct(Ids(st.order)) && forall e :: e in Ids(st.order) ==> e !in before
    ensures answers.Keys == before.Keys + Queue.Members(Ids(st.order)) && Keeps(answers, st)
    ensures forall e :: e in before ==> answers[e] == before[e]
  {
    answers := before;
    var i := 0;
    while i < |st.order|
      invariant 0 <= i <= |st.order| && answers.Keys == before.Keys + Queue.Members(Ids(st.order)[..i])
      invariant forall e :: e in before ==> answers[e] == before[e]
      invariant forall k :: 0 <= k < i ==> st.order[k].id in answers && answers[st.order[k].id] == st.answers[k]
    {
      var ids := Ids(st.order);
      assert ids[i] in ids && ids[..i + 1] == ids[..i] + [ids[i]];
      assert forall k :: 0 <= k < i ==> ids[k] != ids[i];
      answers := answers[st.order[i].id := st.answers[i]];
      i := i + 1;
    }
    assert Ids(st.order)[..i] == Ids(st.order);
  }

  lemma PrefixDistinct(statements: seq<Statement>, c: nat)
    requires c < |statements| && Distinct(Ids(Sent(statements[..c + 1])))
    ensures Distinct(Ids(Sent(statements[..c]))) && Distinct(Ids(statements[c].order))
    ensures Ids(Sent(statements[..c + 1])) == Ids(Sent(statements[..c])) + Ids(statements[c].order)
    ensures forall e :: e in Ids(statements[c].order) ==> e !in Ids(Sent(statements[..c]))
  {
    var before, own := Ids(Sent(statements[..c])), Ids(statements[c].order);
    assert statements[..c + 1] == statements[..c] + [statements[c]];
    SentAppend(statements[..c], statements[c]);
    IdsConcat(Sent(statements[..c]), statements[c].order);
    assert forall i :: 0 <= i < |before| ==> before[i] == (before + own)[i];
    assert forall i :: 0 <= i < |own| ==> own[i] == (before + own)[|before| + i];
  }

  lemma {:induction false} EveryPrefixDistinct(statements: seq<Statement>, c: nat)
    requires c <= |statements| && Distinct(Ids(Sent(statements)))
    ensures Distinct(Ids(Sent(statements[..c])))
    decreases |statements| - c
  {
    if c == |statements| {
      assert statements[..c] == statements;
    } else {
      EveryPrefixDistinct(statements, c + 1);
      PrefixDistinct(statements, c);
    }
  }

  /** The answers of all statements by completion ID. */
  method CollectAnswers(statements: seq<Statement>) returns (answers: map<nat, Batches.Answer>)
    requires Distinct(Ids(Sent(statements)))
    requires forall c :: 0 <= c < |statements| ==> |statements[c].answers| == |statements[c].order|
    ensures answers.Keys == Queue.Members(Ids(Sent(statements)))
    ensures forall c :: 0 <= c < |statements| ==> Keeps(answers, statements[c])
  {
    answers := map[];
    var c := 0;
    while c < |statements|
      invariant 0 <= c <= |statements| && answers.Keys == Queue.Members(Ids(Sent(statements[..c])))
      invariant forall d :: 0 <= d < c ==> Keeps(answers, statements[d])
    {
      EveryPrefixDistinct(statements, c + 1);
      PrefixDistinct(statements, c);
      answers := AddAnswers(answers, statements[c]);
      c := c + 1;
    }
    assert statements[..c] == statements;
  }

  // ----- One turn ----------------------------------------------------------------------------------------

  /** Answers every completion of the batch in flight. */
  method AnswerBatch(batcher: Queue.Batcher, f: nat, ids: seq<nat>)
    requires Queue.Inv(batcher.View()) && Distinct(ids)
    requires f < |batcher.flushers| && batcher.flushers[f].stage == Queue.Flying(Queue.Members(ids))
    modifies batcher
    ensures Queue.Inv(batcher.View()) && Queue.IsAt(batcher.View(), f, Queue.Flying({}))
    ensures |batcher.entries| == |old(batcher.entries)|
    ensures forall e :: 0 <= e < |batcher.entries| ==>
              batcher.entries[e].answers == old(batcher.entries)[e].answers + if e in ids then 1 else 0
  {
    var i := 0;
    while i < |ids|
      invariant 0 <= i <= |ids| && Queue.Inv(batcher.View())
      invariant Queue.IsAt(batcher.View(), f, Queue.Flying(Queue.Members(ids[i..])))
      invariant |batcher.entries| == |old(batcher.entries)|
      invariant forall e :: 0 <= e < |batcher.entries| ==>
                  batcher.entries[e].answers == old(batcher.entries)[e].answers + if e in ids[..i] then 1 else 0
    {
      assert ids[i..] == [ids[i]] + ids[i + 1..] && ids[..i + 1] == ids[..i] + [ids[i]];
      assert ids[i] in ids[i..] && ids[i] !in ids[i + 1..] && ids[i] !in ids[..i];
      assert Queue.FlusherOk(batcher.View(), f);
      batcher.AnswerCompletion(f, ids[i]);
      assert Queue.Members(ids[i..]) - {ids[i]} == Queue.Members(ids[i + 1..]);
      i := i + 1;
    }
    assert ids[i..] == [] && ids[..i] == ids;
    assert Queue.Members(ids[i..]) == {};
  }

  /** `answer` is what statement `st` answered to completion `entry`. */
  predicate AnsweredIn(entry: Batches.Entry, answer: Batches.Answer, st: Statement, sending: Sending) {
    && |st.answers| == |st.order|
    && (exists i :: 0 <= i < |st.order| && st.order[i] == entry && st.answers[i] == answer)
    && Batches.AnswerOk(entry, answer, FinalReply(st, sending))
  }

  /** Every completion of the batch has, under its ID, the answer of the one statement that it went out with. */
  predicate BatchAnswered(
    batch: seq<nat>, entryOf: nat -> Batches.Entry, sending: nat -> Sending, statements: seq<Statement>,
    answers: map<nat, Batches.Answer>)
  {
    && answers.Keys == Queue.Members(batch) && multiset(Ids(Sent(statements))) == multiset(batch)
    && AllOk(statements, sending)
    && forall e :: e in batch ==>
         exists c :: 0 <= c < |statements| && AnsweredIn(entryOf(e), answers[e], statements[c], sending(c))
  }

  lemma SentEntry(batch: seq<nat>, entryOf: nat -> Batches.Entry, entries: seq<Batches.Entry>, sent: seq<Batches.Entry>, e: nat)
    returns (k: nat)
    requires |entries| == |batch| && forall i :: 0 <= i < |batch| ==> entries[i] == entryOf(batch[i])
    requires (forall e :: entryOf(e).id == e) && multiset(sent) == multiset(entries) && e in batch
    ensures k < |sent| && sent[k] == entryOf(e)
  {
    var j :| 0 <= j < |batch| && batch[j] == e;
    assert entries[j] in multiset(sent);
    k :| 0 <= k < |sent| && sent[k] == entries[j];
  }

  lemma EveryIdIsAnswered(
    statements: seq<Statement>, sending: nat -> Sending, answers: map<nat, Batches.Answer>, k: nat)
    requires k < |Sent(statements)| && AllOk(statements, sending)
    requires forall c :: 0 <= c < |statements| ==> Keeps(answers, statements[c])
    ensures var entry := Sent(statements)[k];
            && entry.id in answers
            && exists c :: 0 <= c < |statements| && AnsweredIn(entry, answers[entry.id], statements[c], sending(c))
  {
    var c, i := SentIn(statements, k);
    assert AnsweredIn(Sent(statements)[k], answers[Sent(statements)[k].id], statements[c], sending(c));
  }

  /** Sends the completions of a batch, and collects their answers. */
  method SendTaken(batch: seq<nat>, entryOf: nat -> Batches.Entry, sending: nat -> Sending)
    returns (statements: seq<Statement>, answers: map<nat, Batches.Answer>)
    requires batch != [] && Distinct(batch)
    requires (forall e :: entryOf(e).id == e) && forall c :: Batches.WithinLimit(sending(c).replies)
    ensures BatchAnswered(batch, entryOf, sending, statements, answers)
  {
    var entries := seq(|batch|, i requires 0 <= i < |batch| => entryOf(batch[i]));
    assert Ids(entries) == batch;
    statements := SendBatch(entries, sending);
    SameIds(Sent(statements), entries);
    EachOnce(batch, Ids(Sent(statements)));
    assert forall c :: 0 <= c < |statements| ==> StatementOk(statements[c], sending(c));
    answers := CollectAnswers(statements);
    forall e | e in batch
      ensures e in answers && exists c :: 0 <= c < |statements| && AnsweredIn(entryOf(e), answers[e], statements[c], sending(c))
    {
      var k := SentEntry(batch, entryOf, entries, Sent(statements), e);
      EveryIdIsAnswered(statements, sending, answers, k);
    }
  }

  /**
   One turn of a flusher. It takes all completions that wait for its key, and when it is back at its head
   each of them, and no other, has had one answer more: the one that the statement with this completion
   gave to its own task. With nothing to take, it ends.
   */
  method Flush(batcher: Queue.Batcher, f: nat, entryOf: nat -> Batches.Entry, sending: nat -> Sending)
    returns (batch: seq<nat>, statements: seq<Statement>, answers: map<nat, Batches.Answer>)
    requires Queue.Inv(batcher.View()) && Queue.Enabled(batcher.View(), Queue.Take(f))
    requires (forall e :: entryOf(e).id == e) && forall c :: Batches.WithinLimit(sending(c).replies)
    modifies batcher
    ensures Queue.Inv(batcher.View()) && batch == Queue.Pending(old(batcher.View()), old(batcher.flushers)[f].key)
    ensures Queue.IsAt(batcher.View(), f, if batch == [] then Queue.Ended else Queue.AtHead)
    ensures |batcher.entries| == |old(batcher.entries)|
    ensures forall e :: 0 <= e < |batcher.entries| ==>
              batcher.entries[e].answers == old(batcher.entries)[e].answers + if e in batch then 1 else 0
    ensures BatchAnswered(batch, entryOf, sending, statements, answers)
  {
    statements, answers := [], map[];
    batch := batcher.TakeBatch(f);
    if batch == [] {
      return;
    }
    assert Distinct(batch);
    statements, answers := SendTaken(batch, entryOf, sending);
    var answered := Ids(Sent(statements));
    EachOnce(batch, answered);
    assert Queue.Members(batch) == Queue.Members(answered);
    AnswerBatch(batcher, f, answered);
    batcher.ReturnToHead(f);
  }
}
