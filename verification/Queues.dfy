/**
 * The `BatchStore` contract: two durable FIFO queues, the counters that name
 * their elements and the payload format label.
 */
module Queues {
  import opened Prelude
  import opened Wire

  datatype Message = Message(sequence: nat, receivedAt: nat, envelope: seq<byte>)

  datatype Prepared = Prepared(count: nat, payload: seq<byte>)

  datatype Batch = Batch(id: nat, createdAt: nat, count: nat, payload: seq<byte>)

  /** How payloads are encoded; texts are their UTF-8 bytes. */
  datatype Descriptor = Descriptor(schema: seq<byte>, version: nat, encoding: seq<byte>, compression: seq<byte>)

  datatype Queues = Queues(
    pending: seq<Message>, ready: seq<Batch>, nextSequence: nat, nextId: nat, format: Option<Descriptor>)

  datatype StoreError = Database | Corrupt | NotPending(id: nat)

  /** Keys increase along both queues and stay below the counters that produce them. */
  ghost predicate WellFormed(q: Queues) {
    && (forall i, j | 0 <= i < j < |q.pending| :: q.pending[i].sequence < q.pending[j].sequence)
    && (forall i, j | 0 <= i < j < |q.ready| :: q.ready[i].id < q.ready[j].id)
    && (forall m | m in q.pending :: m.sequence < q.nextSequence)
    && (forall b | b in q.ready :: b.id < q.nextId)
  }

  const EMPTY_STORE := Queues([], [], 0, 0, None)

  function Push(q: Queues, receivedAt: nat, envelope: seq<byte>): Queues {
    q.(pending := q.pending + [Message(q.nextSequence, receivedAt, envelope)], nextSequence := q.nextSequence + 1)
  }

  function WithoutMessage(ms: seq<Message>, id: nat): seq<Message> {
    if ms == [] then []
    else if ms[0].sequence == id then WithoutMessage(ms[1..], id)
    else [ms[0]] + WithoutMessage(ms[1..], id)
  }

  function WithoutBatch(bs: seq<Batch>, id: nat): seq<Batch> {
    if bs == [] then []
    else if bs[0].id == id then WithoutBatch(bs[1..], id)
    else [bs[0]] + WithoutBatch(bs[1..], id)
  }

  predicate IsPending(ms: seq<Message>, id: nat) {
    exists i | 0 <= i < |ms| :: ms[i].sequence == id
  }

  /** The ready batches that `prepared` becomes when ids from `first` on are assigned. */
  function Numbered(prepared: seq<Prepared>, first: nat, createdAt: nat): (bs: seq<Batch>)
    ensures |bs| == |prepared|
  {
    seq(|prepared|, i requires 0 <= i < |prepared| =>
      Batch(first + i, createdAt, prepared[i].count, prepared[i].payload))
  }

  /** Take the messages `consumed` out of `ms` one by one; the first one that is absent fails. */
  function Consume(ms: seq<Message>, consumed: seq<nat>): Result<seq<Message>, StoreError>
    decreases |consumed|
  {
    if consumed == [] then Ok(ms)
    else if !IsPending(ms, consumed[0]) then Err(NotPending(consumed[0]))
    else Consume(WithoutMessage(ms, consumed[0]), consumed[1..])
  }

  /** Replace `consumed` by `prepared`, or change nothing. */
  function Commit(q: Queues, consumed: seq<nat>, prepared: seq<Prepared>, createdAt: nat)
    : Result<Queues, StoreError>
  {
    match Consume(q.pending, consumed)
    case Err(e) => Err(e)
    case Ok(rest) => Ok(q.(pending := rest,
                           ready := q.ready + Numbered(prepared, q.nextId, createdAt),
                           nextId := q.nextId + |prepared|))
  }

  function Confirm(q: Queues, id: nat): Queues {
    q.(ready := WithoutBatch(q.ready, id))
  }

  function SetFormat(q: Queues, d: Descriptor): Queues {
    q.(format := Some(d))
  }

  /* ---------- facts about removal ---------- */

  lemma {:induction false} WithoutMessageContents(ms: seq<Message>, id: nat)
    ensures |WithoutMessage(ms, id)| <= |ms|
    ensures forall m :: m in WithoutMessage(ms, id) <==> m in ms && m.sequence != id
    ensures forall k :: IsPending(WithoutMessage(ms, id), k) <==> IsPending(ms, k) && k != id
  {
    if ms != [] {
      WithoutMessageContents(ms[1..], id);
      assert ms == [ms[0]] + ms[1..];
      assert forall k :: IsPending(ms, k) <==> ms[0].sequence == k || IsPending(ms[1..], k);
      var r := WithoutMessage(ms[1..], id);
      assert forall k :: IsPending([ms[0]] + r, k) <==> ms[0].sequence == k || IsPending(r, k) by {
        forall k ensures IsPending([ms[0]] + r, k) <==> ms[0].sequence == k || IsPending(r, k) {
          if ms[0].sequence == k {
            assert ([ms[0]] + r)[0].sequence == k;
          }
          if IsPending(r, k) {
            var i :| 0 <= i < |r| && r[i].sequence == k;
            assert ([ms[0]] + r)[i + 1].sequence == k;
          }
        }
      }
    }
  }

  lemma {:induction false} WithoutAbsentBatch(bs: seq<Batch>, id: nat)
    requires forall b | b in bs :: b.id != id
    ensures WithoutBatch(bs, id) == bs
  {
    if bs != [] {
      WithoutAbsentBatch(bs[1..], id);
    }
  }

  lemma {:induction false} WithoutFirstBatch(bs: seq<Batch>)
    requires bs != [] && forall i, j | 0 <= i < j < |bs| :: bs[i].id < bs[j].id
    ensures WithoutBatch(bs, bs[0].id) == bs[1..]
  {
    WithoutAbsentBatch(bs[1..], bs[0].id);
  }

  lemma {:induction false} WithoutAbsentMessage(ms: seq<Message>, id: nat)
    requires forall m | m in ms :: m.sequence != id
    ensures WithoutMessage(ms, id) == ms
  {
    if ms != [] {
      WithoutAbsentMessage(ms[1..], id);
    }
  }

  /** Consuming a prefix of a queue leaves exactly the rest of it. */
  lemma {:induction false} ConsumePrefix(ms: seq<Message>, n: nat)
    requires n <= |ms|
    requires forall i, j | 0 <= i < j < |ms| :: ms[i].sequence < ms[j].sequence
    ensures Consume(ms, Sequences(ms[..n])) == Ok(ms[n..])
  {
    if n > 0 {
      var ids := Sequences(ms[..n]);
      assert IsPending(ms, ids[0]);
      WithoutAbsentMessage(ms[1..], ms[0].sequence);
      assert WithoutMessage(ms, ids[0]) == ms[1..];
      ConsumePrefix(ms[1..], n - 1);
      assert ids[1..] == Sequences(ms[1..][..n - 1]);
    }
  }

  /** Committing a prefix of the pending queue always succeeds and removes exactly that prefix. */
  lemma {:induction false} CommitPrefix(q: Queues, n: nat, prepared: seq<Prepared>, createdAt: nat)
    requires n <= |q.pending|
    requires forall i, j | 0 <= i < j < |q.pending| :: q.pending[i].sequence < q.pending[j].sequence
    ensures Commit(q, Sequences(q.pending[..n]), prepared, createdAt)
         == Ok(q.(pending := q.pending[n..],
                  ready := q.ready + Numbered(prepared, q.nextId, createdAt),
                  nextId := q.nextId + |prepared|))
  {
    ConsumePrefix(q.pending, n);
  }

  function Sequences(ms: seq<Message>): (ids: seq<nat>)
    ensures |ids| == |ms|
  {
    seq(|ms|, i requires 0 <= i < |ms| => ms[i].sequence)
  }

  ghost predicate Distinct(ids: seq<nat>) {
    forall i, j | 0 <= i < j < |ids| :: ids[i] != ids[j]
  }

  /**
   * A commit succeeds exactly when the consumed ids are distinct and all pending;
   * then precisely those messages are gone.
   */
  lemma {:induction false} ConsumeExact(ms: seq<Message>, consumed: seq<nat>)
    ensures Consume(ms, consumed).Ok? <==> Distinct(consumed) && forall id | id in consumed :: IsPending(ms, id)
    ensures Consume(ms, consumed).Ok? ==>
              forall m :: m in Consume(ms, consumed).value <==> m in ms && m.sequence !in consumed
    ensures Consume(ms, consumed).Err? ==>
              && Consume(ms, consumed).error.NotPending?
              && Consume(ms, consumed).error.id in consumed
    decreases |consumed|
  {
    if consumed != [] {
      var id, tail := consumed[0], consumed[1..];
      assert consumed == [id] + tail;
      assert Distinct(consumed) <==> id !in tail && Distinct(tail) by {
        if id !in tail && Distinct(tail) {
          forall i, j | 0 <= i < j < |consumed| ensures consumed[i] != consumed[j] {
            assert consumed[j] == tail[j - 1];
            if i > 0 { assert consumed[i] == tail[i - 1]; }
          }
        }
        if Distinct(consumed) {
          forall i, j | 0 <= i < j < |tail| ensures tail[i] != tail[j] {
            assert tail[i] == consumed[i + 1] && tail[j] == consumed[j + 1];
          }
          assert forall k | 0 <= k < |tail| :: tail[k] == consumed[k + 1];
        }
      }
      if IsPending(ms, id) {
        WithoutMessageContents(ms, id);
        ConsumeExact(WithoutMessage(ms, id), tail);
      }
    }
  }

  /* ---------- whole operation sequences ---------- */

  datatype Operation =
    | PushOp(receivedAt: nat, envelope: seq<byte>)
    | CommitOp(consumed: seq<nat>, prepared: seq<Prepared>, createdAt: nat)
    | ConfirmOp(id: nat)
    | FormatOp(descriptor: Descriptor)
    | ReopenOp

  function Apply(q: Queues, op: Operation): Queues {
    match op
    case PushOp(receivedAt, envelope) => Push(q, receivedAt, envelope)
    case CommitOp(consumed, prepared, createdAt) =>
      var r := Commit(q, consumed, prepared, createdAt);
      if r.Ok? then r.value else q
    case ConfirmOp(id) => Confirm(q, id)
    case FormatOp(d) => SetFormat(q, d)
    case ReopenOp => q
  }

  function ApplyAll(q: Queues, ops: seq<Operation>): Queues {
    if ops == [] then q else Apply(ApplyAll(q, ops[..|ops| - 1]), ops[|ops| - 1])
  }

  lemma {:induction false} ConsumeKeepsOrder(ms: seq<Message>, consumed: seq<nat>)
    requires forall i, j | 0 <= i < j < |ms| :: ms[i].sequence < ms[j].sequence
    requires Consume(ms, consumed).Ok?
    ensures var rest := Consume(ms, consumed).value;
            && (forall i, j | 0 <= i < j < |rest| :: rest[i].sequence < rest[j].sequence)
            && (forall m | m in rest :: m in ms)
    decreases |consumed|
  {
    if consumed != [] {
      WithoutMessageContents(ms, consumed[0]);
      WithoutMessageOrder(ms, consumed[0]);
      ConsumeKeepsOrder(WithoutMessage(ms, consumed[0]), consumed[1..]);
    }
  }

  lemma {:induction false} WithoutMessageOrder(ms: seq<Message>, id: nat)
    requires forall i, j | 0 <= i < j < |ms| :: ms[i].sequence < ms[j].sequence
    ensures var rest := WithoutMessage(ms, id);
            forall i, j | 0 <= i < j < |rest| :: rest[i].sequence < rest[j].sequence
  {
    if ms != [] {
      WithoutMessageContents(ms[1..], id);
      WithoutMessageOrder(ms[1..], id);
      assert forall m | m in ms[1..] :: ms[0].sequence < m.sequence;
    }
  }

  lemma {:induction false} WithoutBatchContents(bs: seq<Batch>, id: nat)
    requires forall i, j | 0 <= i < j < |bs| :: bs[i].id < bs[j].id
    ensures var rest := WithoutBatch(bs, id);
            && (forall i, j | 0 <= i < j < |rest| :: rest[i].id < rest[j].id)
            && (forall b :: b in rest <==> b in bs && b.id != id)
  {
    if bs != [] {
      WithoutBatchContents(bs[1..], id);
      assert forall b | b in bs[1..] :: bs[0].id < b.id;
    }
  }

  /** Whether everything in `later` was in `earlier` or was numbered after it. */
  ghost predicate OnlyNewIds(earlier: Queues, later: Queues) {
    && earlier.nextSequence <= later.nextSequence && earlier.nextId <= later.nextId
    && (forall m | m in later.pending :: m in earlier.pending || m.sequence >= earlier.nextSequence)
    && (forall b | b in later.ready :: b in earlier.ready || b.id >= earlier.nextId)
  }

  lemma {:induction false} ApplyNumbersOn(q: Queues, op: Operation)
    requires WellFormed(q)
    ensures WellFormed(Apply(q, op)) && OnlyNewIds(q, Apply(q, op))
  {
    match op
    case CommitOp(consumed, prepared, _) =>
      if Consume(q.pending, consumed).Ok? {
        ConsumeKeepsOrder(q.pending, consumed);
      }
    case ConfirmOp(id) => WithoutBatchContents(q.ready, id);
    case _ =>
  }

  /** Over any operation sequence, reopening included, the queues stay ordered and ids are never reused. */
  lemma {:induction false} IdsNeverReused(q: Queues, ops: seq<Operation>)
    requires WellFormed(q)
    ensures WellFormed(ApplyAll(q, ops)) && OnlyNewIds(q, ApplyAll(q, ops))
  {
    if ops != [] {
      IdsNeverReused(q, ops[..|ops| - 1]);
      ApplyNumbersOn(ApplyAll(q, ops[..|ops| - 1]), ops[|ops| - 1]);
    }
  }

  /* ---------- format reconciliation ---------- */

  datatype FormatOutcome =
    | Unchanged
    | Recorded
    | Updated(previous: Descriptor)
    | Incompatible(stored: Descriptor, readyBatches: nat)

  /** What a start with the configured format does to the store. */
  function Reconcile(q: Queues, configured: Descriptor): (r: (FormatOutcome, Queues))
    ensures r.1.(format := q.format) == q
  {
    match q.format
    case Some(stored) =>
      if stored == configured then (Unchanged, q)
      else if |q.ready| > 0 then (Incompatible(stored, |q.ready|), q)
      else (Updated(stored), SetFormat(q, configured))
    case None => (Recorded, SetFormat(q, configured))
  }

  /** Ready batches would be read by another label than the one they were encoded under. */
  predicate Relabels(q: Queues, d: Descriptor) {
    q.format.Some? && q.format.value != d && q.ready != []
  }

  /**
   * A start is refused exactly where it would relabel ready batches; otherwise the configured label
   * is stored afterwards and nothing else has changed.
   */
  lemma {:induction false} ReconcileExactly(q: Queues, d: Descriptor)
    ensures var (outcome, after) := Reconcile(q, d);
            && (outcome.Incompatible? <==> Relabels(q, d))
            && (Relabels(q, d) ==> outcome == Incompatible(q.format.value, |q.ready|))
            && after == if Relabels(q, d) then q else q.(format := Some(d))
    ensures Reconcile(q, d).0 == Unchanged <==> q.format == Some(d)
    ensures Reconcile(q, d).0 == Recorded <==> q.format == None
    ensures Reconcile(q, d).0.Updated? <==> q.format.Some? && q.format.value != d && q.ready == []
    ensures Reconcile(q, d).0.Updated? ==> Reconcile(q, d).0.previous == q.format.value
  {
  }
}
