/**
 * The embedded database behind `BatchStore`: integer-keyed tables of little-endian
 * records and a metadata table of counters and texts. Every operation refines the
 * operation of the same name on `Queues`.
 */
module RedbStore {
  import opened Prelude
  import opened Wire
  import opened Queues

  /* ---------- tables ---------- */

  datatype Row = Row(key: nat, value: seq<byte>)

  /** Rows in key order, as a table is iterated. */
  type Table = seq<Row>

  ghost predicate Sorted(t: Table) {
    forall i, j | 0 <= i < j < |t| :: t[i].key < t[j].key
  }

  predicate HasKey(t: Table, key: nat) {
    exists i | 0 <= i < |t| :: t[i].key == key
  }

  function Insert(t: Table, key: nat, value: seq<byte>): Table {
    if t == [] then [Row(key, value)]
    else if key < t[0].key then [Row(key, value)] + t
    else if key == t[0].key then [Row(key, value)] + t[1..]
    else [t[0]] + Insert(t[1..], key, value)
  }

  function Remove(t: Table, key: nat): Table {
    if t == [] then []
    else if t[0].key == key then Remove(t[1..], key)
    else [t[0]] + Remove(t[1..], key)
  }

  /** A key above all others is appended. */
  lemma {:induction false} InsertLast(t: Table, key: nat, value: seq<byte>)
    requires forall i | 0 <= i < |t| :: t[i].key < key
    ensures Insert(t, key, value) == t + [Row(key, value)]
  {
    if t != [] {
      InsertLast(t[1..], key, value);
      assert t == [t[0]] + t[1..];
    }
  }

  lemma {:induction false} RemoveContents(t: Table, key: nat)
    ensures forall r :: r in Remove(t, key) <==> r in t && r.key != key
    ensures Sorted(t) ==> Sorted(Remove(t, key))
  {
    if t != [] {
      RemoveContents(t[1..], key);
      var rest := Remove(t[1..], key);
      if Sorted(t) {
        assert forall r | r in rest :: r in t[1..];
        assert forall r | r in t[1..] :: t[0].key < r.key;
      }
    }
  }

  /* ---------- records ---------- */

  const TIMESTAMP_LEN := 8
  const BATCH_HEADER_LEN := 12

  function EncodeMessage(receivedAt: nat, envelope: seq<byte>): seq<byte> {
    LittleEndian(receivedAt, TIMESTAMP_LEN) + envelope
  }

  function DecodeMessage(r: Row): (m: Result<Message, StoreError>)
    ensures m.Ok? ==> m.value.sequence == r.key
  {
    if |r.value| < TIMESTAMP_LEN then Err(Corrupt)
    else Ok(Message(r.key, FromLittleEndian(r.value[..TIMESTAMP_LEN]), r.value[TIMESTAMP_LEN..]))
  }

  function EncodeBatchRecord(createdAt: nat, b: Prepared): seq<byte> {
    LittleEndian(createdAt, TIMESTAMP_LEN) + LittleEndian(b.count, 4) + b.payload
  }

  function DecodeBatchRecord(r: Row): (b: Result<Batch, StoreError>)
    ensures b.Ok? ==> b.value.id == r.key
  {
    if |r.value| < BATCH_HEADER_LEN then Err(Corrupt)
    else Ok(Batch(r.key,
                  FromLittleEndian(r.value[..TIMESTAMP_LEN]),
                  FromLittleEndian(r.value[TIMESTAMP_LEN..BATCH_HEADER_LEN]),
                  r.value[BATCH_HEADER_LEN..]))
  }

  lemma {:induction false} MessageRecordRoundTrip(key: nat, receivedAt: nat, envelope: seq<byte>)
    requires receivedAt < U64_LIMIT
    ensures DecodeMessage(Row(key, EncodeMessage(receivedAt, envelope))) == Ok(Message(key, receivedAt, envelope))
  {
    hide LittleEndian, FromLittleEndian;
    WordLimits();
    LittleEndianRoundTrip(receivedAt, TIMESTAMP_LEN);
    var v := EncodeMessage(receivedAt, envelope);
    assert v[..TIMESTAMP_LEN] == LittleEndian(receivedAt, TIMESTAMP_LEN);
    assert v[TIMESTAMP_LEN..] == envelope;
  }

  lemma {:induction false} BatchRecordRoundTrip(key: nat, createdAt: nat, b: Prepared)
    requires createdAt < U64_LIMIT && b.count < U32_LIMIT
    ensures DecodeBatchRecord(Row(key, EncodeBatchRecord(createdAt, b)))
         == Ok(Batch(key, createdAt, b.count, b.payload))
  {
    hide LittleEndian, FromLittleEndian;
    WordLimits();
    LittleEndianRoundTrip(createdAt, TIMESTAMP_LEN);
    LittleEndianRoundTrip(b.count, 4);
    var v := EncodeBatchRecord(createdAt, b);
    assert v[..TIMESTAMP_LEN] == LittleEndian(createdAt, TIMESTAMP_LEN);
    assert v[TIMESTAMP_LEN..BATCH_HEADER_LEN] == LittleEndian(b.count, 4);
    assert v[BATCH_HEADER_LEN..] == b.payload;
  }

  /* ---------- decimal text ---------- */

  function Decimal(n: nat): (t: seq<byte>)
    ensures t != []
  {
    if n < 10 then [48 + n] else Decimal(n / 10) + [48 + n % 10]
  }

  function DigitsValue(t: seq<byte>): Option<nat> {
    if t == [] then Some(0)
    else
      var d := t[|t| - 1];
      match DigitsValue(t[..|t| - 1])
      case None => None
      case Some(v) => if 48 <= d <= 57 then Some(10 * v + (d - 48)) else None
  }

  /** Parsing a `u32`: an optional plus sign, then at least one digit, no overflow. */
  function ParseU32(t: seq<byte>): Option<nat> {
    var digits := if t != [] && t[0] == 43 then t[1..] else t;
    if digits == [] then None
    else
      match DigitsValue(digits)
      case None => None
      case Some(v) => if v < U32_LIMIT then Some(v) else None
  }

  lemma {:induction false} DecimalDigits(n: nat)
    ensures DigitsValue(Decimal(n)) == Some(n)
    ensures Decimal(n)[0] != 43
  {
    if n >= 10 {
      DecimalDigits(n / 10);
      assert Decimal(n)[..|Decimal(n)| - 1] == Decimal(n / 10);
    } else {
      assert Decimal(n)[..0] == [];
      assert DigitsValue(Decimal(n)[..0]) == Some(0);
    }
  }

  lemma {:induction false} DecimalRoundTrip(n: nat)
    requires n < U32_LIMIT
    ensures ParseU32(Decimal(n)) == Some(n)
  {
    DecimalDigits(n);
  }

  /* ---------- metadata ---------- */

  datatype Key =
    | NextSequence
    | NextBatchId
    | PayloadSchema
    | PayloadSchemaVersion
    | PayloadEncoding
    | PayloadCompression

  type Metadata = map<Key, seq<byte>>

  function ReadCounter(meta: Metadata, key: Key): Result<nat, StoreError> {
    if key !in meta then Ok(0)
    else if |meta[key]| != 8 then Err(Corrupt)
    else Ok(FromLittleEndian(meta[key]))
  }

  function ReadFormat(meta: Metadata): Result<Option<Descriptor>, StoreError> {
    if !(PayloadSchema in meta && PayloadSchemaVersion in meta && PayloadEncoding in meta && PayloadCompression in meta)
    then Ok(None)
    else
      match ParseU32(meta[PayloadSchemaVersion])
      case None => Err(Corrupt)
      case Some(version) =>
        Ok(Some(Descriptor(meta[PayloadSchema], version, meta[PayloadEncoding], meta[PayloadCompression])))
  }

  function WriteFormat(meta: Metadata, d: Descriptor): Metadata {
    meta[PayloadSchema := d.schema][PayloadSchemaVersion := Decimal(d.version)]
        [PayloadEncoding := d.encoding][PayloadCompression := d.compression]
  }

  /** A stored descriptor reads back equal, including its decimal version text. */
  lemma {:induction false} FormatRoundTrip(meta: Metadata, d: Descriptor)
    requires d.version < U32_LIMIT
    ensures ReadFormat(WriteFormat(meta, d)) == Ok(Some(d))
    ensures ReadCounter(WriteFormat(meta, d), NextSequence) == ReadCounter(meta, NextSequence)
    ensures ReadCounter(WriteFormat(meta, d), NextBatchId) == ReadCounter(meta, NextBatchId)
  {
    hide ParseU32, Decimal;
    DecimalRoundTrip(d.version);
  }

  /* ---------- abstraction ---------- */

  ghost predicate Readable(pending: Table, ready: Table, meta: Metadata) {
    && (forall r | r in pending :: DecodeMessage(r).Ok?)
    && (forall r | r in ready :: DecodeBatchRecord(r).Ok?)
    && ReadCounter(meta, NextSequence).Ok? && ReadCounter(meta, NextBatchId).Ok?
    && ReadFormat(meta).Ok?
  }

  /** The rows are in order and below the counters that number them. */
  ghost predicate Consistent(pending: Table, ready: Table, meta: Metadata) {
    && Readable(pending, ready, meta)
    && Sorted(pending) && Sorted(ready)
    && (forall r | r in pending :: r.key < ReadCounter(meta, NextSequence).value)
    && (forall r | r in ready :: r.key < ReadCounter(meta, NextBatchId).value)
  }

  ghost function Messages(t: Table): (ms: seq<Message>)
    requires forall r | r in t :: DecodeMessage(r).Ok?
    ensures |ms| == |t|
  {
    seq(|t|, i requires 0 <= i < |t| => DecodeMessage(t[i]).value)
  }

  ghost function Batches(t: Table): (bs: seq<Batch>)
    requires forall r | r in t :: DecodeBatchRecord(r).Ok?
    ensures |bs| == |t|
  {
    seq(|t|, i requires 0 <= i < |t| => DecodeBatchRecord(t[i]).value)
  }

  ghost function View(pending: Table, ready: Table, meta: Metadata): Queues
    requires Readable(pending, ready, meta)
  {
    Queues(Messages(pending), Batches(ready), ReadCounter(meta, NextSequence).value,
           ReadCounter(meta, NextBatchId).value, ReadFormat(meta).value)
  }

  lemma {:induction false} ViewWellFormed(pending: Table, ready: Table, meta: Metadata)
    requires Consistent(pending, ready, meta)
    ensures WellFormed(View(pending, ready, meta))
  {
  }

  lemma {:induction false} MessagesCons(r: Row, t: Table)
    requires DecodeMessage(r).Ok? && forall x | x in t :: DecodeMessage(x).Ok?
    ensures forall x | x in [r] + t :: DecodeMessage(x).Ok?
    ensures Messages([r] + t) == [DecodeMessage(r).value] + Messages(t)
  {
    hide DecodeMessage;
  }

  /** Removing a row removes exactly the message it holds. */
  lemma {:induction false} RemoveMessage(t: Table, key: nat)
    requires forall r | r in t :: DecodeMessage(r).Ok?
    ensures forall r | r in Remove(t, key) :: DecodeMessage(r).Ok?
    ensures Messages(Remove(t, key)) == WithoutMessage(Messages(t), key)
  {
    hide DecodeMessage, Messages;
    if t != [] {
      var head, tail := t[0], t[1..];
      assert t == [head] + tail && forall r | r in tail :: r in t;
      RemoveMessage(tail, key);
      MessagesCons(head, tail);
      assert Messages(t)[1..] == Messages(tail);
      if head.key != key {
        MessagesCons(head, Remove(tail, key));
      }
    }
  }

  lemma {:induction false} BatchesCons(r: Row, t: Table)
    requires DecodeBatchRecord(r).Ok? && forall x | x in t :: DecodeBatchRecord(x).Ok?
    ensures forall x | x in [r] + t :: DecodeBatchRecord(x).Ok?
    ensures Batches([r] + t) == [DecodeBatchRecord(r).value] + Batches(t)
  {
    hide DecodeBatchRecord;
  }

  lemma {:induction false} RemoveBatch(t: Table, key: nat)
    requires forall r | r in t :: DecodeBatchRecord(r).Ok?
    ensures forall r | r in Remove(t, key) :: DecodeBatchRecord(r).Ok?
    ensures Batches(Remove(t, key)) == WithoutBatch(Batches(t), key)
  {
    hide DecodeBatchRecord, Batches;
    if t != [] {
      var head, tail := t[0], t[1..];
      assert t == [head] + tail && forall r | r in tail :: r in t;
      RemoveBatch(tail, key);
      BatchesCons(head, tail);
      assert Batches(t)[1..] == Batches(tail);
      if head.key != key {
        BatchesCons(head, Remove(tail, key));
      }
    }
  }

  lemma {:induction false} KeyIsPending(t: Table, key: nat)
    requires forall r | r in t :: DecodeMessage(r).Ok?
    ensures HasKey(t, key) <==> IsPending(Messages(t), key)
  {
    hide DecodeMessage;
    if HasKey(t, key) {
      var i :| 0 <= i < |t| && t[i].key == key;
      assert Messages(t)[i].sequence == key;
    }
    if IsPending(Messages(t), key) {
      var i :| 0 <= i < |t| && Messages(t)[i].sequence == key;
      assert t[i].key == key;
    }
  }

  /** The first rows of a consistent store can be read and hold its first elements. */
  lemma {:induction false} TakeReadable(pending: Table, ready: Table, meta: Metadata, limit: nat)
    requires Consistent(pending, ready, meta)
    ensures forall row | row in Take(pending, limit) :: DecodeMessage(row).Ok?
    ensures forall row | row in Take(ready, limit) :: DecodeBatchRecord(row).Ok?
    ensures Messages(Take(pending, limit)) == Take(View(pending, ready, meta).pending, limit)
    ensures Batches(Take(ready, limit)) == Take(View(pending, ready, meta).ready, limit)
  {
    hide DecodeMessage, DecodeBatchRecord;
  }

  /** The wall clock in milliseconds. */
  method Now() returns (t: nat)
    ensures t < U64_LIMIT
  {
    t := *;
    if t >= U64_LIMIT {
      t := 0;
    }
  }

  /** The value of a counter and the metadata with its successor. */
  method NextCounter(meta: Metadata, key: Key) returns (r: Result<(nat, Metadata), StoreError>)
    requires key.NextSequence? || key.NextBatchId?
    requires ReadCounter(meta, key).Ok? ==> ReadCounter(meta, key).value + 1 < U64_LIMIT
    ensures r.Ok? <==> ReadCounter(meta, key).Ok?
    ensures r.Ok? ==> var (current, next) := r.value;
                      && current == ReadCounter(meta, key).value
                      && ReadCounter(next, key) == Ok(current + 1)
                      && ReadFormat(next) == ReadFormat(meta)
                      && forall other | other != key :: ReadCounter(next, other) == ReadCounter(meta, other)
  {
    var current := 0;
    if key in meta {
      if |meta[key]| != 8 {
        return Err(Corrupt);
      }
      current := FromLittleEndian(meta[key]);
    }
    WordLimits();
    LittleEndianRoundTrip(current + 1, 8);
    r := Ok((current, meta[key := LittleEndian(current + 1, 8)]));
  }

  class Store {
    var pending: Table
    var ready: Table
    var meta: Metadata

    ghost predicate Valid()
      reads this
    {
      Consistent(pending, ready, meta)
    }

    ghost function Contents(): Queues
      requires Valid()
      reads this
    {
      View(pending, ready, meta)
    }

    /** Open the database holding these tables; a new file holds none. */
    constructor Open(pending: Table, ready: Table, meta: Metadata)
      requires Consistent(pending, ready, meta)
      ensures Valid() && Contents() == View(pending, ready, meta)
    {
      this.pending, this.ready, this.meta := pending, ready, meta;
    }

    /** Whether the sequence counter can still be incremented. */
    predicate NextFree()
      requires Valid()
      reads this
      ensures NextFree() <==> Contents().nextSequence + 1 < U64_LIMIT
    {
      ReadCounter(meta, NextSequence).value + 1 < U64_LIMIT
    }

    /** Whether the batch counter has room for `n` batches. */
    predicate RoomFor(n: nat)
      requires Valid()
      reads this
      ensures RoomFor(n) <==> Contents().nextId + n < U64_LIMIT
    {
      ReadCounter(meta, NextBatchId).value + n < U64_LIMIT
    }

    method PushMessage(receivedAt: nat, envelope: seq<byte>, writable: bool) returns (r: Result<nat, StoreError>)
      requires Valid() && receivedAt < U64_LIMIT && Contents().nextSequence + 1 < U64_LIMIT
      modifies this
      ensures Valid()
      ensures r == if writable then Ok(old(Contents()).nextSequence) else Err(Database)
      ensures r.Ok? ==> Contents() == Push(old(Contents()), receivedAt, envelope)
      ensures r.Err? ==> unchanged(this)
    {
      if !writable {
        return Err(Database);
      }
      hide DecodeMessage, EncodeMessage, ReadFormat;
      var counted := NextCounter(meta, NextSequence);
      var (sequence, next) := counted.value;
      ghost var before := Messages(pending);
      InsertLast(pending, sequence, EncodeMessage(receivedAt, envelope));
      MessageRecordRoundTrip(sequence, receivedAt, envelope);
      pending := Insert(pending, sequence, EncodeMessage(receivedAt, envelope));
      meta := next;
      assert Messages(pending) == before + [Message(sequence, receivedAt, envelope)];
      r := Ok(sequence);
    }

    /** The messages of the first rows, at most `limit` of them. */
    method PendingMessages(limit: nat, readable: bool) returns (r: Result<seq<Message>, StoreError>)
      ensures !readable <==> r == Err(Database)
      ensures r == Err(Corrupt) <==> readable && exists row | row in Take(pending, limit) :: DecodeMessage(row).Err?
      ensures r.Ok? || r == Err(Database) || r == Err(Corrupt)
      ensures r.Ok? ==> forall row | row in Take(pending, limit) :: DecodeMessage(row).Ok?
      ensures r.Ok? ==> r.value == Messages(Take(pending, limit))
      ensures Valid() && readable ==> r == Ok(Take(Contents().pending, limit))
    {
      if !readable {
        return Err(Database);
      }
      hide DecodeMessage, Consistent;
      var rows := Take(pending, limit);
      if Valid() {
        TakeReadable(pending, ready, meta, limit);
      }
      var out := [];
      while |out| < |rows|
        invariant |out| <= |rows|
        invariant forall row | row in rows[..|out|] :: DecodeMessage(row).Ok?
        invariant out == Messages(rows[..|out|])
      {
        var decoded := DecodeMessage(rows[|out|]);
        if decoded.Err? {
          assert rows[|out|] in rows;
          return Err(decoded.error);
        }
        assert rows[..|out| + 1] == rows[..|out|] + [rows[|out|]];
        out := out + [decoded.value];
      }
      assert rows[..|rows|] == rows;
      r := Ok(out);
    }

    /** The batches of the first rows, at most `limit` of them. */
    method ReadyBatches(limit: nat, readable: bool) returns (r: Result<seq<Batch>, StoreError>)
      ensures !readable <==> r == Err(Database)
      ensures r == Err(Corrupt) <==> readable && exists row | row in Take(ready, limit) :: DecodeBatchRecord(row).Err?
      ensures r.Ok? || r == Err(Database) || r == Err(Corrupt)
      ensures r.Ok? ==> forall row | row in Take(ready, limit) :: DecodeBatchRecord(row).Ok?
      ensures r.Ok? ==> r.value == Batches(Take(ready, limit))
      ensures Valid() && readable ==> r == Ok(Take(Contents().ready, limit))
    {
      if !readable {
        return Err(Database);
      }
      hide DecodeBatchRecord, Consistent;
      var rows := Take(ready, limit);
      if Valid() {
        TakeReadable(pending, ready, meta, limit);
      }
      var out := [];
      while |out| < |rows|
        invariant |out| <= |rows|
        invariant forall row | row in rows[..|out|] :: DecodeBatchRecord(row).Ok?
        invariant out == Batches(rows[..|out|])
      {
        var decoded := DecodeBatchRecord(rows[|out|]);
        if decoded.Err? {
          assert rows[|out|] in rows;
          return Err(decoded.error);
        }
        assert rows[..|out| + 1] == rows[..|out|] + [rows[|out|]];
        out := out + [decoded.value];
      }
      assert rows[..|rows|] == rows;
      r := Ok(out);
    }

    method ConfirmBatch(id: nat, writable: bool) returns (r: Result<(), StoreError>)
      requires Valid()
      modifies this
      ensures Valid() && r == if writable then Ok(()) else Err(Database)
      ensures r.Ok? ==> Contents() == Confirm(old(Contents()), id)
      ensures r.Err? ==> unchanged(this)
    {
      if !writable {
        return Err(Database);
      }
      RemoveContents(ready, id);
      RemoveBatch(ready, id);
      ready := Remove(ready, id);
      r := Ok(());
    }

    /** The stored format label; `readable` says whether the disk lets the reading through. */
    method Format(readable: bool) returns (r: Result<Option<Descriptor>, StoreError>)
      requires Valid()
      ensures r == if readable then Ok(Contents().format) else Err(Database)
    {
      if !readable {
        return Err(Database);
      }
      r := ReadFormat(meta);
    }

    /** Store the format label; `writable` says whether the disk lets the transaction through. */
    method SetFormatDescriptor(d: Descriptor, writable: bool) returns (r: Result<(), StoreError>)
      requires Valid() && d.version < U32_LIMIT
      modifies this
      ensures Valid() && r == if writable then Ok(()) else Err(Database)
      ensures r.Ok? ==> Contents() == SetFormat(old(Contents()), d)
      ensures r.Err? ==> unchanged(this)
    {
      if !writable {
        return Err(Database);
      }
      FormatRoundTrip(meta, d);
      meta := WriteFormat(meta, d);
      r := Ok(());
    }

    /** Replace `consumed` by `prepared` in one transaction. */
    method CommitBatches(consumed: seq<nat>, prepared: seq<Prepared>, writable: bool)
      returns (r: Result<seq<nat>, StoreError>, createdAt: nat)
      requires Valid() && Contents().nextId + |prepared| < U64_LIMIT
      requires forall b | b in prepared :: b.count < U32_LIMIT
      modifies this
      ensures Valid()
      ensures r.Ok? ==> && Commit(old(Contents()), consumed, prepared, createdAt) == Ok(Contents())
                        && IdsFrom(r.value, old(Contents()).nextId, |prepared|)
      ensures r.Err? ==> unchanged(this)
      ensures r == Err(Database) <==> !writable
      ensures writable ==> (r.Ok? <==> Commit(old(Contents()), consumed, prepared, createdAt).Ok?)
      ensures writable && r.Err? ==> Commit(old(Contents()), consumed, prepared, createdAt) == Err(r.error)
    {
      createdAt := Now();
      if !writable {
        return Err(Database), createdAt;
      }
      var taken := ConsumeRows(pending, consumed);
      if taken.Err? {
        return Err(taken.error), createdAt;
      }
      var grown, counters, ids := AppendBatches(ready, meta, prepared, createdAt);
      pending, ready, meta := taken.value, grown, counters;
      r := Ok(ids);
    }
  }

  /** Take the consumed rows out; the first one that is missing aborts. */
  method ConsumeRows(pending: Table, consumed: seq<nat>) returns (r: Result<Table, StoreError>)
    requires Sorted(pending) && forall row | row in pending :: DecodeMessage(row).Ok?
    ensures r.Err? ==> Consume(Messages(pending), consumed) == Err(r.error) && r.error.NotPending?
    ensures r.Ok? ==> && Sorted(r.value) && (forall row | row in r.value :: row in pending)
                      && Consume(Messages(pending), consumed) == Ok(Messages(r.value))
  {
    hide DecodeMessage;
    var rest := pending;
    for i := 0 to |consumed|
      invariant Sorted(rest) && forall row | row in rest :: row in pending
      invariant Consume(Messages(pending), consumed) == Consume(Messages(rest), consumed[i..])
    {
      RemoveMessage(rest, consumed[i]);
      KeyIsPending(rest, consumed[i]);
      if !HasKey(rest, consumed[i]) {
        return Err(NotPending(consumed[i]));
      }
      RemoveContents(rest, consumed[i]);
      assert consumed[i..][1..] == consumed[i + 1..];
      rest := Remove(rest, consumed[i]);
    }
    r := Ok(rest);
  }

  ghost predicate IdsFrom(ids: seq<nat>, first: nat, count: nat) {
    |ids| == count && forall i | 0 <= i < count :: ids[i] == first + i
  }

  /** Rows in order, readable, with keys below `limit`. */
  ghost predicate RowsBelow(t: Table, limit: nat) {
    Sorted(t) && forall row | row in t :: DecodeBatchRecord(row).Ok? && row.key < limit
  }

  ghost predicate RowsHold(t: Table, bs: seq<Batch>) {
    (forall row | row in t :: DecodeBatchRecord(row).Ok?) && Batches(t) == bs
  }

  lemma {:induction false} RowsBelowIs(t: Table, limit: nat)
    ensures RowsBelow(t, limit) <==> Sorted(t) && forall row | row in t :: DecodeBatchRecord(row).Ok? && row.key < limit
  {
  }

  lemma {:induction false} AppendRow(t: Table, id: nat, createdAt: nat, b: Prepared, bs: seq<Batch>)
    requires RowsBelow(t, id) && RowsHold(t, bs) && createdAt < U64_LIMIT && b.count < U32_LIMIT
    ensures var t' := Insert(t, id, EncodeBatchRecord(createdAt, b));
            RowsBelow(t', id + 1) && RowsHold(t', bs + [Batch(id, createdAt, b.count, b.payload)])
  {
    hide DecodeBatchRecord, EncodeBatchRecord, Insert;
    var row := Row(id, EncodeBatchRecord(createdAt, b));
    InsertLast(t, id, row.value);
    BatchRecordRoundTrip(id, createdAt, b);
    assert forall r | r in t + [row] :: r in t || r == row;
    assert Batches(t + [row]) == Batches(t) + [Batch(id, createdAt, b.count, b.payload)];
  }

  lemma {:induction false} NextNumbered(prepared: seq<Prepared>, first: nat, createdAt: nat, i: nat)
    requires i < |prepared|
    ensures Numbered(prepared, first, createdAt)[i]
         == Batch(first + i, createdAt, prepared[i].count, prepared[i].payload)
  {
  }

  /** Number the prepared batches and append their records. */
  method AppendBatches(ready: Table, meta: Metadata, prepared: seq<Prepared>, createdAt: nat)
    returns (grown: Table, counters: Metadata, ids: seq<nat>)
    requires ReadCounter(meta, NextBatchId).Ok? && ReadCounter(meta, NextBatchId).value + |prepared| < U64_LIMIT
    requires createdAt < U64_LIMIT && forall b | b in prepared :: b.count < U32_LIMIT
    requires Sorted(ready) && forall row | row in ready :: row.key < ReadCounter(meta, NextBatchId).value
    requires forall row | row in ready :: DecodeBatchRecord(row).Ok?
    ensures Sorted(grown) && forall row | row in grown :: DecodeBatchRecord(row).Ok?
    ensures Batches(grown) == Batches(ready) + Numbered(prepared, ReadCounter(meta, NextBatchId).value, createdAt)
    ensures ReadCounter(counters, NextBatchId) == Ok(ReadCounter(meta, NextBatchId).value + |prepared|)
    ensures forall row | row in grown :: row.key < ReadCounter(counters, NextBatchId).value
    ensures ReadCounter(counters, NextSequence) == ReadCounter(meta, NextSequence)
    ensures ReadFormat(counters) == ReadFormat(meta)
    ensures IdsFrom(ids, ReadCounter(meta, NextBatchId).value, |prepared|)
  {
    hide DecodeBatchRecord, ReadCounter, ReadFormat, Batches, RowsBelow, Insert, EncodeBatchRecord, Numbered;
    RowsBelowIs(ready, ReadCounter(meta, NextBatchId).value);
    grown, counters, ids := ready, meta, [];
    ghost var first := ReadCounter(meta, NextBatchId).value;
    for i := 0 to |prepared|
      invariant RowsBelow(grown, first + i)
      invariant ReadCounter(counters, NextBatchId) == Ok(first + i)
      invariant ReadCounter(counters, NextSequence) == ReadCounter(meta, NextSequence)
      invariant ReadFormat(counters) == ReadFormat(meta)
      invariant RowsHold(grown, Batches(ready) + Numbered(prepared, first, createdAt)[..i])
      invariant IdsFrom(ids, first, i)
    {
      var counted := NextCounter(counters, NextBatchId);
      var (id, next) := counted.value;
      AppendRow(grown, id, createdAt, prepared[i], Batches(ready) + Numbered(prepared, first, createdAt)[..i]);
      NextNumbered(prepared, first, createdAt, i);
      grown := Insert(grown, id, EncodeBatchRecord(createdAt, prepared[i]));
      counters := next;
      ids := ids + [id];
      assert Batches(ready) + Numbered(prepared, first, createdAt)[..i + 1]
          == Batches(ready) + Numbered(prepared, first, createdAt)[..i] + [Numbered(prepared, first, createdAt)[i]];
    }
    RowsBelowIs(grown, first + |prepared|);
    assert Numbered(prepared, first, createdAt)[..|prepared|] == Numbered(prepared, first, createdAt);
  }

  /** Settle the format label at start: keep it, write it, or refuse to relabel ready batches. */
  method ReconcileFormat(store: Store, configured: Descriptor, readable: bool, writable: bool)
    returns (r: Result<FormatOutcome, StoreError>)
    requires store.Valid() && configured.version < U32_LIMIT
    modifies store
    ensures store.Valid()
    ensures var q := old(store.Contents());
            if !readable || (!writable && q.format != Some(configured) && !Relabels(q, configured))
            then r == Err(Database) && store.Contents() == q
            else r == Ok(Reconcile(q, configured).0) && store.Contents() == Reconcile(q, configured).1
    ensures var q := old(store.Contents());
            r.Ok? ==> (r.value.Incompatible? <==> Relabels(q, configured))
                      && store.Contents() == if Relabels(q, configured) then q else q.(format := Some(configured))
  {
    ReconcileExactly(store.Contents(), configured);
    var read := store.Format(readable);
    if read.Err? {
      return Err(read.error);
    }
    match read.value {
      case Some(stored) =>
        if stored == configured {
          return Ok(Unchanged);
        }
        if |store.ready| > 0 {
          return Ok(Incompatible(stored, |store.ready|));
        }
        var written := store.SetFormatDescriptor(configured, writable);
        return if written.Ok? then Ok(Updated(stored)) else Err(written.error);
      case None =>
        var written := store.SetFormatDescriptor(configured, writable);
        return if written.Ok? then Ok(Recorded) else Err(written.error);
    }
  }
}
