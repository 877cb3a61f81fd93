/**
 * What the batcher puts into a batch: selection of a prefix of the pending
 * queue, encoding, and recursive splitting of oversized payloads.
 */
module Packing {
  import opened Prelude
  import opened Wire
  import opened Queues

  /* ---------- configuration ---------- */

  datatype Compression = Uncompressed | Zstd

  datatype Config = Config(maxAgeSecs: nat, maxSize: nat, maxMessages: nat, compression: Compression)

  /** `libcps::MAX_PAYLOAD_SIZE`. */
  const MAX_PAYLOAD_SIZE := 8192

  predicate ValidConfig(c: Config) {
    c.maxAgeSecs != 0 && c.maxMessages != 0 && c.maxSize != 0 && c.maxSize <= MAX_PAYLOAD_SIZE
  }

  /** The configuration in use when nothing is configured. */
  const DEFAULT_CONFIG := Config(30, 8192, 100, Zstd)

  /** The default is accepted, and a size limit is unless a payload within it could exceed 8192 bytes or none fits. */
  lemma {:induction false} LimitsExactly(c: Config)
    ensures ValidConfig(DEFAULT_CONFIG)
    ensures ValidConfig(DEFAULT_CONFIG.(maxSize := c.maxSize))
       <==> c.maxSize > 0 && forall payload: seq<byte> | |payload| <= c.maxSize :: |payload| <= 8192
    ensures ValidConfig(c) ==> c.maxAgeSecs > 0 && c.maxMessages > 0
    ensures c.maxAgeSecs > 0 && c.maxMessages > 0 ==>
              (ValidConfig(c) <==> ValidConfig(DEFAULT_CONFIG.(maxSize := c.maxSize)))
  {
    if c.maxSize > 8192 {
      assert |seq(c.maxSize, i => 0 as byte)| == c.maxSize;
    }
  }

  /** A pending message whose bytes decode, with its sequence number. */
  datatype Decoded = Decoded(id: nat, envelope: Envelope)

  function Envelopes(ds: seq<Decoded>): (es: seq<Envelope>)
    ensures |es| == |ds|
  {
    seq(|ds|, i requires 0 <= i < |ds| => ds[i].envelope)
  }

  /**
   * The payload format: how pending bytes are decoded, how a group of messages becomes a
   * payload (its serialized size and final bytes, or `None` when that fails), how a reader
   * gets the envelopes back, and how the format is labelled. `Encoding` gives the real one.
   */
  datatype Format = Format(
    decode: seq<byte> -> Option<Envelope>,
    encode: (Compression, seq<Decoded>) -> Option<(nat, seq<byte>)>,
    read: (Compression, seq<byte>) -> Option<seq<Envelope>>,
    describe: Compression -> Descriptor)

  /** A reader recovers exactly the envelopes that went into a payload. */
  ghost predicate RoundTrips(f: Format) {
    forall k: Compression, ds: seq<Decoded> ::
      f.encode(k, ds).Some? ==> f.read(k, f.encode(k, ds).value.1) == Some(Envelopes(ds))
  }

  /* ---------- splitting ---------- */

  predicate Encodes(c: Config, f: Format, ds: seq<Decoded>) {
    f.encode(c.compression, ds).Some?
  }

  predicate Fits(c: Config, f: Format, ds: seq<Decoded>) {
    Encodes(c, f, ds) && |f.encode(c.compression, ds).value.1| <= c.maxSize
  }

  /**
   * The groups that `pack_into` ends with, in message order: each one either
   * fits or is a single message. `None` if some encoding on the way failed.
   */
  function Leaves(c: Config, f: Format, ds: seq<Decoded>): Option<seq<seq<Decoded>>>
    requires ds != []
    decreases |ds|
  {
    if !Encodes(c, f, ds) then None
    else if Fits(c, f, ds) || |ds| == 1 then Some([ds])
    else
      var half := |ds| / 2;
      match (Leaves(c, f, ds[..half]), Leaves(c, f, ds[half..]))
      case (Some(left), Some(right)) => Some(left + right)
      case _ => None
  }

  datatype TooLarge = TooLarge(message: nat, serialized: nat, payload: nat, max: nat, compression: Compression)

  function PreparedOf(c: Config, f: Format, leaf: seq<Decoded>): Prepared
    requires Encodes(c, f, leaf)
  {
    Prepared(|leaf| % U32_LIMIT, f.encode(c.compression, leaf).value.1)
  }

  function RejectOf(c: Config, f: Format, leaf: seq<Decoded>): TooLarge
    requires leaf != [] && Encodes(c, f, leaf)
  {
    var (serialized, payload) := f.encode(c.compression, leaf).value;
    TooLarge(leaf[0].id, serialized, |payload|, c.maxSize, c.compression)
  }

  ghost predicate LeavesOk(c: Config, f: Format, leaves: seq<seq<Decoded>>) {
    forall i | 0 <= i < |leaves| ::
      && leaves[i] != []
      && Encodes(c, f, leaves[i])
      && (Fits(c, f, leaves[i]) || |leaves[i]| == 1)
  }

  ghost function FittingLeaves(c: Config, f: Format, leaves: seq<seq<Decoded>>): seq<seq<Decoded>> {
    if leaves == [] then []
    else (if Fits(c, f, leaves[0]) then [leaves[0]] else []) + FittingLeaves(c, f, leaves[1..])
  }

  ghost function BatchesOf(c: Config, f: Format, leaves: seq<seq<Decoded>>): seq<Prepared>
    requires LeavesOk(c, f, leaves)
  {
    if leaves == [] then []
    else (if Fits(c, f, leaves[0]) then [PreparedOf(c, f, leaves[0])] else []) + BatchesOf(c, f, leaves[1..])
  }

  ghost function RejectsOf(c: Config, f: Format, leaves: seq<seq<Decoded>>): seq<TooLarge>
    requires LeavesOk(c, f, leaves)
  {
    if leaves == [] then []
    else (if Fits(c, f, leaves[0]) then [] else [RejectOf(c, f, leaves[0])]) + RejectsOf(c, f, leaves[1..])
  }

  /** Splitting partitions the input: nothing is lost, duplicated or reordered. */
  lemma {:induction false} LeavesPartition(c: Config, f: Format, ds: seq<Decoded>)
    requires ds != [] && Leaves(c, f, ds).Some?
    ensures var leaves := Leaves(c, f, ds).value;
            && leaves != []
            && LeavesOk(c, f, leaves)
            && Flatten(leaves) == ds
    decreases |ds|
  {
    if Fits(c, f, ds) || |ds| == 1 {
      assert Flatten([ds]) == ds + Flatten<Decoded>([]);
    } else {
      var half := |ds| / 2;
      LeavesPartition(c, f, ds[..half]);
      LeavesPartition(c, f, ds[half..]);
      FlattenAppend(Leaves(c, f, ds[..half]).value, Leaves(c, f, ds[half..]).value);
      assert ds[..half] + ds[half..] == ds;
    }
  }

  lemma {:induction false} OutputsAppend(c: Config, f: Format, a: seq<seq<Decoded>>, b: seq<seq<Decoded>>)
    requires LeavesOk(c, f, a) && LeavesOk(c, f, b)
    ensures LeavesOk(c, f, a + b)
    ensures BatchesOf(c, f, a + b) == BatchesOf(c, f, a) + BatchesOf(c, f, b)
    ensures RejectsOf(c, f, a + b) == RejectsOf(c, f, a) + RejectsOf(c, f, b)
  {
    if a == [] {
      assert a + b == b;
    } else {
      assert (a + b)[1..] == a[1..] + b;
      OutputsAppend(c, f, a[1..], b);
    }
  }

  /** Every leaf becomes a batch or a rejection. */
  lemma {:induction false} OutputsCount(c: Config, f: Format, leaves: seq<seq<Decoded>>)
    requires LeavesOk(c, f, leaves)
    ensures |BatchesOf(c, f, leaves)| + |RejectsOf(c, f, leaves)| == |leaves|
    ensures |BatchesOf(c, f, leaves)| == |FittingLeaves(c, f, leaves)|
  {
    if leaves != [] {
      OutputsCount(c, f, leaves[1..]);
    }
  }

  /** Batch `i` is built from fitting leaf `i`. */
  lemma {:induction false} BatchOfLeaf(c: Config, f: Format, leaves: seq<seq<Decoded>>, i: nat)
    requires LeavesOk(c, f, leaves) && i < |FittingLeaves(c, f, leaves)|
    ensures i < |BatchesOf(c, f, leaves)|
    ensures var leaf := FittingLeaves(c, f, leaves)[i];
            leaf != [] && Fits(c, f, leaf) && BatchesOf(c, f, leaves)[i] == PreparedOf(c, f, leaf)
  {
    OutputsCount(c, f, leaves);
    if Fits(c, f, leaves[0]) {
      if i > 0 {
        BatchOfLeaf(c, f, leaves[1..], i - 1);
      }
    } else {
      BatchOfLeaf(c, f, leaves[1..], i);
    }
  }

  /* ---------- meaning of the output ---------- */

  ghost function RejectedIds(rs: seq<TooLarge>): set<nat> {
    set i | 0 <= i < |rs| :: rs[i].message
  }

  /** `ds` without the messages whose id is in `dropped`. */
  ghost function Keep(ds: seq<Decoded>, dropped: set<nat>): seq<Decoded> {
    if ds == [] then []
    else (if ds[0].id in dropped then [] else [ds[0]]) + Keep(ds[1..], dropped)
  }

  ghost predicate DistinctIds(ds: seq<Decoded>) {
    forall i, j | 0 <= i < j < |ds| :: ds[i].id != ds[j].id
  }

  lemma {:induction false} KeepAppend(a: seq<Decoded>, b: seq<Decoded>, dropped: set<nat>)
    ensures Keep(a + b, dropped) == Keep(a, dropped) + Keep(b, dropped)
  {
    if a == [] {
      assert a + b == b;
    } else {
      assert (a + b)[1..] == a[1..] + b;
      KeepAppend(a[1..], b, dropped);
    }
  }

  /** Dropping ids that do not occur changes nothing. */
  lemma {:induction false} KeepIrrelevant(ds: seq<Decoded>, dropped: set<nat>, more: set<nat>)
    requires forall d | d in ds :: d.id !in more
    ensures Keep(ds, dropped + more) == Keep(ds, dropped)
  {
    if ds != [] {
      KeepIrrelevant(ds[1..], dropped, more);
    }
  }

  ghost function Ids(ds: seq<Decoded>): set<nat> {
    set i | 0 <= i < |ds| :: ds[i].id
  }

  lemma {:induction false} DistinctSplit(a: seq<Decoded>, b: seq<Decoded>)
    requires DistinctIds(a + b)
    ensures DistinctIds(a) && DistinctIds(b) && Ids(a) !! Ids(b)
  {
    var s := a + b;
    assert forall i | 0 <= i < |a| :: s[i] == a[i];
    assert forall j | 0 <= j < |b| :: s[|a| + j] == b[j];
  }

  /** A rejected id belongs to a single-message leaf that does not fit. */
  lemma {:induction false} RejectedIsLeaf(c: Config, f: Format, leaves: seq<seq<Decoded>>, id: nat)
    requires LeavesOk(c, f, leaves) && id in RejectedIds(RejectsOf(c, f, leaves))
    ensures exists d :: d in Flatten(leaves) && d.id == id && Encodes(c, f, [d]) && !Fits(c, f, [d])
  {
    var rs := RejectsOf(c, f, leaves);
    var k :| 0 <= k < |rs| && rs[k].message == id;
    var tail := RejectsOf(c, f, leaves[1..]);
    if !Fits(c, f, leaves[0]) && k == 0 {
      assert leaves[0] == [leaves[0][0]];
      assert leaves[0][0] in Flatten(leaves);
    } else {
      var j := if Fits(c, f, leaves[0]) then k else k - 1;
      assert rs[k] == tail[j];
      RejectedIsLeaf(c, f, leaves[1..], id);
    }
  }

  /** A first leaf that does not fit adds its message to the rejected ones. */
  lemma {:induction false} RejectedIdsStep(c: Config, f: Format, leaves: seq<seq<Decoded>>)
    requires leaves != [] && LeavesOk(c, f, leaves)
    ensures RejectedIds(RejectsOf(c, f, leaves))
         == RejectedIds(RejectsOf(c, f, leaves[1..])) + (if Fits(c, f, leaves[0]) then {} else {leaves[0][0].id})
  {
    var rs, ts := RejectsOf(c, f, leaves), RejectsOf(c, f, leaves[1..]);
    if !Fits(c, f, leaves[0]) {
      assert rs == [RejectOf(c, f, leaves[0])] + ts;
      forall x | x in RejectedIds(ts) ensures x in RejectedIds(rs) {
        var i :| 0 <= i < |ts| && ts[i].message == x;
        assert rs[i + 1].message == x;
      }
      assert rs[0].message in RejectedIds(rs);
    } else {
      assert rs == ts;
    }
  }

  lemma {:induction false} RejectedIdsBound(c: Config, f: Format, leaves: seq<seq<Decoded>>)
    requires LeavesOk(c, f, leaves)
    ensures RejectedIds(RejectsOf(c, f, leaves)) <= Ids(Flatten(leaves))
  {
    if leaves != [] {
      RejectedIdsStep(c, f, leaves);
      RejectedIdsBound(c, f, leaves[1..]);
      var all, tail := Flatten(leaves), Flatten(leaves[1..]);
      assert all[0] == leaves[0][0];
      forall x | x in Ids(tail) ensures x in Ids(all) {
        var i :| 0 <= i < |tail| && tail[i].id == x;
        assert all[|leaves[0]| + i].id == x;
      }
    }
  }

  /** What survives splitting is the input minus the rejected messages, in order. */
  lemma {:induction false} FittingIsKept(c: Config, f: Format, leaves: seq<seq<Decoded>>)
    requires LeavesOk(c, f, leaves) && DistinctIds(Flatten(leaves))
    ensures Flatten(FittingLeaves(c, f, leaves)) == Keep(Flatten(leaves), RejectedIds(RejectsOf(c, f, leaves)))
  {
    if leaves != [] {
      var head, tail := leaves[0], leaves[1..];
      DistinctSplit(head, Flatten(tail));
      FittingIsKept(c, f, tail);
      RejectedIdsStep(c, f, leaves);
      RejectedIdsBound(c, f, tail);
      var rest := RejectedIds(RejectsOf(c, f, tail));
      var now := if Fits(c, f, head) then {} else {head[0].id};
      KeepAppend(head, Flatten(tail), rest + now);
      KeepHead(c, f, head, tail, rest, now);
      assert head[0].id in Ids(head);
      assert forall d: Decoded | d in Flatten(tail) :: d.id in Ids(Flatten(tail));
      KeepIrrelevant(Flatten(tail), rest, now);
    }
  }

  lemma {:induction false} KeepHead(c: Config, f: Format, head: seq<Decoded>, tail: seq<seq<Decoded>>, rest: set<nat>,
                                    now: set<nat>)
    requires head != [] && (Fits(c, f, head) || |head| == 1)
    requires Ids(head) !! rest && now == if Fits(c, f, head) then {} else {head[0].id}
    ensures Flatten(FittingLeaves(c, f, [head] + tail)) == Keep(head, rest + now) + Flatten(FittingLeaves(c, f, tail))
  {
    assert ([head] + tail)[1..] == tail;
    if Fits(c, f, head) {
      assert forall d | d in head :: d.id in Ids(head);
      KeepIrrelevant(head, {}, rest);
      KeepNothing(head);
      assert {} + rest == rest + now;
      assert ([head] + FittingLeaves(c, f, tail))[1..] == FittingLeaves(c, f, tail);
    } else {
      assert head == [head[0]];
      assert FittingLeaves(c, f, [head] + tail) == FittingLeaves(c, f, tail);
    }
  }

  /** Two runs of messages filtered separately, or together by all the dropped ids. */
  lemma {:induction false} KeepExtend(a: seq<Decoded>, b: seq<Decoded>, before: set<nat>, invalid: set<nat>,
                                      rejected: set<nat>)
    requires forall d | d in a :: d.id !in invalid && d.id !in rejected
    requires forall d | d in b :: d.id !in before && d.id !in invalid
    ensures Keep(a, before) + Keep(b, rejected) == Keep(a + b, before + (invalid + rejected))
  {
    KeepAppend(a, b, before + (invalid + rejected));
    KeepIrrelevant(a, before, invalid + rejected);
    KeepIrrelevant(b, rejected, before + invalid);
    assert rejected + (before + invalid) == before + (invalid + rejected);
  }

  lemma {:induction false} KeepNothing(ds: seq<Decoded>)
    ensures Keep(ds, {}) == ds
  {
    if ds != [] {
      KeepNothing(ds[1..]);
    }
  }

  /** The envelopes a reader obtains from `batches`, one after another. */
  ghost function UnpackAll(k: Compression, f: Format, batches: seq<Prepared>): Option<seq<Envelope>> {
    if batches == [] then Some([])
    else
      match (f.read(k, batches[0].payload), UnpackAll(k, f, batches[1..]))
      case (Some(es), Some(rest)) => Some(es + rest)
      case _ => None
  }

  lemma {:induction false} UnpackFitting(c: Config, f: Format, leaves: seq<seq<Decoded>>)
    requires RoundTrips(f) && LeavesOk(c, f, leaves)
    ensures UnpackAll(c.compression, f, BatchesOf(c, f, leaves))
         == Some(Envelopes(Flatten(FittingLeaves(c, f, leaves))))
  {
    if leaves != [] {
      UnpackFitting(c, f, leaves[1..]);
      if Fits(c, f, leaves[0]) {
        var bs := BatchesOf(c, f, leaves);
        assert bs[1..] == BatchesOf(c, f, leaves[1..]);
        var rest := FittingLeaves(c, f, leaves[1..]);
        assert FittingLeaves(c, f, leaves)[1..] == rest;
        assert Envelopes(leaves[0] + Flatten(rest)) == Envelopes(leaves[0]) + Envelopes(Flatten(rest));
      } else {
        assert BatchesOf(c, f, leaves) == BatchesOf(c, f, leaves[1..]);
        assert FittingLeaves(c, f, leaves) == FittingLeaves(c, f, leaves[1..]);
      }
    }
  }

  /**
   * Splitting preserves meaning: reading the batches back gives the input in order minus
   * the rejected messages; every payload is within the limit and carries its message count;
   * a message that fits on its own is never rejected; every leaf gives a batch or a rejection.
   */
  lemma {:induction false} PackMeaning(c: Config, f: Format, ds: seq<Decoded>)
    requires RoundTrips(f) && ds != [] && DistinctIds(ds) && Leaves(c, f, ds).Some?
    ensures var leaves := Leaves(c, f, ds).value;
            && LeavesOk(c, f, leaves)
            && var batches, rejects := BatchesOf(c, f, leaves), RejectsOf(c, f, leaves);
            && UnpackAll(c.compression, f, batches) == Some(Envelopes(Keep(ds, RejectedIds(rejects))))
            && (forall i | 0 <= i < |batches| ::
                  && |batches[i].payload| <= c.maxSize
                  && f.read(c.compression, batches[i].payload).Some?
                  && batches[i].count == |f.read(c.compression, batches[i].payload).value| % U32_LIMIT)
            && (forall d | d in ds && d.id in RejectedIds(rejects) :: Encodes(c, f, [d]) && !Fits(c, f, [d]))
            && |batches| + |rejects| == |leaves|
  {
    LeavesPartition(c, f, ds);
    var leaves := Leaves(c, f, ds).value;
    var batches, rejects := BatchesOf(c, f, leaves), RejectsOf(c, f, leaves);
    OutputsCount(c, f, leaves);
    UnpackFitting(c, f, leaves);
    FittingIsKept(c, f, leaves);
    forall i | 0 <= i < |batches|
      ensures |batches[i].payload| <= c.maxSize
      ensures f.read(c.compression, batches[i].payload).Some?
      ensures batches[i].count == |f.read(c.compression, batches[i].payload).value| % U32_LIMIT
    {
      BatchOfLeaf(c, f, leaves, i);
    }
    forall d | d in ds && d.id in RejectedIds(rejects) ensures Encodes(c, f, [d]) && !Fits(c, f, [d]) {
      RejectedIsLeaf(c, f, leaves, d.id);
      var e: Decoded :| e in Flatten(leaves) && e.id == d.id && Encodes(c, f, [e]) && !Fits(c, f, [e]);
      var i, j :| 0 <= i < |ds| && ds[i] == d && 0 <= j < |ds| && ds[j] == e;
      assert i == j;
    }
  }
}
