/** One batching step as a decision over the pending messages it read. */
module Planning {
  import opened Prelude
  import opened Wire
  import opened Queues
  import opened Packing

  datatype Reason = Count | Size | Age | Shutdown

  datatype Selection = Selection(len: nat, reason: Option<Reason>)

  /* ---------- selection ---------- */

  /** The tag, length and bytes a message is expected to add to an uncompressed batch. */
  function EntrySize(m: Message): nat {
    1 + VarintLen(|m.envelope|) + |m.envelope|
  }

  function WireSize(ms: seq<Message>): nat {
    if ms == [] then 0 else WireSize(ms[..|ms| - 1]) + EntrySize(ms[|ms| - 1])
  }

  /** Whether message `len` would push a non-empty uncompressed selection over the size limit. */
  predicate Overflows(c: Config, pending: seq<Message>, len: nat)
    requires len < |pending|
  {
    c.compression.Uncompressed? && len > 0 && WireSize(pending[..len]) + EntrySize(pending[len]) > c.maxSize
  }

  function SelectLen(c: Config, pending: seq<Message>, from: nat): nat
    requires from <= |pending|
    decreases |pending| - from
  {
    if from == |pending| || from == c.maxMessages || Overflows(c, pending, from) then from
    else SelectLen(c, pending, from + 1)
  }

  /** Milliseconds since `receivedAt`; a time of receipt in the future counts as now. */
  function Elapsed(receivedAt: nat, now: nat): nat {
    if now < receivedAt then 0 else now - receivedAt
  }

  function MaxAge(c: Config): nat {
    c.maxAgeSecs * 1000
  }

  predicate Aged(c: Config, pending: seq<Message>, now: nat) {
    pending != [] && Elapsed(pending[0].receivedAt, now) >= MaxAge(c)
  }

  function Select(c: Config, pending: seq<Message>, now: nat): Selection {
    var len := SelectLen(c, pending, 0);
    Selection(len,
              if len == c.maxMessages then Some(Count)
              else if len < |pending| then Some(Size)
              else if Aged(c, pending, now) then Some(Age)
              else None)
  }

  /**
   * The selection is the longest prefix within the message limit whose expected size fits
   * (a single message is always selected).
   */
  lemma {:induction false} SelectLenExact(c: Config, pending: seq<Message>, from: nat)
    requires from <= |pending| && from <= c.maxMessages
    requires c.compression.Uncompressed? && from >= 2 ==> WireSize(pending[..from]) <= c.maxSize
    ensures var len := SelectLen(c, pending, from);
            && from <= len <= |pending| && len <= c.maxMessages
            && (len < |pending| && len < c.maxMessages ==> Overflows(c, pending, len))
            && (c.compression.Uncompressed? && len >= 2 ==> WireSize(pending[..len]) <= c.maxSize)
    decreases |pending| - from
  {
    if from == |pending| || from == c.maxMessages || Overflows(c, pending, from) {
    } else {
      assert pending[..from + 1][..from] == pending[..from];
      SelectLenExact(c, pending, from + 1);
    }
  }

  /** With compression, where sizes are not known before, only the message limit counts. */
  lemma {:induction false} CompressedSelection(c: Config, pending: seq<Message>)
    requires c.compression.Zstd?
    ensures SelectLen(c, pending, 0) == Min(|pending|, c.maxMessages)
  {
    SelectLenExact(c, pending, 0);
  }

  /** The loop of `Batcher::select`. */
  method SelectLoop(c: Config, pending: seq<Message>, now: nat) returns (s: Selection)
    ensures s == Select(c, pending, now)
  {
    var softSize := c.compression == Uncompressed;
    var len, size := 0, 0;
    var reason := None;
    while len < |pending|
      invariant 0 <= len <= |pending|
      invariant softSize ==> size == WireSize(pending[..len])
      invariant SelectLen(c, pending, 0) == SelectLen(c, pending, len)
      invariant len <= c.maxMessages
      invariant reason.None?
    {
      if len == c.maxMessages {
        reason := Some(Count);
        break;
      }
      if softSize {
        var entry := EntrySize(pending[len]);
        if len > 0 && size + entry > c.maxSize {
          reason := Some(Size);
          break;
        }
        size := size + entry;
      }
      assert pending[..len + 1][..len] == pending[..len];
      len := len + 1;
    }
    if reason.None? && len == c.maxMessages {
      reason := Some(Count);
    }
    if reason.None? && pending != [] && Elapsed(pending[0].receivedAt, now) >= MaxAge(c) {
      reason := Some(Age);
    }
    s := Selection(len, reason);
  }

  /* ---------- decoding the candidate ---------- */

  function DecodeAll(f: Format, ms: seq<Message>): seq<Decoded> {
    if ms == [] then []
    else
      var last := ms[|ms| - 1];
      DecodeAll(f, ms[..|ms| - 1]) +
      match f.decode(last.envelope)
      case Some(e) => [Decoded(last.sequence, e)]
      case None => []
  }

  function InvalidIds(f: Format, ms: seq<Message>): seq<nat> {
    if ms == [] then []
    else
      var last := ms[|ms| - 1];
      InvalidIds(f, ms[..|ms| - 1]) + if f.decode(last.envelope).None? then [last.sequence] else []
  }

  lemma {:induction false} DecodeAllAppend(f: Format, a: seq<Message>, b: seq<Message>)
    ensures DecodeAll(f, a + b) == DecodeAll(f, a) + DecodeAll(f, b)
    ensures InvalidIds(f, a + b) == InvalidIds(f, a) + InvalidIds(f, b)
  {
    if b == [] {
      assert a + b == a;
    } else {
      assert (a + b)[..|a + b| - 1] == a + b[..|b| - 1];
      DecodeAllAppend(f, a, b[..|b| - 1]);
    }
  }

  /** Every message is decoded or invalid, never both. */
  lemma {:induction false} DecodeAllExact(f: Format, ms: seq<Message>)
    ensures forall d :: d in DecodeAll(f, ms) <==>
              exists m :: m in ms && m.sequence == d.id && f.decode(m.envelope) == Some(d.envelope)
    ensures forall id :: id in InvalidIds(f, ms) <==>
              exists m :: m in ms && m.sequence == id && f.decode(m.envelope).None?
  {
    if ms != [] {
      var front, last := ms[..|ms| - 1], ms[|ms| - 1];
      assert ms == front + [last];
      DecodeAllExact(f, front);
    }
  }

  /** With consecutive sequence numbers from `lo`, ids stay in range and occur once. */
  lemma {:induction false} DecodeAllRange(f: Format, ms: seq<Message>, lo: nat)
    requires forall i | 0 <= i < |ms| :: ms[i].sequence == lo + i
    ensures DistinctIds(DecodeAll(f, ms))
    ensures forall d | d in DecodeAll(f, ms) :: lo <= d.id < lo + |ms| && d.id !in InvalidIds(f, ms)
    ensures forall id | id in InvalidIds(f, ms) :: lo <= id < lo + |ms|
  {
    if ms != [] {
      DecodeAllRange(f, ms[..|ms| - 1], lo);
    }
  }

  /* ---------- the step ---------- */

  datatype Plan =
    | Idle
    | Wait(remaining: nat)
    | Stuck
    | Flush(len: nat, reason: Reason, invalid: seq<nat>, leaves: seq<seq<Decoded>>)

  function LeavesOrNone(c: Config, f: Format, ds: seq<Decoded>): Option<seq<seq<Decoded>>> {
    if ds == [] then Some([]) else Leaves(c, f, ds)
  }

  /** What a batching step that read `pending` does; `Stuck` is an encoding failure. */
  function PlanOf(c: Config, f: Format, pending: seq<Message>, now: nat, force: bool): Plan {
    if pending == [] then Idle
    else
      var s := Select(c, pending, now);
      if s.reason.None? && !force then
        Wait(MaxAge(c) - Min(MaxAge(c), Elapsed(pending[0].receivedAt, now)))
      else
        SelectLenBound(c, pending);
        var candidate := pending[..s.len];
        match LeavesOrNone(c, f, DecodeAll(f, candidate))
        case None => Stuck
        case Some(leaves) =>
          Flush(s.len, if s.reason.Some? then s.reason.value else Shutdown, InvalidIds(f, candidate), leaves)
  }

  lemma {:induction false} SelectLenBound(c: Config, pending: seq<Message>)
    ensures SelectLen(c, pending, 0) <= |pending|
  {
    SelectLenExact(c, pending, 0);
  }

  /** A flush consumes a non-empty prefix whose decodable part the leaves partition. */
  lemma {:induction false} FlushSound(c: Config, f: Format, pending: seq<Message>, now: nat, force: bool)
    requires PlanOf(c, f, pending, now, force).Flush?
    ensures var p := PlanOf(c, f, pending, now, force);
            && p.len <= |pending| && (c.maxMessages > 0 ==> p.len > 0)
            && LeavesOk(c, f, p.leaves)
            && Flatten(p.leaves) == DecodeAll(f, pending[..p.len])
            && p.invalid == InvalidIds(f, pending[..p.len])
  {
    SelectLenExact(c, pending, 0);
    var len := SelectLen(c, pending, 0);
    var ds := DecodeAll(f, pending[..len]);
    if ds != [] {
      LeavesPartition(c, f, ds);
    }
  }

  /**
   * Waiting means: fewer messages than the limit, no size trigger, and the head is exactly
   * the reported, strictly positive time away from its age limit.
   */
  lemma {:induction false} WaitExact(c: Config, f: Format, pending: seq<Message>, now: nat, force: bool)
    requires PlanOf(c, f, pending, now, force).Wait?
    ensures var p := PlanOf(c, f, pending, now, force);
            && !force && pending != []
            && |pending| != c.maxMessages
            && SelectLen(c, pending, 0) == |pending|
            && p.remaining > 0 && p.remaining + Elapsed(pending[0].receivedAt, now) == MaxAge(c)
  {
    SelectLenExact(c, pending, 0);
  }

  /** The age trigger is left to decide: neither the message count nor the size calls for a flush. */
  predicate OnlyAgeCounts(c: Config, pending: seq<Message>) {
    SelectLen(c, pending, 0) == |pending| != c.maxMessages
  }

  /**
   * The queue is safe from overdue messages, at whatever time it is looked at, exactly if the age
   * trigger has no say or the head is the oldest message: only the head is looked at.
   */
  lemma {:induction false} NoneOverdueExactly(c: Config, f: Format, pending: seq<Message>)
    requires ValidConfig(c) && pending != []
    ensures (forall now: nat | PlanOf(c, f, pending, now, false).Wait? ::
               forall m | m in pending :: Elapsed(m.receivedAt, now) < MaxAge(c))
       <==> (OnlyAgeCounts(c, pending) ==> forall m | m in pending :: pending[0].receivedAt <= m.receivedAt)
  {
    SelectLenBound(c, pending);
    forall now: nat ensures PlanOf(c, f, pending, now, false).Wait? <==>
                            OnlyAgeCounts(c, pending) && Elapsed(pending[0].receivedAt, now) < MaxAge(c) {
      WaitsExactly(c, f, pending, now);
    }
    hide PlanOf, OnlyAgeCounts;
    if OnlyAgeCounts(c, pending) {
      forall m | m in pending && m.receivedAt < pending[0].receivedAt
        ensures exists now: nat :: PlanOf(c, f, pending, now, false).Wait? && Elapsed(m.receivedAt, now) >= MaxAge(c)
      {
        assert PlanOf(c, f, pending, m.receivedAt + MaxAge(c), false).Wait?;
      }
    }
  }

  /** The batcher waits exactly if nothing but age could call for a flush, and the head is young. */
  lemma {:induction false} WaitsExactly(c: Config, f: Format, pending: seq<Message>, now: nat)
    requires pending != []
    ensures PlanOf(c, f, pending, now, false).Wait? <==>
            OnlyAgeCounts(c, pending) && Elapsed(pending[0].receivedAt, now) < MaxAge(c)
  {
    SelectLenBound(c, pending);
    SelectLenExact(c, pending, 0);
  }

  /** It does happen: the second of two messages is long overdue, and the batcher waits. */
  lemma {:induction false} OverdueMayWait(f: Format, first: Message, second: Message)
    requires first.receivedAt == 100_000 && second.receivedAt == 0
    ensures var c := Config(30, 1000, 100, Zstd);
            && PlanOf(c, f, [first, second], 100_000, false) == Wait(30_000)
            && Elapsed(second.receivedAt, 100_000) > MaxAge(c)
  {
    var c := Config(30, 1000, 100, Zstd);
    assert SelectLen(c, [first, second], 1) == SelectLen(c, [first, second], 2) == 2;
  }

  lemma {:induction false} DecodeAllCount(f: Format, ms: seq<Message>)
    ensures |DecodeAll(f, ms)| + |InvalidIds(f, ms)| == |ms|
  {
    if ms != [] {
      DecodeAllCount(f, ms[..|ms| - 1]);
    }
  }

  /* ---------- the number of batches ---------- */

  /** If the input fits, or each half fits or is a single message, no division has fewer groups. */
  lemma {:induction false} HalvesFitIsFewest(c: Config, f: Format, ds: seq<Decoded>, groups: seq<seq<Decoded>>)
    requires ds != [] && Leaves(c, f, ds).Some?
    requires var half := |ds| / 2;
             Fits(c, f, ds) || |ds| <= 2 || ((Fits(c, f, ds[..half]) || half == 1) && Fits(c, f, ds[half..]))
    requires Flatten(groups) == ds && LeavesOk(c, f, groups)
    ensures |Leaves(c, f, ds).value| <= |groups|
  {
    AtMostTwoLeaves(c, f, ds);
    if |groups| == 1 {
      assert groups == [groups[0]];
      assert Flatten(groups) == groups[0] + Flatten(groups[1..]);
      assert groups[0] == ds;
    }
  }

  lemma {:induction false} AtMostTwoLeaves(c: Config, f: Format, ds: seq<Decoded>)
    requires ds != [] && Leaves(c, f, ds).Some?
    requires var half := |ds| / 2;
             Fits(c, f, ds) || |ds| <= 2 || ((Fits(c, f, ds[..half]) || half == 1) && Fits(c, f, ds[half..]))
    ensures |Leaves(c, f, ds).value| <= 2
    ensures Fits(c, f, ds) || |ds| == 1 ==> |Leaves(c, f, ds).value| == 1
  {
    if !Fits(c, f, ds) && |ds| > 1 {
      var left, right := ds[..|ds| / 2], ds[|ds| / 2..];
      assert Leaves(c, f, left) == Some([left]);
      assert Leaves(c, f, right) == Some([right]);
    }
  }
}
