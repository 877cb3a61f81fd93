/** When recursive halving ends with the fewest batches. */
module Fewest {
  import opened Prelude
  import opened Wire
  import opened Queues
  import opened Packing
  import opened Planning
  import opened Encoding

  /** A group that may stand alone: it fits, or it cannot be divided. */
  predicate Stands(c: Config, f: Format, group: seq<Decoded>) {
    group != [] && Encodes(c, f, group) && (Fits(c, f, group) || |group| == 1)
  }

  /** `groups` divides `ds`, in order, into groups that stand alone. */
  ghost predicate Divides(c: Config, f: Format, ds: seq<Decoded>, groups: seq<seq<Decoded>>) {
    Flatten(groups) == ds && forall g | g in groups :: Stands(c, f, g)
  }

  /** Every part of a group that stands alone does so, too. */
  ghost predicate PartsStand(c: Config, f: Format) {
    forall g, i, j | 0 <= i < j <= |g| && Stands(c, f, g) :: Stands(c, f, g[i..j])
  }

  /** The longest prefix of at most `n` messages that stands alone. */
  function Longest(c: Config, f: Format, ds: seq<Decoded>, n: nat): (k: nat)
    requires 1 <= n <= |ds|
    ensures 1 <= k <= n && (k == 1 || Stands(c, f, ds[..k]))
    ensures forall m: nat | k < m <= n :: !Stands(c, f, ds[..m])
  {
    if n == 1 || Stands(c, f, ds[..n]) then n else Longest(c, f, ds, n - 1)
  }

  /** Filling each batch as far as possible, from left to right. */
  function Greedy(c: Config, f: Format, ds: seq<Decoded>): seq<seq<Decoded>>
    decreases |ds|
  {
    if ds == [] then []
    else
      var k := Longest(c, f, ds, |ds|);
      [ds[..k]] + Greedy(c, f, ds[k..])
  }

  /** If every message can be encoded, filling greedily is a division. */
  lemma {:induction false} GreedyDivides(c: Config, f: Format, ds: seq<Decoded>)
    requires forall d | d in ds :: Encodes(c, f, [d])
    ensures Divides(c, f, ds, Greedy(c, f, ds))
    decreases |ds|
  {
    if ds != [] {
      hide Stands, Longest;
      var k := Longest(c, f, ds, |ds|);
      var rest := ds[k..];
      GreedyDivides(c, f, rest);
      FirstStands(c, f, ds);
      var groups := [ds[..k]] + Greedy(c, f, rest);
      assert groups[1..] == Greedy(c, f, rest);
      assert ds == ds[..k] + rest;
    }
  }

  lemma {:induction false} FirstStands(c: Config, f: Format, ds: seq<Decoded>)
    requires ds != [] && Encodes(c, f, [ds[0]])
    ensures Stands(c, f, ds[..Longest(c, f, ds, |ds|)])
  {
    assert ds[..1] == [ds[0]];
  }

  /** No division of `xs` has fewer groups than greedy filling of any end of `xs`. */
  lemma {:induction false} GreedyIsFewest(c: Config, f: Format, xs: seq<Decoded>, k: nat, groups: seq<seq<Decoded>>)
    requires PartsStand(c, f) && Divides(c, f, xs, groups) && k <= |xs|
    ensures |Greedy(c, f, xs[k..])| <= |groups|
    decreases |groups|
  {
    hide Stands, Longest;
    var ys := xs[k..];
    if groups == [] {
      assert ys == [];
    } else {
      var g, rest := groups[0], groups[1..];
      var tail := Flatten(rest);
      assert xs == g + tail && g in groups;
      assert Divides(c, f, tail, rest);
      if k >= |g| {
        assert ys == tail[k - |g|..];
        GreedyIsFewest(c, f, tail, k - |g|, rest);
      } else {
        var n := ReachesFurther(c, f, g, k, ys, tail);
        assert ys[n..] == tail[n - (|g| - k)..];
        GreedyIsFewest(c, f, tail, n - (|g| - k), rest);
      }
    }
  }

  /** Greedy filling gets at least to the end of the group it starts in. */
  lemma {:induction false} ReachesFurther(c: Config, f: Format, g: seq<Decoded>, k: nat, ys: seq<Decoded>,
                                          tail: seq<Decoded>)
    returns (n: nat)
    requires PartsStand(c, f) && Stands(c, f, g) && k < |g| && ys == g[k..] + tail
    ensures |g| - k <= n <= |ys| && Greedy(c, f, ys) == [ys[..n]] + Greedy(c, f, ys[n..])
  {
    hide Stands;
    n := Longest(c, f, ys, |ys|);
    assert ys[..|g| - k] == g[k..|g|];
    assert Stands(c, f, g[k..|g|]);
  }

  /* ---------- fewest, and free borders ---------- */

  /** No division of `ds` has fewer groups than recursive halving. */
  ghost predicate IsFewest(c: Config, f: Format, ds: seq<Decoded>)
    requires ds != [] && Leaves(c, f, ds).Some?
  {
    forall groups | Divides(c, f, ds, groups) :: |Leaves(c, f, ds).value| <= |groups|
  }

  /** Any division of `left + right` has one of no more groups with a border between the two. */
  ghost predicate FreeBorder(c: Config, f: Format, left: seq<Decoded>, right: seq<Decoded>) {
    forall groups | Divides(c, f, left + right, groups) ::
      exists l, r :: Divides(c, f, left, l) && Divides(c, f, right, r) && |l| + |r| <= |groups|
  }

  /* ---------- the least number of groups, computed ---------- */

  function Better(a: Option<nat>, b: Option<nat>): Option<nat> {
    if a.None? then b else if b.None? || a.value <= b.value then a else b
  }

  /** The least number of groups in a division of `ds`, or `None` if there is no division. */
  function Cheapest(c: Config, f: Format, ds: seq<Decoded>): Option<nat>
    decreases |ds|, |ds| + 1
  {
    if ds == [] then Some(0) else CheapestFrom(c, f, ds, |ds|)
  }

  /** The same with a first group of at most `k` messages. */
  function CheapestFrom(c: Config, f: Format, ds: seq<Decoded>, k: nat): Option<nat>
    requires ds != [] && k <= |ds|
    decreases |ds|, k
  {
    if k == 0 then None
    else
      var shorter := CheapestFrom(c, f, ds, k - 1);
      if !Stands(c, f, ds[..k]) then shorter
      else
        match Cheapest(c, f, ds[k..])
        case None => shorter
        case Some(n) => Better(Some(n + 1), shorter)
  }

  /** The least number is reached. */
  lemma {:induction false} CheapestReached(c: Config, f: Format, ds: seq<Decoded>) returns (groups: seq<seq<Decoded>>)
    requires Cheapest(c, f, ds).Some?
    ensures Divides(c, f, ds, groups) && |groups| == Cheapest(c, f, ds).value
    decreases |ds|, |ds| + 1
  {
    if ds == [] {
      groups := [];
    } else {
      groups := FirstReached(c, f, ds, |ds|);
    }
  }

  lemma {:induction false} FirstReached(c: Config, f: Format, ds: seq<Decoded>, k: nat)
    returns (groups: seq<seq<Decoded>>)
    requires ds != [] && k <= |ds| && CheapestFrom(c, f, ds, k).Some?
    ensures Divides(c, f, ds, groups) && |groups| == CheapestFrom(c, f, ds, k).value
    decreases |ds|, k
  {
    hide Stands;
    var shorter := CheapestFrom(c, f, ds, k - 1);
    if Stands(c, f, ds[..k]) && Cheapest(c, f, ds[k..]).Some?
       && CheapestFrom(c, f, ds, k) == Some(Cheapest(c, f, ds[k..]).value + 1) {
      var rest := CheapestReached(c, f, ds[k..]);
      groups := [ds[..k]] + rest;
      assert groups[1..] == rest && ds == ds[..k] + ds[k..];
    } else {
      groups := FirstReached(c, f, ds, k - 1);
    }
  }

  /** No division has fewer groups. */
  lemma {:induction false} CheapestLeast(c: Config, f: Format, ds: seq<Decoded>, groups: seq<seq<Decoded>>)
    requires Divides(c, f, ds, groups)
    ensures Cheapest(c, f, ds).Some? && Cheapest(c, f, ds).value <= |groups|
    decreases |groups|
  {
    hide Stands;
    if groups == [] {
      assert ds == [];
    } else {
      var g, rest := groups[0], groups[1..];
      assert g in groups && ds == g + Flatten(rest);
      StandsSome(c, f, g);
      var k := |g|;
      assert ds[..k] == g && ds[k..] == Flatten(rest);
      CheapestLeast(c, f, ds[k..], rest);
      FirstAtMost(c, f, ds, k, |ds|);
    }
  }

  lemma {:induction false} StandsSome(c: Config, f: Format, g: seq<Decoded>)
    requires Stands(c, f, g)
    ensures g != []
  {
  }

  lemma {:induction false} FirstAtMost(c: Config, f: Format, ds: seq<Decoded>, k: nat, m: nat)
    requires ds != [] && 1 <= k <= m <= |ds| && Stands(c, f, ds[..k]) && Cheapest(c, f, ds[k..]).Some?
    ensures CheapestFrom(c, f, ds, m).Some? && CheapestFrom(c, f, ds, m).value <= Cheapest(c, f, ds[k..]).value + 1
    decreases m
  {
    hide Stands;
    if k < m {
      FirstAtMost(c, f, ds, k, m - 1);
    }
  }

  /* ---------- when halving is as good, for any format ---------- */

  /** No fewer groups are needed without the border than with it. */
  predicate NoFewer(left: Option<nat>, right: Option<nat>, all: Option<nat>) {
    all.None? || (left.Some? && right.Some? && left.value + right.value <= all.value)
  }

  lemma {:induction false} BorderExactly(c: Config, f: Format, left: seq<Decoded>, right: seq<Decoded>)
    ensures FreeBorder(c, f, left, right) <==>
            NoFewer(Cheapest(c, f, left), Cheapest(c, f, right), Cheapest(c, f, left + right))
  {
    hide Cheapest, Divides;
    var ds := left + right;
    if FreeBorder(c, f, left, right) && Cheapest(c, f, ds).Some? {
      var groups := CheapestReached(c, f, ds);
      var l, r :| Divides(c, f, left, l) && Divides(c, f, right, r) && |l| + |r| <= |groups|;
      CheapestLeast(c, f, left, l);
      CheapestLeast(c, f, right, r);
    }
    if NoFewer(Cheapest(c, f, left), Cheapest(c, f, right), Cheapest(c, f, ds)) {
      forall groups | Divides(c, f, ds, groups)
        ensures exists l, r :: Divides(c, f, left, l) && Divides(c, f, right, r) && |l| + |r| <= |groups|
      {
        CheapestLeast(c, f, ds, groups);
        var l := CheapestReached(c, f, left);
        var r := CheapestReached(c, f, right);
        assert Divides(c, f, left, l) && Divides(c, f, right, r) && |l| + |r| <= |groups|;
      }
    }
  }

  /** Wherever halving would cut, the least numbers for the two sides add up to no more than for the whole. */
  predicate CheapCuts(c: Config, f: Format, ds: seq<Decoded>)
    decreases |ds|
  {
    |ds| <= 1 || Fits(c, f, ds) ||
    (var left, right := ds[..|ds| / 2], ds[|ds| / 2..];
     && CheapCuts(c, f, left) && CheapCuts(c, f, right)
     && NoFewer(Cheapest(c, f, left), Cheapest(c, f, right), Cheapest(c, f, ds)))
  }

  lemma {:induction false} DividesAppend(c: Config, f: Format, a: seq<Decoded>, b: seq<Decoded>, l: seq<seq<Decoded>>,
                                         r: seq<seq<Decoded>>)
    requires Divides(c, f, a, l) && Divides(c, f, b, r)
    ensures Divides(c, f, a + b, l + r)
  {
    hide Stands;
    FlattenAppend(l, r);
  }

  /** Halving a set that has to be cut is fewest iff it is so on both halves and the border is free. */
  lemma {:induction false} CutIsFewest(c: Config, f: Format, ds: seq<Decoded>)
    requires |ds| > 1 && Leaves(c, f, ds).Some? && !Fits(c, f, ds)
    ensures var left, right := ds[..|ds| / 2], ds[|ds| / 2..];
            && Leaves(c, f, left).Some? && Leaves(c, f, right).Some?
            && (IsFewest(c, f, ds) <==>
                IsFewest(c, f, left) && IsFewest(c, f, right) && FreeBorder(c, f, left, right))
  {
    var left, right := ds[..|ds| / 2], ds[|ds| / 2..];
    assert left + right == ds;
    var l, r := Leaves(c, f, left).value, Leaves(c, f, right).value;
    assert Leaves(c, f, ds).value == l + r;
    LeavesDivide(c, f, left);
    LeavesDivide(c, f, right);
    hide Divides, Leaves, Fits;
    if IsFewest(c, f, ds) {
      forall g | Divides(c, f, left, g) ensures |l| <= |g| {
        DividesAppend(c, f, left, right, g, r);
        assert Divides(c, f, ds, g + r);
      }
      forall g | Divides(c, f, right, g) ensures |r| <= |g| {
        DividesAppend(c, f, left, right, l, g);
        assert Divides(c, f, ds, l + g);
      }
    }
  }

  /** For any format, halving ends with the fewest batches exactly if all the borders it draws are free. */
  lemma {:induction false} FewestExactly(c: Config, f: Format, ds: seq<Decoded>)
    requires ds != [] && Leaves(c, f, ds).Some?
    ensures IsFewest(c, f, ds) <==> CheapCuts(c, f, ds)
    decreases |ds|
  {
    if |ds| <= 1 || Fits(c, f, ds) {
      assert Leaves(c, f, ds) == Some([ds]);
      forall groups | Divides(c, f, ds, groups) ensures 1 <= |groups| {
      }
    } else {
      var left, right := ds[..|ds| / 2], ds[|ds| / 2..];
      assert left + right == ds;
      CutIsFewest(c, f, ds);
      hide Leaves, IsFewest, FreeBorder, Cheapest;
      BorderExactly(c, f, left, right);
      FewestExactly(c, f, left);
      FewestExactly(c, f, right);
    }
  }

  /* ---------- formats in which parts of what fits fit ---------- */

  /** There, filling greedily gives the least number. */
  lemma {:induction false} GreedyIsCheapest(c: Config, f: Format, ds: seq<Decoded>)
    requires PartsStand(c, f) && forall d | d in ds :: Encodes(c, f, [d])
    ensures Cheapest(c, f, ds) == Some(|Greedy(c, f, ds)|)
  {
    hide Stands, Greedy, Divides, PartsStand, Encodes, Cheapest;
    GreedyDivides(c, f, ds);
    CheapestLeast(c, f, ds, Greedy(c, f, ds));
    var groups := CheapestReached(c, f, ds);
    assert ds[0..] == ds;
    GreedyIsFewest(c, f, ds, 0, groups);
  }

  lemma {:induction false} LeavesDivide(c: Config, f: Format, ds: seq<Decoded>)
    requires ds != [] && Leaves(c, f, ds).Some?
    ensures Divides(c, f, ds, Leaves(c, f, ds).value)
  {
    LeavesPartition(c, f, ds);
  }

  /* ---------- the real format without compression ---------- */

  lemma {:induction false} PartsSmaller(g: seq<Decoded>, i: nat, j: nat)
    requires i <= j <= |g|
    ensures |EncodeBatch(Envelopes(g[i..j]))| <= |EncodeBatch(Envelopes(g))|
  {
    hide EncodeBatch;
    assert Envelopes(g) == Envelopes(g[..i]) + (Envelopes(g[i..j]) + Envelopes(g[j..]));
    EncodeBatchAppend(Envelopes(g[..i]), Envelopes(g[i..j]) + Envelopes(g[j..]));
    EncodeBatchAppend(Envelopes(g[i..j]), Envelopes(g[j..]));
  }

  lemma {:induction false} UncompressedPartsStand(c: Config, z: ZstdLibrary)
    requires c.compression.Uncompressed?
    ensures PartsStand(c, Real(z))
  {
    hide EncodeBatch;
    forall g, i, j | 0 <= i < j <= |g| && Stands(c, Real(z), g) ensures Stands(c, Real(z), g[i..j]) {
      PartsSmaller(g, i, j);
    }
  }

  /** Without compression the least number is that of one pass from left to right. */
  lemma {:induction false} UncompressedGreedy(c: Config, z: ZstdLibrary, ds: seq<Decoded>)
    requires c.compression.Uncompressed? && Encodes(c, Real(z), ds)
    ensures Cheapest(c, Real(z), ds) == Some(|Greedy(c, Real(z), ds)|)
  {
    UncompressedPartsStand(c, z);
    EachEncodes(c, z, ds);
    GreedyIsCheapest(c, Real(z), ds);
  }

  /** What a batching step flushes without compression is always the fewest batches. */
  lemma {:induction false} UncompressedFlushIsFewest(c: Config, z: ZstdLibrary, pending: seq<Message>, now: nat,
                                                     force: bool, groups: seq<seq<Decoded>>)
    requires c.compression.Uncompressed? && PlanOf(c, Real(z), pending, now, force).Flush?
    requires var p := PlanOf(c, Real(z), pending, now, force);
             p.len <= |pending| && Divides(c, Real(z), DecodeAll(Real(z), pending[..p.len]), groups)
    ensures |PlanOf(c, Real(z), pending, now, force).leaves| <= |groups|
  {
    UncompressedNeverSplits(c, z, pending, now, force);
  }

  lemma {:induction false} EachEncodes(c: Config, z: ZstdLibrary, ds: seq<Decoded>)
    requires c.compression.Uncompressed? && Encodes(c, Real(z), ds)
    ensures forall d | d in ds :: Encodes(c, Real(z), [d])
  {
    hide EncodeBatch;
    forall i | 0 <= i < |ds| ensures Encodes(c, Real(z), [ds[i]]) {
      PartsSmaller(ds, i, i + 1);
      assert ds[i..i + 1] == [ds[i]];
    }
  }

  /* ---------- a flush that does not end with the fewest batches ---------- */

  /** Nine bytes of framing, as many as a zstd frame spends on one raw block. */
  const FRAME: seq<byte> := [0x28, 0xB5, 0x2F, 0xFD, 0, 0, 0, 0, 0]

  /** A compressor that gains nothing: it stores its input in a frame. */
  const STORING := ZstdLibrary(
    (b: seq<byte>) => Some(FRAME + b),
    (b: seq<byte>) => if |b| < |FRAME| then None else Some(b[|FRAME|..]))

  lemma {:induction false} StoringIsLossless()
    ensures LeftInverse(STORING)
  {
    forall b: seq<byte> ensures STORING.unzip(STORING.zip(b).value) == Some(b) {
      assert (FRAME + b)[|FRAME|..] == b;
    }
  }

  function Fill(n: nat, b: byte): (bs: seq<byte>)
    ensures |bs| == n
  {
    seq(n, _ => b)
  }

  /** The lengths an envelope must have to be verified. */
  predicate SignedSize(e: Envelope) {
    |e.sensorId| == 32 && |e.signature| == 64 && 16 <= |e.nonce| <= 32 && e.message != []
  }

  const SMALL := Envelope(Fill(32, 1), Fill(16, 2), [7], Fill(64, 3))
  const LARGE := SMALL.(message := Fill(245, 7))

  /** Three pending envelopes that take 123 bytes each in a batch, then one that takes 369. */
  const WAITING := [Message(0, 0, EncodeEnvelope(SMALL)), Message(1, 0, EncodeEnvelope(SMALL)),
                    Message(2, 0, EncodeEnvelope(SMALL)), Message(3, 0, EncodeEnvelope(LARGE))]

  lemma {:induction false} EnvelopeSizes()
    ensures |EncodeEnvelope(SMALL)| == 121 && |EncodeEnvelope(LARGE)| == 366
  {
    EncodedLen(SMALL);
    EncodedLen(LARGE);
    assert VarintLen(245) == 2;
  }

  lemma {:induction false} WaitingDecoded(z: ZstdLibrary)
    ensures DecodeAll(Real(z), WAITING) == [Decoded(0, SMALL), Decoded(1, SMALL), Decoded(2, SMALL), Decoded(3, LARGE)]
  {
    EnvelopeSizes();
    hide EncodeEnvelope, MergeEnvelope;
    EnvelopeRoundTrip(SMALL, RECURSION_LIMIT);
    EnvelopeRoundTrip(LARGE, RECURSION_LIMIT);
    assert WAITING[..3][..2] == WAITING[..2] && WAITING[..2][..1] == WAITING[..1] && WAITING[..1][..0] == [];
    assert DecodeAll(Real(z), WAITING[..1]) == [Decoded(0, SMALL)];
    assert DecodeAll(Real(z), WAITING[..2]) == [Decoded(0, SMALL), Decoded(1, SMALL)];
    assert DecodeAll(Real(z), WAITING[..3]) == [Decoded(0, SMALL), Decoded(1, SMALL), Decoded(2, SMALL)];
  }

  lemma {:induction false} BatchSizes()
    ensures |EncodeBatch([SMALL])| == 123 && |EncodeBatch([LARGE])| == 369
    ensures |EncodeBatch([SMALL, SMALL])| == 246 && |EncodeBatch([SMALL, SMALL, SMALL])| == 369
    ensures |EncodeBatch([SMALL, LARGE])| == 492 && |EncodeBatch([SMALL, SMALL, SMALL, LARGE])| == 738
  {
    EnvelopeSizes();
    hide EncodeEnvelope, Record;
    assert VarintLen(366) == 2 && VarintLen(121) == 1;
    OneEntry(SMALL);
    OneEntry(LARGE);
    EncodeBatchAppend([SMALL], [SMALL]);
    EncodeBatchAppend([SMALL, SMALL], [SMALL]);
    EncodeBatchAppend([SMALL], [LARGE]);
    EncodeBatchAppend([SMALL, SMALL], [SMALL, LARGE]);
    assert [SMALL] + [SMALL] == [SMALL, SMALL] && [SMALL, SMALL] + [SMALL] == [SMALL, SMALL, SMALL];
    assert [SMALL] + [LARGE] == [SMALL, LARGE] && [SMALL, SMALL] + [SMALL, LARGE] == [SMALL, SMALL, SMALL, LARGE];
  }

  lemma {:induction false} FourInThree(c: Config, f: Format, ds: seq<Decoded>)
    requires |ds| == 4 && Encodes(c, f, ds) && !Fits(c, f, ds) && Fits(c, f, ds[..2])
    requires Encodes(c, f, ds[2..]) && !Fits(c, f, ds[2..]) && Fits(c, f, [ds[2]]) && Fits(c, f, [ds[3]])
    ensures Leaves(c, f, ds) == Some([ds[..2], [ds[2]], [ds[3]]])
  {
    assert ds[2..][..1] == [ds[2]] && ds[2..][1..] == [ds[3]];
    assert Leaves(c, f, ds[..2]) == Some([ds[..2]]);
    assert Leaves(c, f, [ds[2]]) == Some([[ds[2]]]) && Leaves(c, f, [ds[3]]) == Some([[ds[3]]]);
    assert Leaves(c, f, ds[2..]) == Some([[ds[2]]] + [[ds[3]]]);
    assert [ds[..2]] + ([[ds[2]]] + [[ds[3]]]) == [ds[..2], [ds[2]], [ds[3]]];
  }

  /** In a frame the serialized size decides. */
  lemma {:induction false} FitsStored(c: Config, ds: seq<Decoded>)
    requires c.compression.Zstd? && |EncodeBatch(Envelopes(ds))| <= MAX_VEC
    ensures Encodes(c, Real(STORING), ds)
    ensures Fits(c, Real(STORING), ds) <==> |FRAME| + |EncodeBatch(Envelopes(ds))| <= c.maxSize
  {
    hide EncodeBatch;
  }

  /**
   * With compression on and a limit of 378 bytes, the aged queue `WAITING` is flushed as three
   * batches, although its first three messages fit one batch and its last another.
   */
  lemma {:induction false} HalvingIsNotFewest()
    ensures var c := Config(30, 378, 100, Zstd);
            var f := Real(STORING);
            var ds := DecodeAll(f, WAITING);
            && LeftInverse(STORING) && SignedSize(SMALL) && SignedSize(LARGE) && |ds| == 4
            && PlanOf(c, f, WAITING, 30_000, false) == Flush(4, Age, [], [ds[..2], [ds[2]], [ds[3]]])
            && Divides(c, f, ds, [ds[..3], ds[3..]])
  {
    var c := Config(30, 378, 100, Zstd);
    var f := Real(STORING);
    var ds := DecodeAll(f, WAITING);
    StoringIsLossless();
    WaitingDecoded(STORING);
    ExampleLeaves(c, ds);
    ExamplePlan(c, ds);
  }

  lemma {:induction false} ExampleLeaves(c: Config, ds: seq<Decoded>)
    requires c == Config(30, 378, 100, Zstd)
    requires ds == [Decoded(0, SMALL), Decoded(1, SMALL), Decoded(2, SMALL), Decoded(3, LARGE)]
    ensures Leaves(c, Real(STORING), ds) == Some([ds[..2], [ds[2]], [ds[3]]])
    ensures Divides(c, Real(STORING), ds, [ds[..3], ds[3..]])
  {
    hide Leaves, EncodeBatch, Real, Fits, Encodes;
    BatchSizes();
    assert Envelopes(ds) == [SMALL, SMALL, SMALL, LARGE];
    assert Envelopes(ds[..2]) == [SMALL, SMALL];
    assert Envelopes(ds[2..]) == [SMALL, LARGE];
    assert Envelopes(ds[..3]) == [SMALL, SMALL, SMALL];
    assert Envelopes(ds[3..]) == [LARGE];
    assert ds[3..] == [ds[3]];
    assert Envelopes([ds[2]]) == [SMALL];
    FitsStored(c, ds);
    FitsStored(c, ds[..2]);
    FitsStored(c, ds[2..]);
    FitsStored(c, ds[..3]);
    FitsStored(c, [ds[2]]);
    FitsStored(c, ds[3..]);
    FourInThree(c, Real(STORING), ds);
    var groups := [ds[..3], ds[3..]];
    assert Flatten(groups) == ds[..3] + (ds[3..] + Flatten<Decoded>([])) by {
      assert groups[1..] == [ds[3..]] && [ds[3..]][1..] == [];
    }
  }

  lemma {:induction false} ExamplePlan(c: Config, ds: seq<Decoded>)
    requires c == Config(30, 378, 100, Zstd)
    requires ds == DecodeAll(Real(STORING), WAITING) && |ds| == 4
    requires Leaves(c, Real(STORING), ds) == Some([ds[..2], [ds[2]], [ds[3]]])
    ensures PlanOf(c, Real(STORING), WAITING, 30_000, false) == Flush(4, Age, [], [ds[..2], [ds[2]], [ds[3]]])
  {
    hide DecodeAll, InvalidIds, Leaves, EncodeEnvelope;
    assert SelectLen(c, WAITING, 3) == SelectLen(c, WAITING, 4) == 4;
    assert SelectLen(c, WAITING, 1) == SelectLen(c, WAITING, 2) == SelectLen(c, WAITING, 3);
    assert WAITING[..4] == WAITING;
    DecodeAllCount(Real(STORING), WAITING);
  }
}
