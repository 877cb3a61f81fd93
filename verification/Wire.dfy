/**
 * Byte encodings: the little-endian integers of the store records and the
 * Protocol Buffers wire format of `SignedEnvelope` and `SignedEnvelopeBatch`
 * (Protocol Buffers Encoding, "Base 128 Varints" and "Length-Delimited Records").
 */
module Wire {
  import opened Prelude

  type byte = x: int | 0 <= x < 256

  const U32_LIMIT := 0x1_0000_0000
  const U64_LIMIT := 0x1_0000_0000_0000_0000

  type u64 = x: int | 0 <= x < U64_LIMIT

  /* ---------- little-endian integers ---------- */

  function LittleEndian(n: nat, width: nat): (bs: seq<byte>)
    ensures |bs| == width
  {
    if width == 0 then [] else [n % 256] + LittleEndian(n / 256, width - 1)
  }

  function FromLittleEndian(bs: seq<byte>): nat {
    if bs == [] then 0 else bs[0] + 256 * FromLittleEndian(bs[1..])
  }

  function Pow256(k: nat): nat {
    if k == 0 then 1 else 256 * Pow256(k - 1)
  }

  lemma {:induction false} WordLimits()
    ensures Pow256(4) == U32_LIMIT
    ensures Pow256(8) == U64_LIMIT
  {
    assert Pow256(2) == 65536;
    assert Pow256(4) == 256 * (256 * Pow256(2));
    assert Pow256(6) == 256 * (256 * Pow256(4));
    assert Pow256(8) == 256 * (256 * Pow256(6));
  }

  /** A value that fits `width` bytes is read back unchanged. */
  lemma {:induction false} LittleEndianRoundTrip(n: nat, width: nat)
    requires n < Pow256(width)
    ensures FromLittleEndian(LittleEndian(n, width)) == n
  {
    if width > 0 {
      LittleEndianRoundTrip(n / 256, width - 1);
      assert LittleEndian(n, width)[1..] == LittleEndian(n / 256, width - 1);
    }
  }

  /* ---------- base 128 varints ---------- */

  function Varint(n: nat): (bs: seq<byte>)
    ensures |bs| >= 1
  {
    if n < 128 then [n] else [128 + n % 128] + Varint(n / 128)
  }

  /** `prost::length_delimiter_len`. */
  function VarintLen(n: nat): (len: nat)
    ensures len == |Varint(n)|
  {
    if n < 128 then 1 else 1 + VarintLen(n / 128)
  }

  lemma {:induction false} VarintLenMonotone(a: nat, b: nat)
    requires a <= b
    ensures VarintLen(a) <= VarintLen(b)
  {
    if a >= 128 {
      VarintLenMonotone(a / 128, b / 128);
    }
  }

  /**
   * Read a varint of at most `room` more bytes: its value and how many bytes it took.
   * With room 10, as for a `u64`, the tenth byte may only be 0 or 1.
   */
  function TakeVarint(bs: seq<byte>, room: nat): (r: Option<(nat, nat)>)
    ensures r.Some? ==> 1 <= r.value.1 <= |bs|
  {
    if room == 0 || bs == [] then None
    else if bs[0] < 128 then
      if room == 1 && bs[0] > 1 then None else Some((bs[0], 1))
    else
      match TakeVarint(bs[1..], room - 1)
      case None => None
      case Some((v, n)) => Some((bs[0] - 128 + 128 * v, n + 1))
  }

  /** One more than the largest value `room` varint bytes may carry. */
  function VarintLimit(room: nat): nat {
    if room == 0 then 0 else if room == 1 then 2 else 128 * VarintLimit(room - 1)
  }

  lemma {:induction false} TenByteLimit()
    ensures VarintLimit(10) == U64_LIMIT
  {
    assert VarintLimit(4) == 128 * (128 * VarintLimit(2));
    assert VarintLimit(6) == 128 * (128 * VarintLimit(4));
    assert VarintLimit(8) == 128 * (128 * VarintLimit(6));
    assert VarintLimit(10) == 128 * (128 * VarintLimit(8));
  }

  lemma {:induction false} VarintRoundTrip(n: nat, room: nat, rest: seq<byte>)
    requires n < VarintLimit(room)
    ensures TakeVarint(Varint(n) + rest, room) == Some((n, |Varint(n)|))
  {
    if n >= 128 {
      VarintRoundTrip(n / 128, room - 1, rest);
      assert (Varint(n) + rest)[1..] == Varint(n / 128) + rest;
    }
  }

  lemma {:induction false} VarintRoundTrip64(n: nat, rest: seq<byte>)
    requires n < U64_LIMIT
    ensures TakeVarint(Varint(n) + rest, 10) == Some((n, |Varint(n)|))
  {
    TenByteLimit();
    VarintRoundTrip(n, 10, rest);
  }

  /** No encoding of a value is shorter than the canonical one. */
  lemma {:induction false} VarintMinimal(bs: seq<byte>, room: nat)
    requires TakeVarint(bs, room).Some?
    ensures var (v, n) := TakeVarint(bs, room).value; VarintLen(v) <= n
  {
    if bs[0] >= 128 {
      VarintMinimal(bs[1..], room - 1);
      var (v, _) := TakeVarint(bs[1..], room - 1).value;
      var w := bs[0] - 128 + 128 * v;
      assert w / 128 == v;
    }
  }

  /* ---------- SignedEnvelope ---------- */

  datatype Envelope = Envelope(sensorId: seq<byte>, nonce: seq<byte>, message: seq<byte>, signature: seq<byte>)

  const EMPTY := Envelope([], [], [], [])

  /** How deeply unknown groups may nest (`prost`'s recursion limit). */
  const RECURSION_LIMIT := 100

  const LENGTH_DELIMITED := 2
  const START_GROUP := 3
  const END_GROUP := 4

  /** A length-delimited record with a one-byte key. */
  function Record(tag: nat, b: seq<byte>): (r: seq<byte>)
    requires tag < 16
    ensures |r| == 1 + VarintLen(|b|) + |b|
  {
    [tag * 8 + LENGTH_DELIMITED] + Varint(|b|) + b
  }

  /** A bytes field; the default (empty) value is not written. */
  function Field(tag: nat, b: seq<byte>): seq<byte>
    requires tag < 16
  {
    if b == [] then [] else Record(tag, b)
  }

  function EncodeEnvelope(e: Envelope): seq<byte> {
    Field(1, e.sensorId) + Field(2, e.nonce) + Field(3, e.message) + Field(4, e.signature)
  }

  function SetField(e: Envelope, tag: nat, b: seq<byte>): Envelope {
    match tag
    case 1 => e.(sensorId := b)
    case 2 => e.(nonce := b)
    case 3 => e.(message := b)
    case 4 => e.(signature := b)
    case _ => e
  }

  /** A record key: field tag, wire type and the bytes after it. */
  function TakeKey(bs: seq<byte>): (r: Option<(nat, nat, seq<byte>)>)
    ensures r.Some? ==> |r.value.2| < |bs|
  {
    match TakeVarint(bs, 10)
    case None => None
    case Some((key, n)) =>
      if key >= U32_LIMIT || key % 8 > 5 || key / 8 == 0 then None
      else Some((key / 8, key % 8, bs[n..]))
  }

  /** A length-delimited body and the bytes after it. */
  function TakeDelimited(bs: seq<byte>): (r: Option<(seq<byte>, seq<byte>)>)
    ensures r.Some? ==> |r.value.1| < |bs|
  {
    match TakeVarint(bs, 10)
    case None => None
    case Some((len, n)) =>
      if len > |bs| - n then None else Some((bs[n..n + len], bs[n + len..]))
  }

  /** The bytes after a field of an unknown tag (`prost::encoding::skip_field`). */
  function SkipField(wire: nat, tag: nat, bs: seq<byte>, depth: nat): (r: Option<seq<byte>>)
    ensures r.Some? ==> |r.value| <= |bs|
    decreases |bs|, 1
  {
    if depth == 0 then None
    else if wire == 0 then
      match TakeVarint(bs, 10)
      case None => None
      case Some((_, n)) => Some(bs[n..])
    else if wire == 1 then
      if |bs| < 8 then None else Some(bs[8..])
    else if wire == LENGTH_DELIMITED then
      match TakeDelimited(bs)
      case None => None
      case Some((_, rest)) => Some(rest)
    else if wire == START_GROUP then SkipGroup(tag, bs, depth)
    else if wire == 5 then
      if |bs| < 4 then None else Some(bs[4..])
    else None
  }

  /** The bytes after the end of the group `tag`. */
  function SkipGroup(tag: nat, bs: seq<byte>, depth: nat): (r: Option<seq<byte>>)
    requires depth > 0
    ensures r.Some? ==> |r.value| <= |bs|
    decreases |bs|, 0
  {
    match TakeKey(bs)
    case None => None
    case Some((inner, wire, rest)) =>
      if wire == END_GROUP then
        if inner == tag then Some(rest) else None
      else
        match SkipField(wire, inner, rest, depth - 1)
        case None => None
        case Some(after) => SkipGroup(tag, after, depth)
  }

  /** Merge the records of `bs` into `e`; a repeated field overwrites. */
  function MergeEnvelope(bs: seq<byte>, e: Envelope, depth: nat): Option<Envelope>
    decreases |bs|
  {
    if bs == [] then Some(e)
    else
      match TakeKey(bs)
      case None => None
      case Some((tag, wire, rest)) =>
        if 1 <= tag <= 4 then
          if wire != LENGTH_DELIMITED then None
          else
            match TakeDelimited(rest)
            case None => None
            case Some((b, after)) => MergeEnvelope(after, SetField(e, tag, b), depth)
        else
          match SkipField(wire, tag, rest, depth)
          case None => None
          case Some(after) => MergeEnvelope(after, e, depth)
  }

  function DecodeEnvelope(bs: seq<byte>): Option<Envelope> {
    MergeEnvelope(bs, EMPTY, RECURSION_LIMIT)
  }

  /** A written length-delimited record is read back: its key, its body, and what follows. */
  lemma {:induction false} TakeRecord(tag: nat, b: seq<byte>, rest: seq<byte>)
    requires 1 <= tag < 16 && |b| < U64_LIMIT
    ensures var bs := Record(tag, b) + rest;
            && TakeKey(bs) == Some((tag, LENGTH_DELIMITED, bs[1..]))
            && TakeDelimited(bs[1..]) == Some((b, rest))
  {
    hide Varint, TakeDelimited, TakeVarint, TakeKey;
    var bs := Record(tag, b) + rest;
    assert bs[1..] == Varint(|b|) + (b + rest);
    TakeShortKey(bs, tag);
    TakeBody(b, rest);
  }

  lemma {:induction false} TakeShortKey(bs: seq<byte>, tag: nat)
    requires 1 <= tag < 16 && bs != [] && bs[0] == tag * 8 + LENGTH_DELIMITED
    ensures TakeKey(bs) == Some((tag, LENGTH_DELIMITED, bs[1..]))
  {
    assert TakeVarint(bs, 10) == Some((bs[0], 1));
  }

  lemma {:induction false} TakeBody(b: seq<byte>, rest: seq<byte>)
    requires |b| < U64_LIMIT
    ensures TakeDelimited(Varint(|b|) + (b + rest)) == Some((b, rest))
  {
    VarintRoundTrip64(|b|, b + rest);
    Slices(Varint(|b|), b, rest);
  }

  lemma {:induction false} Slices<T>(a: seq<T>, b: seq<T>, c: seq<T>)
    ensures (a + (b + c))[|a|..|a| + |b|] == b
    ensures (a + (b + c))[|a| + |b|..] == c
  {
  }

  lemma {:induction false} MergeField(tag: nat, b: seq<byte>, rest: seq<byte>, e: Envelope, depth: nat)
    requires 1 <= tag <= 4 && |b| < U64_LIMIT
    requires b == [] ==> SetField(e, tag, b) == e
    ensures MergeEnvelope(Field(tag, b) + rest, e, depth) == MergeEnvelope(rest, SetField(e, tag, b), depth)
  {
    if b == [] {
      assert Field(tag, b) + rest == rest;
    } else {
      TakeRecord(tag, b, rest);
    }
  }

  /** Decoding an encoded envelope gives it back. */
  lemma {:induction false} EnvelopeRoundTrip(e: Envelope, depth: nat)
    requires |EncodeEnvelope(e)| < U64_LIMIT
    ensures MergeEnvelope(EncodeEnvelope(e), EMPTY, depth) == Some(e)
  {
    hide Record;
    var e1 := EMPTY.(sensorId := e.sensorId);
    var e2 := e1.(nonce := e.nonce);
    var e3 := e2.(message := e.message);
    var f4 := Field(4, e.signature);
    var f3 := Field(3, e.message) + f4;
    var f2 := Field(2, e.nonce) + f3;
    assert EncodeEnvelope(e) == Field(1, e.sensorId) + f2;
    MergeField(1, e.sensorId, f2, EMPTY, depth);
    MergeField(2, e.nonce, f3, e1, depth);
    MergeField(3, e.message, f4, e2, depth);
    assert f4 + [] == f4;
    MergeField(4, e.signature, [], e3, depth);
  }

  /**
   * How readers stay compatible: the last occurrence of a known field counts, even if it is empty; a
   * field of another tag is skipped; a known field that is not length-delimited is an error.
   */
  lemma {:induction false} EnvelopeFields(tag: nat, b: seq<byte>, n: nat, rest: seq<byte>, e: Envelope, depth: nat)
    requires 1 <= tag < 16 && |b| < U64_LIMIT && n < U64_LIMIT && depth > 0
    ensures MergeEnvelope(Record(tag, b) + rest, e, depth)
         == MergeEnvelope(rest, if tag <= 4 then SetField(e, tag, b) else e, depth)
    ensures MergeEnvelope([tag * 8] + Varint(n) + rest, e, depth)
         == if tag <= 4 then None else MergeEnvelope(rest, e, depth)
  {
    hide Varint, TakeVarint, TakeKey, TakeDelimited, Record;
    TakeRecord(tag, b, rest);
    assert Record(tag, b) + rest != [];
    TakeVarintField(tag, n, rest);
  }

  lemma {:induction false} TakeVarintField(tag: nat, n: nat, rest: seq<byte>)
    requires 1 <= tag < 16 && n < U64_LIMIT
    ensures var bs := [tag * 8] + Varint(n) + rest;
            && TakeKey(bs) == Some((tag, 0, Varint(n) + rest))
            && TakeVarint(Varint(n) + rest, 10) == Some((n, |Varint(n)|))
            && (Varint(n) + rest)[|Varint(n)|..] == rest
  {
    var bs := [tag * 8] + Varint(n) + rest;
    assert bs[1..] == Varint(n) + rest;
    assert TakeVarint(bs, 10) == Some((bs[0], 1)) by {
      hide Varint;
    }
    VarintRoundTrip64(n, rest);
  }

  /** Bytes as the formats have them: the integers of the store, a varint, an envelope and an empty one in a batch. */
  lemma {:induction false} WireExamples()
    ensures LittleEndian(0x0102, 4) == [2, 1, 0, 0]
    ensures Varint(150) == [0x96, 0x01]
    ensures EncodeEnvelope(Envelope([5], [6], [7], [8])) == [10, 1, 5, 18, 1, 6, 26, 1, 7, 34, 1, 8]
    ensures EncodeBatch([EMPTY]) == [10, 0]
  {
    hide EncodeEnvelope, EncodeBatch, Entry;
    IntegerExamples();
    EnvelopeExamples();
  }

  lemma {:induction false} IntegerExamples()
    ensures LittleEndian(0x0102, 4) == [2, 1, 0, 0]
    ensures Varint(150) == [0x96, 0x01]
  {
    assert LittleEndian(0x0102, 4) == [2] + LittleEndian(1, 3);
    assert Varint(150) == [0x96] + Varint(1);
  }

  lemma {:induction false} EnvelopeExamples()
    ensures EncodeEnvelope(Envelope([5], [6], [7], [8])) == [10, 1, 5, 18, 1, 6, 26, 1, 7, 34, 1, 8]
    ensures EncodeBatch([EMPTY]) == [10, 0]
  {
    var e := Envelope([5], [6], [7], [8]);
    assert Field(1, e.sensorId) == [10, 1, 5] && Field(2, e.nonce) == [18, 1, 6];
    assert Field(3, e.message) == [26, 1, 7] && Field(4, e.signature) == [34, 1, 8];
    assert EncodeBatch([EMPTY]) == Entry(EMPTY) + EncodeBatch([]);
  }

  lemma {:induction false} FieldLen(tag: nat, bs: seq<byte>)
    requires tag < 16
    requires TakeDelimited(bs).Some?
    ensures var (b, rest) := TakeDelimited(bs).value; |Field(tag, b)| <= 1 + |bs| - |rest|
  {
    VarintMinimal(bs, 10);
  }

  lemma {:induction false} SetFieldLen(e: Envelope, tag: nat, b: seq<byte>)
    requires 1 <= tag <= 4
    ensures |EncodeEnvelope(SetField(e, tag, b))| <= |EncodeEnvelope(e)| + |Field(tag, b)|
  {
    hide Field;
    EncodedLen(e);
    EncodedLen(SetField(e, tag, b));
  }

  lemma {:induction false} EncodedLen(e: Envelope)
    ensures |EncodeEnvelope(e)|
         == |Field(1, e.sensorId)| + |Field(2, e.nonce)| + |Field(3, e.message)| + |Field(4, e.signature)|
  {
    hide Field;
  }

  /** Merging never makes the re-encoding longer than what was read so far. */
  lemma {:induction false} ReencodeNoLonger(bs: seq<byte>, e: Envelope, depth: nat)
    requires MergeEnvelope(bs, e, depth).Some?
    ensures |EncodeEnvelope(MergeEnvelope(bs, e, depth).value)| <= |EncodeEnvelope(e)| + |bs|
    decreases |bs|
  {
    if bs != [] {
      var (tag, wire, rest) := TakeKey(bs).value;
      if 1 <= tag <= 4 {
        var (b, after) := TakeDelimited(rest).value;
        FieldLen(tag, rest);
        SetFieldLen(e, tag, b);
        ReencodeNoLonger(after, SetField(e, tag, b), depth);
      } else {
        ReencodeNoLonger(SkipField(wire, tag, rest, depth).value, e, depth);
      }
    }
  }

  /* ---------- SignedEnvelopeBatch ---------- */

  /** One element of the repeated field 1; unlike a bytes field it is written even when empty. */
  function Entry(e: Envelope): seq<byte> {
    Record(1, EncodeEnvelope(e))
  }

  function EncodeBatch(es: seq<Envelope>): seq<byte> {
    if es == [] then [] else Entry(es[0]) + EncodeBatch(es[1..])
  }

  function DecodeBatch(bs: seq<byte>): Option<seq<Envelope>>
    decreases |bs|
  {
    if bs == [] then Some([])
    else
      match TakeKey(bs)
      case None => None
      case Some((tag, wire, rest)) =>
        if tag == 1 then
          if wire != LENGTH_DELIMITED then None
          else
            match TakeDelimited(rest)
            case None => None
            case Some((b, after)) =>
              match MergeEnvelope(b, EMPTY, RECURSION_LIMIT - 1)
              case None => None
              case Some(e) =>
                match DecodeBatch(after)
                case None => None
                case Some(es) => Some([e] + es)
        else
          match SkipField(wire, tag, rest, RECURSION_LIMIT)
          case None => None
          case Some(after) => DecodeBatch(after)
  }

  /** A serialized batch decodes to exactly the envelopes it was built from, in order. */
  lemma {:induction false} BatchRoundTrip(es: seq<Envelope>)
    requires |EncodeBatch(es)| < U64_LIMIT
    ensures DecodeBatch(EncodeBatch(es)) == Some(es)
  {
    if es != [] {
      hide TakeKey, TakeDelimited, MergeEnvelope, EncodeEnvelope;
      TakeRecord(1, EncodeEnvelope(es[0]), EncodeBatch(es[1..]));
      EnvelopeRoundTrip(es[0], RECURSION_LIMIT - 1);
      BatchRoundTrip(es[1..]);
      assert es == [es[0]] + es[1..];
    }
  }

  lemma {:induction false} EncodeBatchAppend(a: seq<Envelope>, b: seq<Envelope>)
    ensures EncodeBatch(a + b) == EncodeBatch(a) + EncodeBatch(b)
  {
    if a == [] {
      assert a + b == b;
    } else {
      assert (a + b)[1..] == a[1..] + b;
      EncodeBatchAppend(a[1..], b);
    }
  }
}
