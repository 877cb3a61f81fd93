/** The real payload format: Protocol Buffers batches, optionally compressed with zstd. */
module Encoding {
  import opened Prelude
  import opened Wire
  import opened Queues
  import opened Packing
  import opened Planning

  /* ---------- format label ---------- */

  /** The UTF-8 bytes of `SignedEnvelopeBatch`, `protobuf`, `none` and `zstd`. */
  const PAYLOAD_SCHEMA: seq<byte> :=
    [83, 105, 103, 110, 101, 100, 69, 110, 118, 101, 108, 111, 112, 101, 66, 97, 116, 99, 104]
  const PAYLOAD_SCHEMA_VERSION := 1
  const PAYLOAD_ENCODING: seq<byte> := [112, 114, 111, 116, 111, 98, 117, 102]
  const NONE: seq<byte> := [110, 111, 110, 101]
  const ZSTD: seq<byte> := [122, 115, 116, 100]

  function LabelOf(k: Compression): Descriptor {
    Descriptor(PAYLOAD_SCHEMA, PAYLOAD_SCHEMA_VERSION, PAYLOAD_ENCODING, if k.Zstd? then ZSTD else NONE)
  }

  /** The bytes of an ASCII text. */
  function Ascii(text: string): seq<byte> {
    seq(|text|, i requires 0 <= i < |text| => (text[i] as int % 128) as byte)
  }

  /** The label in words. */
  lemma {:induction false} LabelWords(k: Compression)
    ensures LabelOf(k).schema == Ascii("SignedEnvelopeBatch") && LabelOf(k).version == 1
    ensures LabelOf(k).encoding == Ascii("protobuf")
    ensures LabelOf(k).compression == Ascii(if k.Zstd? then "zstd" else "none")
  {
  }

  /** The format label determines the compression: equal labels are read back the same way. */
  lemma {:induction false} LabelInjective(a: Compression, b: Compression)
    requires LabelOf(a) == LabelOf(b)
    ensures a == b
  {
    assert NONE[0] != ZSTD[0];
  }

  /* ---------- encoding ---------- */

  /** The zstd library: a fallible compressor and its decompressor. */
  datatype ZstdLibrary = ZstdLibrary(zip: seq<byte> -> Option<seq<byte>>, unzip: seq<byte> -> Option<seq<byte>>)

  ghost predicate LeftInverse(z: ZstdLibrary) {
    forall b: seq<byte> :: z.zip(b).Some? ==> z.unzip(z.zip(b).value) == Some(b)
  }

  function Compress(k: Compression, z: ZstdLibrary, b: seq<byte>): Option<seq<byte>> {
    match k
    case Uncompressed => Some(b)
    case Zstd => z.zip(b)
  }

  function Decompress(k: Compression, z: ZstdLibrary, b: seq<byte>): Option<seq<byte>> {
    match k
    case Uncompressed => Some(b)
    case Zstd => z.unzip(b)
  }

  /** Longest byte vector that can exist (`isize::MAX`); building a longer one panics. */
  const MAX_VEC := 0x7FFF_FFFF_FFFF_FFFF

  /** Serialized size and final payload, or `None` when serializing or compressing fails. */
  function Encode(k: Compression, z: ZstdLibrary, ds: seq<Decoded>): Option<(nat, seq<byte>)> {
    var serialized := EncodeBatch(Envelopes(ds));
    if |serialized| > MAX_VEC then None
    else
      match Compress(k, z, serialized)
      case None => None
      case Some(payload) => Some((|serialized|, payload))
  }

  /** What a reader of the anchored payload sees. */
  function Unpack(k: Compression, z: ZstdLibrary, payload: seq<byte>): Option<seq<Envelope>> {
    match Decompress(k, z, payload)
    case None => None
    case Some(serialized) => DecodeBatch(serialized)
  }

  function Real(z: ZstdLibrary): Format {
    Format(DecodeEnvelope,
           (k: Compression, ds: seq<Decoded>) => Encode(k, z, ds),
           (k: Compression, payload: seq<byte>) => Unpack(k, z, payload),
           LabelOf)
  }

  lemma {:induction false} EncodeRoundTrip(k: Compression, z: ZstdLibrary, ds: seq<Decoded>)
    requires LeftInverse(z) && Encode(k, z, ds).Some?
    ensures Unpack(k, z, Encode(k, z, ds).value.1) == Some(Envelopes(ds))
  {
    BatchRoundTrip(Envelopes(ds));
  }

  /** Whatever zstd does inside, the real format can be read back. */
  lemma {:induction false} RealRoundTrips(z: ZstdLibrary)
    requires LeftInverse(z)
    ensures RoundTrips(Real(z))
  {
    forall k: Compression, ds: seq<Decoded> | Real(z).encode(k, ds).Some?
      ensures Real(z).read(k, Real(z).encode(k, ds).value.1) == Some(Envelopes(ds))
    {
      EncodeRoundTrip(k, z, ds);
    }
  }

  /* ---------- sizes ---------- */

  /** The expected size bounds the real serialized size of what decodes. */
  lemma {:induction false} WireSizeBounds(z: ZstdLibrary, ms: seq<Message>)
    ensures |EncodeBatch(Envelopes(DecodeAll(Real(z), ms)))| <= WireSize(ms)
  {
    if ms != [] {
      var front, last := ms[..|ms| - 1], ms[|ms| - 1];
      WireSizeBounds(z, front);
      var ds := DecodeAll(Real(z), front);
      if DecodeEnvelope(last.envelope).Some? {
        var e := DecodeEnvelope(last.envelope).value;
        ReencodeNoLonger(last.envelope, EMPTY, RECURSION_LIMIT);
        VarintLenMonotone(|EncodeEnvelope(e)|, |last.envelope|);
        assert Envelopes(DecodeAll(Real(z), ms)) == Envelopes(ds) + [e];
        EncodeBatchAppend(Envelopes(ds), [e]);
        OneEntry(e);
      } else {
        assert DecodeAll(Real(z), ms) == ds;
      }
    }
  }

  /** The message was encoded as this gateway would encode it. */
  ghost predicate Canonical(m: Message) {
    DecodeEnvelope(m.envelope).Some? && EncodeEnvelope(DecodeEnvelope(m.envelope).value) == m.envelope
  }

  /** For canonically encoded messages the expected size is the real one. */
  lemma {:induction false} WireSizeExact(z: ZstdLibrary, ms: seq<Message>)
    requires forall m | m in ms :: Canonical(m)
    ensures |EncodeBatch(Envelopes(DecodeAll(Real(z), ms)))| == WireSize(ms)
  {
    if ms != [] {
      var front, last := ms[..|ms| - 1], ms[|ms| - 1];
      assert Canonical(last);
      WireSizeExact(z, front);
      var ds, e := DecodeAll(Real(z), front), DecodeEnvelope(last.envelope).value;
      assert Envelopes(DecodeAll(Real(z), ms)) == Envelopes(ds) + [e];
      EncodeBatchAppend(Envelopes(ds), [e]);
      OneEntry(e);
    }
  }

  /**
   * Of canonically encoded messages an uncompressed selection takes as many as one batch can hold: the
   * next one would not fit, unless the queue or the message limit ends first.
   */
  lemma {:induction false} SelectionIsFull(c: Config, z: ZstdLibrary, pending: seq<Message>)
    requires c.compression.Uncompressed? && forall m | m in pending :: Canonical(m)
    ensures var len := SelectLen(c, pending, 0);
            && len <= |pending| && len <= c.maxMessages
            && (len >= 2 ==> |EncodeBatch(Envelopes(DecodeAll(Real(z), pending[..len])))| <= c.maxSize)
            && (len < |pending| && len < c.maxMessages ==>
                  len > 0 && |EncodeBatch(Envelopes(DecodeAll(Real(z), pending[..len + 1])))| > c.maxSize)
  {
    SelectLenExact(c, pending, 0);
    var len := SelectLen(c, pending, 0);
    WireSizeExact(z, pending[..len]);
    if len < |pending| {
      WireSizeExact(z, pending[..len + 1]);
      assert pending[..len + 1][..len] == pending[..len];
    }
  }

  /** Without compression a selected batch is never split. */
  lemma {:induction false} UncompressedNeverSplits(c: Config, z: ZstdLibrary, pending: seq<Message>, now: nat,
                                                   force: bool)
    requires c.compression.Uncompressed? && PlanOf(c, Real(z), pending, now, force).Flush?
    ensures var p := PlanOf(c, Real(z), pending, now, force);
            && |p.leaves| <= 1
            && (p.len >= 2 ==> forall leaf | leaf in p.leaves :: Fits(c, Real(z), leaf))
  {
    SelectLenExact(c, pending, 0);
    var len := SelectLen(c, pending, 0);
    var ds := DecodeAll(Real(z), pending[..len]);
    WireSizeBounds(z, pending[..len]);
    if len < 2 {
      DecodeAllCount(Real(z), pending[..len]);
    }
  }

  lemma {:induction false} OneEntry(e: Envelope)
    ensures EncodeBatch([e]) == Entry(e)
  {
    assert EncodeBatch([e]) == Entry(e) + EncodeBatch([]);
  }
}
