/** What the transition system of `Gateway` guarantees in every run. */
module Durability {
  import opened Prelude
  import opened Wire
  import opened Queues
  import opened Packing
  import opened Planning
  import opened Encoding
  import opened Gateway

  ghost function Reach(f: Format, actions: seq<Action>): World {
    Run(f, INITIAL, actions)
  }

  /* ---------- at-least-once, in-order anchoring ---------- */

  /**
   * The finalized log with adjacent repeats of one batch collapsed is a prefix of commit order,
   * every entry is the exact stored payload of a committed batch, and every batch that is no
   * longer ready is in the log.
   */
  lemma {:induction false} DeliveredInOrder(f: Format, actions: seq<Action>)
    ensures var w := Reach(f, actions);
            && Collapse(w.ledger) <= Finals(f, w.committed)
            && (forall e | e in w.ledger :: e in Finals(f, w.committed))
            && 0 <= Confirmed(w) <= |Collapse(w.ledger)| <= Confirmed(w) + 1
            && (forall j | 0 <= j < Confirmed(w) :: Finals(f, w.committed)[j] in w.ledger)
            && (forall j | Confirmed(w) <= j < |w.committed| :: w.committed[j].batch == w.store.ready[j - Confirmed(w)])
  {
    hide Run, Step, FatesInv, WellBuilt, PhaseInv;
    var w := Reach(f, actions);
    RunKeepsInv(f, actions);
    forall j | 0 <= j < Confirmed(w) ensures Finals(f, w.committed)[j] in w.ledger {
      assert Collapse(w.ledger)[j] == Finals(f, w.committed)[j];
      CollapseSubset(w.ledger, Collapse(w.ledger)[j]);
    }
  }

  lemma {:induction false} CollapseSubset(log: seq<Finalized>, e: Finalized)
    requires e in Collapse(log)
    ensures e in log
  {
    var front := log[..|log| - 1];
    if e in Collapse(front) {
      CollapseSubset(front, e);
    }
  }

  /** A step removes a batch from the ready queue only if its payload is already finalized. */
  lemma {:induction false} RemovedOnlyAfterFinalized(f: Format, actions: seq<Action>, a: Action, b: Batch)
    requires b in Reach(f, actions).store.ready && b !in Step(f, Reach(f, actions), a).store.ready
    ensures a.Cleaning? && FinalOf(b, Reach(f, actions).store.format) in Reach(f, actions).ledger
  {
    hide Run, FatesInv, LedgerInv, WellBuilt;
    var w := Reach(f, actions);
    RunKeepsInv(f, actions);
    match a
    case Flushing(now, force, createdAt, storeFails) =>
      FlushKeepsReady(f, w, now, force, createdAt, storeFails);
    case Cleaning(removal) =>
      RemovedWasFinalized(f, w, removal, b);
    case _ =>
  }

  lemma {:induction false} FlushKeepsReady(f: Format, w: World, now: nat, force: bool, createdAt: nat, storeFails: bool)
    requires Inv(f, w)
    ensures w.store.ready <= Step(f, w, Flushing(now, force, createdAt, storeFails)).store.ready
  {
    hide FatesInv, BatchesInv, LedgerInv, PhaseInv, DecodeAll, InvalidIds;
    if w.session.Some? && w.snapshot.Some? && !storeFails
       && PlanOf(w.session.value, f, w.snapshot.value, now, force).Flush? {
      FlushIsFlushed(f, w, now, force, createdAt);
    }
  }

  lemma {:induction false} RemovedWasFinalized(f: Format, w: World, removal: Removal, b: Batch)
    requires Inv(f, w) && w.phase.Confirming?
    requires b in w.store.ready && b !in Confirm(w.store, w.phase.page[0].id).ready
    ensures FinalOf(b, w.store.format) in w.ledger
  {
    hide FatesInv, QueueInv, LedgerInv, WellBuilt;
    var page := w.phase.page;
    WithoutBatchKeeps(w.store.ready, page[0].id, b);
    var j :| 0 <= j < |w.store.ready| && w.store.ready[j] == b;
    assert b.id == page[0].id == Confirmed(w) + j;
    assert page <= w.store.ready;
    assert w.store.ready[0].id == page[0].id;
  }

  lemma {:induction false} WithoutBatchKeeps(bs: seq<Batch>, id: nat, b: Batch)
    requires b in bs
    ensures b.id != id ==> b in WithoutBatch(bs, id)
  {
    if b != bs[0] {
      WithoutBatchKeeps(bs[1..], id, b);
    }
  }

  /** History is only ever appended to, so commit order and push order are fixed once made. */
  lemma {:induction false} HistoryGrows(f: Format, w: World, actions: seq<Action>)
    ensures var w' := Run(f, w, actions);
            && w.pushed <= w'.pushed && w.committed <= w'.committed && w.ledger <= w'.ledger
            && w.dropped.Keys <= w'.dropped.Keys
  {
    if actions != [] {
      HistoryGrows(f, w, actions[..|actions| - 1]);
    }
  }

  /* ---------- conservation of messages ---------- */

  lemma {:induction false} KeepExact(ds: seq<Decoded>, dropped: set<nat>)
    ensures forall d :: d in Keep(ds, dropped) <==> d in ds && d.id !in dropped
    ensures Ids(Keep(ds, dropped)) == Ids(ds) - dropped
    ensures DistinctIds(ds) ==> DistinctIds(Keep(ds, dropped))
  {
    if ds != [] {
      KeepExact(ds[1..], dropped);
    }
  }

  /**
   * Every pushed message is in exactly one place: still pending, dropped for a reason that holds,
   * or in a committed batch (ready or confirmed), where it occurs once.
   */
  lemma {:induction false} ExactlyOnePlace(f: Format, actions: seq<Action>, i: nat)
    requires i < |Reach(f, actions).pushed|
    ensures var w := Reach(f, actions);
            var batched := Flatten(Members(w.committed));
            && (w.pushed[i] in w.store.pending <==> i >= Consumed(w))
            && (i < Consumed(w) ==> ((i in w.dropped) <==> i !in Ids(batched)))
            && (i >= Consumed(w) ==> i !in w.dropped && i !in Ids(batched))
            && (i in w.dropped ==> DropJustified(f, w.pushed[i], w.dropped[i]))
            && DistinctIds(batched)
  {
    hide Run, Step, DecodeAll, InvalidIds, Keep, Flatten, BatchesInv, LedgerInv, PhaseInv;
    var w := Reach(f, actions);
    var n := Consumed(w);
    RunKeepsInv(f, actions);
    var consumed := w.pushed[..n];
    DecodeAllRange(f, consumed, 0);
    KeepExact(DecodeAll(f, consumed), w.dropped.Keys);
    DecodeAllExact(f, consumed);
    if i < n {
      assert consumed[i] == w.pushed[i];
      if i !in w.dropped {
        assert Decoded(i, f.decode(w.pushed[i].envelope).value) in DecodeAll(f, consumed);
      }
    } else {
      assert w.store.pending[i - n] == w.pushed[i];
    }
  }

  /** Reading confirmed, ready and pending one after another gives the surviving messages in push order. */
  lemma {:induction false} SurvivorsInOrder(f: Format, actions: seq<Action>)
    ensures var w := Reach(f, actions);
            && 0 <= Confirmed(w) <= |w.committed|
            && Flatten(Members(w.committed[..Confirmed(w)])) + Flatten(Members(w.committed[Confirmed(w)..]))
               + DecodeAll(f, w.store.pending)
               == Keep(DecodeAll(f, w.pushed), w.dropped.Keys)
  {
    hide Run, Step, DecodeAll, Keep, WellBuilt, LedgerInv, PhaseInv;
    var w := Reach(f, actions);
    var n := Consumed(w);
    RunKeepsInv(f, actions);
    MembersSplit(w.committed, Confirmed(w));
    assert w.pushed == w.pushed[..n] + w.store.pending;
    DecodeAllAppend(f, w.pushed[..n], w.store.pending);
    DecodeAllRange(f, w.store.pending, n);
    KeepAppend(DecodeAll(f, w.pushed[..n]), DecodeAll(f, w.store.pending), w.dropped.Keys);
    KeepIrrelevant(DecodeAll(f, w.store.pending), {}, w.dropped.Keys);
    KeepNothing(DecodeAll(f, w.store.pending));
    assert {} + w.dropped.Keys == w.dropped.Keys;
  }

  /* ---------- end to end ---------- */

  /** Decode a payload the way its format label says. */
  ghost function ReadBy(f: Format, format: Option<Descriptor>, payload: seq<byte>): Option<seq<Envelope>> {
    if format == Some(f.describe(Uncompressed)) then f.read(Uncompressed, payload)
    else if format == Some(f.describe(Zstd)) then f.read(Zstd, payload)
    else None
  }

  /** The format labels tell the compressions apart. */
  ghost predicate Telling(f: Format) {
    f.describe(Uncompressed) != f.describe(Zstd)
  }

  /** What a reader sees who decodes the log entries one after another, each by its label. */
  ghost function ReadLog(f: Format, log: seq<Finalized>): Option<seq<Envelope>> {
    if log == [] then Some([])
    else
      var k := |log| - 1;
      match (ReadLog(f, log[..k]), ReadBy(f, log[k].format, log[k].payload))
      case (Some(before), Some(es)) => Some(before + es)
      case _ => None
  }

  lemma {:induction false} ReadOne(f: Format, c: Committed)
    requires RoundTrips(f) && Telling(f) && WellBuilt(f, c)
    ensures ReadBy(f, Some(f.describe(c.config.compression)), c.batch.payload) == Some(Envelopes(c.members))
  {
    assert f.encode(c.config.compression, c.members).Some?;
    match c.config.compression
    case Uncompressed =>
    case Zstd =>
  }

  lemma {:induction false} ReadFinals(f: Format, committed: seq<Committed>, log: seq<Finalized>)
    requires RoundTrips(f) && Telling(f) && log <= Finals(f, committed)
    requires forall j | 0 <= j < |committed| :: WellBuilt(f, committed[j])
    ensures ReadLog(f, log) == Some(Envelopes(Flatten(Members(committed[..|log|]))))
  {
    if log == [] {
      assert Members(committed[..0]) == [];
    } else {
      var k := |log| - 1;
      ReadFinals(f, committed, log[..k]);
      var c := committed[k];
      assert log[k] == Finals(f, committed)[k];
      ReadOne(f, c);
      MembersSnoc(committed, k);
      assert committed[..|log|] == committed[..k + 1];
    }
  }

  lemma {:induction false} MembersSnoc(committed: seq<Committed>, k: nat)
    requires k < |committed|
    ensures Envelopes(Flatten(Members(committed[..k + 1])))
         == Envelopes(Flatten(Members(committed[..k]))) + Envelopes(committed[k].members)
  {
    var c, before := committed[k], Flatten(Members(committed[..k]));
    assert Members(committed[..k + 1]) == Members(committed[..k]) + [c.members];
    FlattenAppend(Members(committed[..k]), [c.members]);
    assert Flatten([c.members]) == c.members + Flatten<Decoded>([]);
    assert Envelopes(before + c.members) == Envelopes(before) + Envelopes(c.members);
  }

  /**
   * End to end: decoding the collapsed on-chain log, each entry by its label, gives a prefix, in push order, of the
   * envelopes of all pushed messages that were not dropped.
   */
  lemma {:induction false} ChainTellsTheTruth(z: ZstdLibrary, actions: seq<Action>)
    requires LeftInverse(z)
    ensures var f := Real(z);
            var w := Reach(f, actions);
            && ReadLog(f, Collapse(w.ledger)).Some?
            && ReadLog(f, Collapse(w.ledger)).value <= Envelopes(Keep(DecodeAll(f, w.pushed), w.dropped.Keys))
  {
    var f := Real(z);
    RealRoundTrips(z);
    assert NONE[0] != ZSTD[0];
    PrefixReadBack(f, actions);
  }

  lemma {:induction false} PrefixReadBack(f: Format, actions: seq<Action>)
    requires RoundTrips(f) && Telling(f)
    ensures var w := Reach(f, actions);
            && ReadLog(f, Collapse(w.ledger)).Some?
            && ReadLog(f, Collapse(w.ledger)).value <= Envelopes(Keep(DecodeAll(f, w.pushed), w.dropped.Keys))
  {
    hide Run, Step, DecodeAll, Keep, WellBuilt, Flatten, Members, FatesInv;
    var w := Reach(f, actions);
    RunKeepsInv(f, actions);
    SurvivorsInOrder(f, actions);
    var k := |Collapse(w.ledger)|;
    ReadFinals(f, w.committed, Collapse(w.ledger));
    MembersSplit(w.committed, k);
    MembersSplit(w.committed, Confirmed(w));
    EnvelopesPrefix(Flatten(Members(w.committed[..k])), Keep(DecodeAll(f, w.pushed), w.dropped.Keys));
  }

  lemma {:induction false} MembersSplit(committed: seq<Committed>, k: nat)
    requires k <= |committed|
    ensures Flatten(Members(committed)) == Flatten(Members(committed[..k])) + Flatten(Members(committed[k..]))
  {
    assert Members(committed) == Members(committed[..k]) + Members(committed[k..]);
    FlattenAppend(Members(committed[..k]), Members(committed[k..]));
  }

  lemma {:induction false} EnvelopesPrefix(a: seq<Decoded>, b: seq<Decoded>)
    requires a <= b
    ensures Envelopes(a) <= Envelopes(b)
  {
  }

  /* ---------- format label and size bound ---------- */

  lemma {:induction false} ReadyBuilt(f: Format, ready: seq<Batch>, nextId: nat, format: Option<Descriptor>,
                                      committed: seq<Committed>, j: nat)
    requires BatchesInv(f, ready, nextId, format, committed) && j < |ready|
    ensures var k := |committed| - |ready| + j;
            && 0 <= k < |committed| && ready[j] == committed[k].batch && WellBuilt(f, committed[k])
            && format == Some(f.describe(committed[k].config.compression))
  {
    hide WellBuilt;
  }

  /**
   * Across restarts with changing configurations, whoever decodes a ready batch the way the
   * stored label says recovers the messages it was built from.
   */
  lemma {:induction false} ReadyMatchesLabel(z: ZstdLibrary, actions: seq<Action>, j: nat, k: Compression)
    requires LeftInverse(z) && j < |Reach(Real(z), actions).store.ready|
    requires Reach(Real(z), actions).store.format == Some(LabelOf(k))
    ensures var w := Reach(Real(z), actions);
            && 0 <= Confirmed(w) + j < |w.committed|
            && w.committed[Confirmed(w) + j].config.compression == k
            && Real(z).read(k, w.store.ready[j].payload) == Some(Envelopes(w.committed[Confirmed(w) + j].members))
            && w.store.ready[j].count == |w.committed[Confirmed(w) + j].members| % U32_LIMIT
  {
    hide Run, Step, QueueInv, FatesInv, SessionInv, LedgerInv, PhaseInv, BatchesInv, LeftInverse;
    var f := Real(z);
    var w := Reach(f, actions);
    RunKeepsInv(f, actions);
    ReadyBuilt(f, w.store.ready, w.store.nextId, w.store.format, w.committed, j);
    RealRoundTrips(z);
    var c := w.committed[Confirmed(w) + j];
    LabelInjective(c.config.compression, k);
    assert WellBuilt(f, c);
    assert f.encode(k, c.members).Some?;
  }

  /** The anchor's defensive size check never fires: no batch above the limit is ever submitted. */
  lemma {:induction false} OversizedNeverSubmitted(f: Format, actions: seq<Action>)
    ensures var w := Reach(f, actions);
            && (forall c | c in w.committed :: |c.batch.payload| <= MAX_PAYLOAD_SIZE)
            && (w.phase.Submitting? ==> w.phase.page != [] && |w.phase.page[0].payload| <= MAX_PAYLOAD_SIZE)
  {
    hide Run, Step;
    var w := Reach(f, actions);
    RunKeepsInv(f, actions);
    if w.phase.Submitting? {
      assert w.phase.page[0] == w.store.ready[0] == w.committed[Confirmed(w)].batch;
    }
  }
}
