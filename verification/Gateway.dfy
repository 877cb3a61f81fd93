/**
 * The durable path as one transition system: a pusher, a batcher and an anchor
 * working on the same store, with crashes and restarts under new configurations.
 * The last fields of `World` are history: they record what happened and influence nothing.
 */
module Gateway {
  import opened Prelude
  import opened Wire
  import opened Queues
  import opened Packing
  import opened Planning

  /** A batch that was ever committed, the messages it was built from and the session's configuration. */
  datatype Committed = Committed(batch: Batch, members: seq<Decoded>, config: Config)

  /** Why a message was consumed without ending up in a batch. */
  datatype Drop = Invalid | Oversized(config: Config)

  /** A payload finalized on chain, and the format label that was stored when it was submitted. */
  datatype Finalized = Finalized(id: nat, payload: seq<byte>, format: Option<Descriptor>)

  /** Where the anchor is; `page` holds the batches it loaded and has not finished. */
  datatype Phase =
    | Offline
    | Waiting
    | Submitting(page: seq<Batch>)
    | Confirming(page: seq<Batch>)
    | Halted

  datatype World = World(
    store: Queues,
    session: Option<Config>,
    snapshot: Option<seq<Message>>,
    phase: Phase,
    ledger: seq<Finalized>,
    pushed: seq<Message>,
    committed: seq<Committed>,
    dropped: map<nat, Drop>)

  /** How a submission attempt ended; `took` says whether it reached the chain all the same. */
  datatype Submission = Success | Transient(took: bool) | Permanent(took: bool) | Abandoned(took: bool)

  /** How an attempt to remove a confirmed batch ended. */
  datatype Removal = Removed | RemovalRetry(took: bool) | RemovalAbandoned(took: bool)

  datatype Action =
    | Pushing(receivedAt: nat, envelope: seq<byte>)
    | Reading
    | Flushing(now: nat, force: bool, createdAt: nat, storeFails: bool)
    | Loading
    | Attempting(submission: Submission)
    | Cleaning(removal: Removal)
    | Crashing
    | Starting(config: Config)

  /** `READY_PAGE`: most batches the anchor holds at once. */
  const READY_PAGE := 4

  const INITIAL := World(EMPTY_STORE, None, None, Offline, [], [], [], map[])

  function FinalOf(b: Batch, format: Option<Descriptor>): Finalized {
    Finalized(b.id, b.payload, format)
  }

  /* ---------- transitions ---------- */

  ghost function NewCommitted(c: Config, f: Format, leaves: seq<seq<Decoded>>, first: nat, createdAt: nat)
    : (r: seq<Committed>)
    requires LeavesOk(c, f, leaves)
    ensures |r| == |BatchesOf(c, f, leaves)| == |FittingLeaves(c, f, leaves)|
  {
    OutputsCount(c, f, leaves);
    var fitting := FittingLeaves(c, f, leaves);
    var batches := Numbered(BatchesOf(c, f, leaves), first, createdAt);
    seq(|fitting|, i requires 0 <= i < |fitting| => Committed(batches[i], fitting[i], c))
  }

  ghost function NewDropped(c: Config, f: Format, invalid: seq<nat>, leaves: seq<seq<Decoded>>): map<nat, Drop>
    requires LeavesOk(c, f, leaves)
  {
    var rejected := RejectedIds(RejectsOf(c, f, leaves));
    map id | id in (set x | x in invalid) + rejected :: if id in rejected then Oversized(c) else Invalid
  }

  /** The batcher's step on the snapshot it read; the commit is one transaction. */
  ghost function FlushSnapshot(f: Format, w: World, now: nat, force: bool, createdAt: nat, storeFails: bool): World
    requires w.session.Some? && w.snapshot.Some?
  {
    var c, read := w.session.value, w.snapshot.value;
    var idle := w.(snapshot := None);
    match PlanOf(c, f, read, now, force)
    case Flush(len, _, invalid, leaves) =>
      FlushSound(c, f, read, now, force);
      (match Commit(w.store, Sequences(read[..len]), BatchesOf(c, f, leaves), createdAt)
       case Err(_) => idle
       case Ok(store) =>
         if storeFails then idle
         else idle.(store := store,
                    committed := w.committed + NewCommitted(c, f, leaves, w.store.nextId, createdAt),
                    dropped := w.dropped + NewDropped(c, f, invalid, leaves)))
    case _ => idle
  }

  ghost function SubmitHead(w: World, page: seq<Batch>, outcome: Submission): World
    requires page != []
  {
    var after := w.ledger + [FinalOf(page[0], w.store.format)];
    if |page[0].payload| > MAX_PAYLOAD_SIZE then w.(phase := Halted)
    else
      match outcome
      case Success => w.(ledger := after, phase := Confirming(page))
      case Transient(took) => w.(ledger := if took then after else w.ledger)
      case Permanent(took) => w.(ledger := if took then after else w.ledger, phase := Halted)
      case Abandoned(took) => w.(ledger := if took then after else w.ledger, phase := Halted)
  }

  ghost function RemoveHead(w: World, page: seq<Batch>, outcome: Removal): World
    requires page != []
  {
    var removed := Confirm(w.store, page[0].id);
    match outcome
    case Removed => w.(store := removed, phase := if |page| == 1 then Waiting else Submitting(page[1..]))
    case RemovalRetry(took) => w.(store := if took then removed else w.store)
    case RemovalAbandoned(took) => w.(store := if took then removed else w.store, phase := Halted)
  }

  ghost function StartSession(f: Format, w: World, c: Config): World {
    var (outcome, store) := Reconcile(w.store, f.describe(c.compression));
    if outcome.Incompatible? then w
    else w.(store := store, session := Some(c), phase := Waiting)
  }

  /** One step; an action that is not enabled changes nothing. */
  ghost function Step(f: Format, w: World, a: Action): World {
    match a
    case Pushing(receivedAt, envelope) =>
      if w.session.None? then w
      else
        var store := Push(w.store, receivedAt, envelope);
        w.(store := store, pushed := w.pushed + [store.pending[|store.pending| - 1]])
    case Reading =>
      if w.session.None? then w
      else w.(snapshot := Some(Take(w.store.pending, w.session.value.maxMessages)))
    case Flushing(now, force, createdAt, storeFails) =>
      if w.session.None? || w.snapshot.None? then w
      else FlushSnapshot(f, w, now, force, createdAt, storeFails)
    case Loading =>
      if w.session.None? || !w.phase.Waiting? || w.store.ready == [] then w
      else w.(phase := Submitting(Take(w.store.ready, READY_PAGE)))
    case Attempting(outcome) =>
      if w.phase.Submitting? && w.phase.page != [] then SubmitHead(w, w.phase.page, outcome) else w
    case Cleaning(outcome) =>
      if w.phase.Confirming? && w.phase.page != [] then RemoveHead(w, w.phase.page, outcome) else w
    case Crashing =>
      w.(session := None, snapshot := None, phase := Offline)
    case Starting(c) =>
      if w.session.Some? || !ValidConfig(c) then w else StartSession(f, w, c)
  }

  /**
   * A start opens a session exactly with a valid configuration and no ready batches under another
   * label; then the label is stored and nothing else in the store has changed.
   */
  lemma {:induction false} StartExactly(f: Format, w: World, c: Config)
    requires w.session.None?
    ensures var d := f.describe(c.compression);
            var refused := w.store.format.Some? && w.store.format.value != d && w.store.ready != [];
            Step(f, w, Starting(c))
              == if !ValidConfig(c) || refused then w
                 else w.(store := w.store.(format := Some(d)), session := Some(c), phase := Waiting)
  {
    ReconcileExactly(w.store, f.describe(c.compression));
  }

  ghost function Run(f: Format, w: World, actions: seq<Action>): World {
    if actions == [] then w
    else Step(f, Run(f, w, actions[..|actions| - 1]), actions[|actions| - 1])
  }

  /* ---------- the log with adjacent repeats of one batch collapsed ---------- */

  ghost function Collapse(log: seq<Finalized>): seq<Finalized> {
    if log == [] then []
    else
      var front, last := log[..|log| - 1], log[|log| - 1];
      if front != [] && front[|front| - 1].id == last.id then Collapse(front) else Collapse(front) + [last]
  }

  lemma {:induction false} CollapseLast(log: seq<Finalized>)
    requires log != []
    ensures Collapse(log) != [] && Collapse(log)[|Collapse(log)| - 1].id == log[|log| - 1].id
  {
    var front := log[..|log| - 1];
    if front != [] {
      CollapseLast(front);
    }
  }

  lemma {:induction false} CollapseSnoc(log: seq<Finalized>, x: Finalized)
    ensures Collapse(log + [x]) == if log != [] && log[|log| - 1].id == x.id then Collapse(log) else Collapse(log) + [x]
  {
    assert (log + [x])[..|log|] == log;
  }

  /* ---------- invariant ---------- */

  ghost function Consumed(w: World): int {
    |w.pushed| - |w.store.pending|
  }

  ghost function Confirmed(w: World): int {
    |w.committed| - |w.store.ready|
  }

  ghost function Members(cs: seq<Committed>): (r: seq<seq<Decoded>>)
    ensures |r| == |cs|
  {
    seq(|cs|, i requires 0 <= i < |cs| => cs[i].members)
  }

  /** The finalized entries that anchoring everything once, in commit order, would leave. */
  ghost function Finals(f: Format, cs: seq<Committed>): (r: seq<Finalized>)
    ensures |r| == |cs|
  {
    seq(|cs|, i requires 0 <= i < |cs| =>
      FinalOf(cs[i].batch, Some(f.describe(cs[i].config.compression))))
  }

  ghost predicate DropJustified(f: Format, m: Message, why: Drop) {
    match why
    case Invalid => f.decode(m.envelope).None?
    case Oversized(c) =>
      && ValidConfig(c)
      && f.decode(m.envelope).Some?
      && var alone := [Decoded(m.sequence, f.decode(m.envelope).value)];
         Encodes(c, f, alone) && !Fits(c, f, alone)
  }

  /** Sequence numbers are positions in push order and the pending queue is a suffix of it. */
  ghost predicate QueueInv(pending: seq<Message>, next: nat, pushed: seq<Message>) {
    && |pending| <= |pushed|
    && pending == pushed[|pushed| - |pending|..]
    && next == |pushed|
    && forall i | 0 <= i < |pushed| :: pushed[i].sequence == i
  }

  /** What happened to the first `n` pushed messages. */
  ghost predicate FatesInv(f: Format, pushed: seq<Message>, n: int, members: seq<seq<Decoded>>, dropped: map<nat, Drop>)
    {
    && 0 <= n <= |pushed|
    && (forall id | id in dropped :: id < n && DropJustified(f, pushed[id], dropped[id]))
    && (forall i | 0 <= i < n && f.decode(pushed[i].envelope).None? :: i in dropped)
    && Flatten(members) == Keep(DecodeAll(f, pushed[..n]), dropped.Keys)
  }

  ghost predicate WellBuilt(f: Format, c: Committed) {
    && ValidConfig(c.config)
    && c.members != []
    && Fits(c.config, f, c.members)
    && c.batch.payload == f.encode(c.config.compression, c.members).value.1
    && c.batch.count == |c.members| % U32_LIMIT
  }

  ghost predicate BatchesInv(f: Format, ready: seq<Batch>, nextId: nat, format: Option<Descriptor>,
                             committed: seq<Committed>)
  {
    && |ready| <= |committed|
    && nextId == |committed|
    && (forall j | 0 <= j < |committed| :: committed[j].batch.id == j && WellBuilt(f, committed[j]))
    && (forall j | 0 <= j < |ready| :: ready[j] == committed[|committed| - |ready| + j].batch)
    && (forall j | |committed| - |ready| <= j < |committed| ::
          format == Some(f.describe(committed[j].config.compression)))
  }

  ghost predicate SessionInv(f: Format, session: Option<Config>, snapshot: Option<seq<Message>>, phase: Phase,
                             format: Option<Descriptor>, pending: seq<Message>)
  {
    && (session.Some? ==> ValidConfig(session.value) && format == Some(f.describe(session.value.compression)))
    && (session.None? ==> snapshot.None? && phase.Offline?)
    && (snapshot.Some? ==> snapshot.value <= pending)
  }

  /** The collapsed ledger is commit order up to the `confirmed` batches or one further. */
  ghost predicate LedgerInv(ledger: seq<Finalized>, finals: seq<Finalized>, confirmed: int) {
    && (forall e | e in ledger :: e in finals)
    && 0 <= confirmed <= |Collapse(ledger)| <= confirmed + 1
    && Collapse(ledger) <= finals
  }

  ghost predicate PhaseInv(phase: Phase, ledger: seq<Finalized>, ready: seq<Batch>, committed: seq<Committed>,
                           format: Option<Descriptor>)
  {
    match phase
    case Submitting(page) => page != [] && page <= ready
    case Confirming(page) =>
      && page != [] && ledger != [] && ledger[|ledger| - 1] == FinalOf(page[0], format)
      && (|| page <= ready
          || (|ready| < |committed| && page[0] == committed[|committed| - |ready| - 1].batch
              && page[1..] <= ready))
    case _ => true
  }

  ghost predicate Inv(f: Format, w: World) {
    && QueueInv(w.store.pending, w.store.nextSequence, w.pushed)
    && FatesInv(f, w.pushed, Consumed(w), Members(w.committed), w.dropped)
    && BatchesInv(f, w.store.ready, w.store.nextId, w.store.format, w.committed)
    && SessionInv(f, w.session, w.snapshot, w.phase, w.store.format, w.store.pending)
    && LedgerInv(w.ledger, Finals(f, w.committed), Confirmed(w))
    && PhaseInv(w.phase, w.ledger, w.store.ready, w.committed, w.store.format)
  }

  /* ---------- preservation ---------- */

  lemma {:induction false} PushFates(f: Format, pushed: seq<Message>, m: Message, n: int, members: seq<seq<Decoded>>,
                                     dropped: map<nat, Drop>)
    requires FatesInv(f, pushed, n, members, dropped)
    ensures FatesInv(f, pushed + [m], n, members, dropped)
  {
    assert (pushed + [m])[..n] == pushed[..n];
  }

  lemma {:induction false} PushKeepsInv(f: Format, w: World, receivedAt: nat, envelope: seq<byte>)
    requires Inv(f, w)
    ensures Inv(f, Step(f, w, Pushing(receivedAt, envelope)))
  {
    if w.session.Some? {
      var m := Message(w.store.nextSequence, receivedAt, envelope);
      PushFates(f, w.pushed, m, Consumed(w), Members(w.committed), w.dropped);
      assert (w.pushed + [m])[Consumed(w)..] == w.store.pending + [m];
    }
  }

  /** A flush of the next `len` messages accounts for each of them. */
  lemma {:induction false} FlushFates(f: Format, c: Config, pushed: seq<Message>, n: nat, len: nat,
                                      members: seq<seq<Decoded>>, dropped: map<nat, Drop>, leaves: seq<seq<Decoded>>)
    requires ValidConfig(c) && n + len <= |pushed|
    requires forall i | 0 <= i < |pushed| :: pushed[i].sequence == i
    requires FatesInv(f, pushed, n, members, dropped)
    requires LeavesOk(c, f, leaves) && Flatten(leaves) == DecodeAll(f, pushed[n..n + len])
    ensures FatesInv(f, pushed, n + len, members + FittingLeaves(c, f, leaves),
                     dropped + NewDropped(c, f, InvalidIds(f, pushed[n..n + len]), leaves))
  {
    hide DecodeAll, InvalidIds;
    var candidate := pushed[n..n + len];
    var added := NewDropped(c, f, InvalidIds(f, candidate), leaves);
    FlushKept(f, c, pushed, n, len, members, dropped, leaves);
    forall id | id in added ensures n <= id < n + len && DropJustified(f, pushed[id], added[id]) {
      FlushDropsJustified(f, c, candidate, leaves, id);
    }
    DecodeAllExact(f, candidate);
    forall i | 0 <= i < n + len && f.decode(pushed[i].envelope).None? ensures i in dropped + added {
      if n <= i {
        assert candidate[i - n] == pushed[i];
      }
    }
  }

  lemma {:induction false} FlushKept(f: Format, c: Config, pushed: seq<Message>, n: nat, len: nat,
                                     members: seq<seq<Decoded>>, dropped: map<nat, Drop>, leaves: seq<seq<Decoded>>)
    requires n + len <= |pushed|
    requires forall i | 0 <= i < |pushed| :: pushed[i].sequence == i
    requires forall id | id in dropped :: id < n
    requires Flatten(members) == Keep(DecodeAll(f, pushed[..n]), dropped.Keys)
    requires LeavesOk(c, f, leaves) && Flatten(leaves) == DecodeAll(f, pushed[n..n + len])
    ensures Flatten(members + FittingLeaves(c, f, leaves))
         == Keep(DecodeAll(f, pushed[..n + len]),
                 (dropped + NewDropped(c, f, InvalidIds(f, pushed[n..n + len]), leaves)).Keys)
  {
    hide DecodeAll, InvalidIds, Keep, Flatten;
    var earlier, candidate := pushed[..n], pushed[n..n + len];
    var before, batch := DecodeAll(f, earlier), DecodeAll(f, candidate);
    var invalid := set x | x in InvalidIds(f, candidate);
    var rejected := RejectedIds(RejectsOf(c, f, leaves));
    DecodeAllRange(f, earlier, 0);
    DecodeAllRange(f, candidate, n);
    FlushSurvivors(f, c, before, batch, members, dropped.Keys, invalid, leaves);
    assert Keep(before + batch, dropped.Keys + (invalid + rejected)) == Keep(DecodeAll(f, pushed[..n + len]),
        (dropped + NewDropped(c, f, InvalidIds(f, candidate), leaves)).Keys) by
    {
      assert pushed[..n + len] == earlier + candidate;
      DecodeAllAppend(f, earlier, candidate);
      var added := NewDropped(c, f, InvalidIds(f, candidate), leaves);
      assert added.Keys == invalid + rejected;
      assert (dropped + added).Keys == dropped.Keys + (invalid + rejected);
    }
  }

  /** `before` and `batch` are the decodable messages consumed earlier and by this flush. */
  lemma {:induction false} FlushSurvivors(f: Format, c: Config, before: seq<Decoded>, batch: seq<Decoded>,
                                          members: seq<seq<Decoded>>, dropped: set<nat>, invalid: set<nat>,
                                          leaves: seq<seq<Decoded>>)
    requires LeavesOk(c, f, leaves) && Flatten(leaves) == batch && DistinctIds(batch)
    requires Flatten(members) == Keep(before, dropped)
    requires forall d | d in before :: d.id !in invalid && d.id !in Ids(batch)
    requires forall d | d in batch :: d.id !in dropped && d.id !in invalid
    ensures Flatten(members + FittingLeaves(c, f, leaves))
         == Keep(before + batch, dropped + (invalid + RejectedIds(RejectsOf(c, f, leaves))))
  {
    FlattenAppend(members, FittingLeaves(c, f, leaves));
    RejectedIdsBound(c, f, leaves);
    FittingIsKept(c, f, leaves);
    KeepExtend(before, batch, dropped, invalid, RejectedIds(RejectsOf(c, f, leaves)));
  }

  lemma {:induction false} FlushDropsJustified(f: Format, c: Config, candidate: seq<Message>, leaves: seq<seq<Decoded>>,
                                               id: nat)
    requires ValidConfig(c) && LeavesOk(c, f, leaves) && Flatten(leaves) == DecodeAll(f, candidate)
    requires id in NewDropped(c, f, InvalidIds(f, candidate), leaves)
    ensures exists m :: m in candidate && m.sequence == id
                     && DropJustified(f, m, NewDropped(c, f, InvalidIds(f, candidate), leaves)[id])
  {
    DecodeAllExact(f, candidate);
    if id in RejectedIds(RejectsOf(c, f, leaves)) {
      RejectedIsLeaf(c, f, leaves, id);
      var d: Decoded :| d in Flatten(leaves) && d.id == id && Encodes(c, f, [d]) && !Fits(c, f, [d]);
      var m :| m in candidate && m.sequence == d.id && f.decode(m.envelope) == Some(d.envelope);
      assert Decoded(m.sequence, f.decode(m.envelope).value) == d;
    }
  }

  /** The batches a flush adds are well built, labelled with the session's format and numbered on. */
  lemma {:induction false} FlushBatches(f: Format, c: Config, ready: seq<Batch>, format: Option<Descriptor>,
                                        committed: seq<Committed>, leaves: seq<seq<Decoded>>, createdAt: nat)
    requires ValidConfig(c) && format == Some(f.describe(c.compression)) && LeavesOk(c, f, leaves)
    requires BatchesInv(f, ready, |committed|, format, committed)
    ensures BatchesInv(f, ready + Numbered(BatchesOf(c, f, leaves), |committed|, createdAt),
                       |committed| + |BatchesOf(c, f, leaves)|, format,
                       committed + NewCommitted(c, f, leaves, |committed|, createdAt))
  {
    hide Encodes;
    var added := NewCommitted(c, f, leaves, |committed|, createdAt);
    forall k | 0 <= k < |added|
      ensures added[k].batch.id == |committed| + k && WellBuilt(f, added[k]) && added[k].config == c
      ensures added[k].batch == Numbered(BatchesOf(c, f, leaves), |committed|, createdAt)[k]
    {
      BatchOfLeaf(c, f, leaves, k);
    }
  }

  lemma {:induction false} LedgerGrows(f: Format, ledger: seq<Finalized>, committed: seq<Committed>,
                                       added: seq<Committed>, confirmed: int)
    requires LedgerInv(ledger, Finals(f, committed), confirmed)
    ensures LedgerInv(ledger, Finals(f, committed + added), confirmed)
  {
    hide Collapse;
    assert Finals(f, committed + added) == Finals(f, committed) + Finals(f, added);
  }

  /** The world after a flush that commits. */
  ghost function Flushed(f: Format, w: World, c: Config, len: nat, invalid: seq<nat>, leaves: seq<seq<Decoded>>,
                         createdAt: nat): World
    requires LeavesOk(c, f, leaves) && len <= |w.store.pending|
  {
    w.(snapshot := None,
       store := w.store.(pending := w.store.pending[len..],
                         ready := w.store.ready + Numbered(BatchesOf(c, f, leaves), w.store.nextId, createdAt),
                         nextId := w.store.nextId + |BatchesOf(c, f, leaves)|),
       committed := w.committed + NewCommitted(c, f, leaves, w.store.nextId, createdAt),
       dropped := w.dropped + NewDropped(c, f, invalid, leaves))
  }

  lemma {:induction false} FlushIsFlushed(f: Format, w: World, now: nat, force: bool, createdAt: nat)
    requires w.session.Some? && w.snapshot.Some?
    requires QueueInv(w.store.pending, w.store.nextSequence, w.pushed) && w.snapshot.value <= w.store.pending
    requires PlanOf(w.session.value, f, w.snapshot.value, now, force).Flush?
    ensures var p := PlanOf(w.session.value, f, w.snapshot.value, now, force);
            var n := Consumed(w);
            && LeavesOk(w.session.value, f, p.leaves) && p.len <= |w.store.pending|
            && p.invalid == InvalidIds(f, w.pushed[n..n + p.len])
            && Flatten(p.leaves) == DecodeAll(f, w.pushed[n..n + p.len])
            && FlushSnapshot(f, w, now, force, createdAt, false)
               == Flushed(f, w, w.session.value, p.len, p.invalid, p.leaves, createdAt)
  {
    hide DecodeAll, InvalidIds, BatchesOf, NewCommitted, NewDropped;
    var c, read := w.session.value, w.snapshot.value;
    FlushSound(c, f, read, now, force);
    var p := PlanOf(c, f, read, now, force);
    var n := Consumed(w);
    assert read[..p.len] == w.store.pending[..p.len] == w.pushed[n..n + p.len];
    CommitPrefix(w.store, p.len, BatchesOf(c, f, p.leaves), createdAt);
  }

  lemma {:induction false} FlushedKeepsInv(f: Format, w: World, len: nat, leaves: seq<seq<Decoded>>, createdAt: nat)
    requires Inv(f, w) && w.session.Some? && len <= |w.store.pending|
    requires var n := Consumed(w);
             LeavesOk(w.session.value, f, leaves) && Flatten(leaves) == DecodeAll(f, w.pushed[n..n + len])
    ensures var n := Consumed(w);
            Inv(f, Flushed(f, w, w.session.value, len, InvalidIds(f, w.pushed[n..n + len]), leaves, createdAt))
  {
    hide DecodeAll, InvalidIds, Flatten, BatchesOf, NewDropped, NewCommitted, Members, QueueInv, FatesInv, BatchesInv,
        LedgerInv,
      PhaseInv;
    var c, n := w.session.value, Consumed(w);
    QueueShrinks(w.store.pending, w.store.nextSequence, w.pushed, len);
    var w' := Flushed(f, w, c, len, InvalidIds(f, w.pushed[n..n + len]), leaves, createdAt);
    var added := NewCommitted(c, f, leaves, w.store.nextId, createdAt);
    FlushFates(f, c, w.pushed, n, len, Members(w.committed), w.dropped, leaves);
    MembersFlushed(f, c, w.committed, leaves, w.store.nextId, createdAt);
    BatchesNumbered(f, w.store.ready, w.store.nextId, w.store.format, w.committed);
    FlushBatches(f, c, w.store.ready, w.store.format, w.committed, leaves, createdAt);
    LedgerGrows(f, w.ledger, w.committed, added, Confirmed(w));
    PhaseFrame(w.phase, w.ledger, w.store.ready, w.committed, w'.store.ready, w'.committed, w.store.format);
  }

  lemma {:induction false} QueueShrinks(pending: seq<Message>, next: nat, pushed: seq<Message>, len: nat)
    requires QueueInv(pending, next, pushed) && len <= |pending|
    ensures QueueInv(pending[len..], next, pushed)
    ensures |pending| <= |pushed| && forall i | 0 <= i < |pushed| :: pushed[i].sequence == i
  {
    assert pending[len..] == pushed[|pushed| - |pending| + len..];
  }

  lemma {:induction false} MembersFlushed(f: Format, c: Config, committed: seq<Committed>, leaves: seq<seq<Decoded>>,
                                          first: nat, createdAt: nat)
    requires LeavesOk(c, f, leaves)
    ensures Members(committed + NewCommitted(c, f, leaves, first, createdAt))
         == Members(committed) + FittingLeaves(c, f, leaves)
  {
  }

  lemma {:induction false} BatchesNumbered(f: Format, ready: seq<Batch>, nextId: nat, format: Option<Descriptor>,
                                           committed: seq<Committed>)
    requires BatchesInv(f, ready, nextId, format, committed)
    ensures nextId == |committed| && |ready| <= |committed|
  {
  }

  lemma {:induction false} PhaseFrame(phase: Phase, ledger: seq<Finalized>, ready: seq<Batch>,
                                      committed: seq<Committed>, ready': seq<Batch>, committed': seq<Committed>,
                                      format: Option<Descriptor>)
    requires PhaseInv(phase, ledger, ready, committed, format)
    requires ready <= ready' && committed <= committed' && |ready'| - |ready| == |committed'| - |committed|
    ensures PhaseInv(phase, ledger, ready', committed', format)
  {
  }

  lemma {:induction false} FlushKeepsInv(f: Format, w: World, now: nat, force: bool, createdAt: nat, storeFails: bool)
    requires Inv(f, w) && w.session.Some? && w.snapshot.Some?
    ensures Inv(f, FlushSnapshot(f, w, now, force, createdAt, storeFails))
  {
    hide DecodeAll, InvalidIds, Flushed, FatesInv, BatchesInv, LedgerInv, PhaseInv;
    var p := PlanOf(w.session.value, f, w.snapshot.value, now, force);
    if p.Flush? && !storeFails {
      FlushIsFlushed(f, w, now, force, createdAt);
      FlushedKeepsInv(f, w, p.len, p.leaves, createdAt);
    }
  }

  lemma {:induction false} SubmitLedger(ledger: seq<Finalized>, finals: seq<Finalized>, confirmed: int)
    requires LedgerInv(ledger, finals, confirmed) && confirmed < |finals|
    requires forall j | 0 <= j < |finals| :: finals[j].id == j
    ensures LedgerInv(ledger + [finals[confirmed]], finals, confirmed)
    ensures |Collapse(ledger + [finals[confirmed]])| == confirmed + 1
  {
    CollapseSnoc(ledger, finals[confirmed]);
    if ledger != [] {
      CollapseLast(ledger);
    }
  }

  lemma {:induction false} FinalsNumbered(f: Format, committed: seq<Committed>)
    requires forall j | 0 <= j < |committed| :: committed[j].batch.id == j
    ensures forall j | 0 <= j < |Finals(f, committed)| :: Finals(f, committed)[j].id == j
  {
    forall j | 0 <= j < |Finals(f, committed)| ensures Finals(f, committed)[j].id == j {
      var c := committed[j];
      assert Finals(f, committed)[j] == FinalOf(c.batch, Some(f.describe(c.config.compression)));
      assert c.batch.id == j;
    }
  }

  /** The oldest ready batch is the next one the ledger lacks. */
  lemma {:induction false} HeadIsNext(f: Format, ready: seq<Batch>, nextId: nat, format: Option<Descriptor>,
                                      committed: seq<Committed>)
    requires BatchesInv(f, ready, nextId, format, committed) && ready != []
    ensures FinalOf(ready[0], format) == Finals(f, committed)[|committed| - |ready|]
  {
    hide WellBuilt;
    var k := |committed| - |ready|;
    assert ready[0] == committed[k + 0].batch;
  }

  lemma {:induction false} SubmitKeepsInv(f: Format, w: World, outcome: Submission)
    requires Inv(f, w) && w.phase.Submitting?
    ensures Inv(f, SubmitHead(w, w.phase.page, outcome))
  {
    hide FatesInv, QueueInv, WellBuilt, LedgerInv;
    var page := w.phase.page;
    HeadIsNext(f, w.store.ready, w.store.nextId, w.store.format, w.committed);
    assert page[0] == w.store.ready[0];
    FinalsNumbered(f, w.committed);
    SubmitLedger(w.ledger, Finals(f, w.committed), Confirmed(w));
  }

  /** With the last entry that of batch `confirmed`, one more batch counts as delivered. */
  lemma {:induction false} ConfirmLedger(ledger: seq<Finalized>, finals: seq<Finalized>, confirmed: int)
    requires LedgerInv(ledger, finals, confirmed) && confirmed < |finals|
    requires forall j | 0 <= j < |finals| :: finals[j].id == j
    requires ledger != [] && ledger[|ledger| - 1] == finals[confirmed]
    ensures LedgerInv(ledger, finals, confirmed + 1)
  {
    CollapseLast(ledger);
  }

  lemma {:induction false} PopReady(f: Format, ready: seq<Batch>, nextId: nat, format: Option<Descriptor>,
                                    committed: seq<Committed>)
    requires BatchesInv(f, ready, nextId, format, committed) && ready != []
    ensures BatchesInv(f, ready[1..], nextId, format, committed)
    ensures ready[0] == committed[|committed| - |ready|].batch
  {
  }

  /** Ready ids increase, and the batch confirmed last is not among them. */
  lemma {:induction false} ReadyIds(f: Format, ready: seq<Batch>, nextId: nat, format: Option<Descriptor>,
                                    committed: seq<Committed>)
    requires BatchesInv(f, ready, nextId, format, committed)
    ensures |ready| <= |committed| && forall j | 0 <= j < |committed| :: committed[j].batch.id == j
    ensures forall i, j | 0 <= i < j < |ready| :: ready[i].id < ready[j].id
    ensures |ready| < |committed| ==> forall b | b in ready :: b.id != committed[|committed| - |ready| - 1].batch.id
  {
    hide WellBuilt;
  }

  /** While a session runs the anchor may be anywhere. */
  lemma {:induction false} SessionPhase(f: Format, w: World, phase: Phase)
    requires SessionInv(f, w.session, w.snapshot, w.phase, w.store.format, w.store.pending) && !w.phase.Offline?
    ensures SessionInv(f, w.session, w.snapshot, phase, w.store.format, w.store.pending)
  {
  }

  /** Where the anchor may be once the head of its page is removed. */
  ghost predicate AfterRemoval(page: seq<Batch>, phase: Phase)
    requires page != []
  {
    phase == Halted || phase == Confirming(page) || phase == if |page| == 1 then Waiting else Submitting(page[1..])
  }

  /** The finalized head leaves the ready queue. */
  lemma {:induction false} PopKeepsInv(f: Format, w: World, phase: Phase)
    requires Inv(f, w) && w.phase.Confirming? && w.phase.page != [] && w.phase.page <= w.store.ready
    requires AfterRemoval(w.phase.page, phase)
    ensures Inv(f, w.(store := w.store.(ready := w.store.ready[1..]), phase := phase))
  {
    hide FatesInv, QueueInv, SessionInv, BatchesInv, LedgerInv, Finals;
    var page, ready := w.phase.page, w.store.ready;
    SessionPhase(f, w, phase);
    ReadyIds(f, ready, w.store.nextId, w.store.format, w.committed);
    PopReady(f, ready, w.store.nextId, w.store.format, w.committed);
    HeadIsNext(f, ready, w.store.nextId, w.store.format, w.committed);
    assert page[0] == ready[0] && page[1..] <= ready[1..];
    FinalsNumbered(f, w.committed);
    ConfirmLedger(w.ledger, Finals(f, w.committed), Confirmed(w));
  }

  /** The anchor moves on without a change of the store. */
  lemma {:induction false} MoveOnKeepsInv(f: Format, w: World, phase: Phase)
    requires Inv(f, w) && w.phase.Confirming? && w.phase.page != []
    requires || phase == Halted || phase == w.phase
             || (!(w.phase.page <= w.store.ready) && AfterRemoval(w.phase.page, phase))
    ensures Inv(f, w.(phase := phase))
  {
    hide FatesInv, QueueInv, SessionInv, BatchesInv, LedgerInv, Finals;
    SessionPhase(f, w, phase);
  }

  lemma {:induction false} RemoveKeepsInv(f: Format, w: World, outcome: Removal)
    requires Inv(f, w) && w.phase.Confirming?
    ensures Inv(f, RemoveHead(w, w.phase.page, outcome))
  {
    hide FatesInv, QueueInv, SessionInv, BatchesInv, LedgerInv, Finals;
    var page, ready := w.phase.page, w.store.ready;
    var w' := RemoveHead(w, page, outcome);
    ReadyIds(f, ready, w.store.nextId, w.store.format, w.committed);
    if page <= ready {
      assert page[0] == ready[0];
      WithoutFirstBatch(ready);
      if outcome.Removed? || outcome.took {
        PopKeepsInv(f, w, w'.phase);
      } else {
        MoveOnKeepsInv(f, w, w'.phase);
      }
    } else {
      WithoutAbsentBatch(ready, page[0].id);
      MoveOnKeepsInv(f, w, w'.phase);
    }
  }

  lemma {:induction false} StartKeepsInv(f: Format, w: World, c: Config)
    requires Inv(f, w) && w.session.None? && ValidConfig(c)
    ensures Inv(f, StartSession(f, w, c))
  {
  }

  lemma {:induction false} ReadKeepsInv(f: Format, w: World)
    requires Inv(f, w)
    ensures Inv(f, Step(f, w, Reading))
  {
    if w.session.Some? {
      assert Take(w.store.pending, w.session.value.maxMessages) <= w.store.pending;
    }
  }

  lemma {:induction false} LoadKeepsInv(f: Format, w: World)
    requires Inv(f, w)
    ensures Inv(f, Step(f, w, Loading))
  {
    assert Take(w.store.ready, READY_PAGE) <= w.store.ready;
  }

  lemma {:induction false} CrashKeepsInv(f: Format, w: World)
    requires Inv(f, w)
    ensures Inv(f, Step(f, w, Crashing))
  {
    hide FatesInv, QueueInv, BatchesInv, LedgerInv;
  }

  lemma {:induction false} StepKeepsInv(f: Format, w: World, a: Action)
    requires Inv(f, w)
    ensures Inv(f, Step(f, w, a))
  {
    match a
    case Pushing(receivedAt, envelope) => PushKeepsInv(f, w, receivedAt, envelope);
    case Reading => ReadKeepsInv(f, w);
    case Flushing(now, force, createdAt, storeFails) =>
      if w.session.Some? && w.snapshot.Some? {
        FlushKeepsInv(f, w, now, force, createdAt, storeFails);
      }
    case Loading => LoadKeepsInv(f, w);
    case Attempting(outcome) =>
      if w.phase.Submitting? {
        SubmitKeepsInv(f, w, outcome);
      }
    case Cleaning(outcome) =>
      if w.phase.Confirming? {
        RemoveKeepsInv(f, w, outcome);
      }
    case Crashing => CrashKeepsInv(f, w);
    case Starting(c) =>
      if w.session.None? && ValidConfig(c) {
        StartKeepsInv(f, w, c);
      }
  }

  /** Every reachable state satisfies the invariant. */
  lemma {:induction false} RunKeepsInv(f: Format, actions: seq<Action>)
    ensures Inv(f, Run(f, INITIAL, actions))
  {
    if actions == [] {
      assert Flatten(Members(INITIAL.committed)) == [];
    } else {
      RunKeepsInv(f, actions[..|actions| - 1]);
      StepKeepsInv(f, Run(f, INITIAL, actions[..|actions| - 1]), actions[|actions| - 1]);
    }
  }
}
