/** The worker between the pending queue and the ready queue. */
module Batcher {
  import opened Prelude
  import opened Wire
  import opened Queues
  import opened Packing
  import opened Planning
  import opened RedbStore

  datatype BatchError = EncodingFailed | StoreFailed(cause: StoreError)

  datatype StepOutcome = NothingPending | NotDue(remaining: nat) | Flushed

  /** What packing collects: batches and rejections in message order, and how often it split. */
  class Packed {
    var batches: seq<Prepared>
    var rejected: seq<TooLarge>
    var splits: nat

    constructor ()
      ensures batches == [] && rejected == [] && splits == 0
    {
      batches, rejected, splits := [], [], 0;
    }
  }

  /** Add `messages` to `out` as one batch if they fit, else the two halves one after the other. */
  method PackInto(c: Config, f: Format, messages: seq<Decoded>, out: Packed) returns (ok: bool)
    requires messages != []
    modifies out
    ensures ok <==> Leaves(c, f, messages).Some?
    ensures ok ==> var leaves := Leaves(c, f, messages).value;
                   && LeavesOk(c, f, leaves)
                   && out.batches == old(out.batches) + BatchesOf(c, f, leaves)
                   && out.rejected == old(out.rejected) + RejectsOf(c, f, leaves)
                   && out.splits == old(out.splits) + |leaves| - 1
    ensures ok ==> |out.batches| + |out.rejected| - out.splits == old(|out.batches| + |out.rejected| - out.splits) + 1
    decreases |messages|
  {
    hide Leaves, LeavesOk, BatchesOf, RejectsOf;
    LeavesCases(c, f, messages);
    var encoded := f.encode(c.compression, messages);
    if encoded.None? {
      return false;
    }
    var (serialized, payload) := encoded.value;
    if |payload| <= c.maxSize {
      out.batches := out.batches + [Prepared(|messages| % U32_LIMIT, payload)];
      return true;
    }
    if |messages| == 1 {
      out.rejected := out.rejected + [TooLarge(messages[0].id, serialized, |payload|, c.maxSize, c.compression)];
      return true;
    }
    out.splits := out.splits + 1;
    var half := |messages| / 2;
    ok := PackInto(c, f, messages[..half], out);
    if ok {
      ok := PackInto(c, f, messages[half..], out);
    }
  }

  /** How the leaves of a set arise, and what they contribute. */
  lemma {:induction false} LeavesCases(c: Config, f: Format, ds: seq<Decoded>)
    requires ds != []
    ensures !Encodes(c, f, ds) ==> Leaves(c, f, ds).None?
    ensures Encodes(c, f, ds) && (Fits(c, f, ds) || |ds| == 1) ==>
              && Leaves(c, f, ds) == Some([ds]) && LeavesOk(c, f, [ds])
              && BatchesOf(c, f, [ds]) == (if Fits(c, f, ds) then [PreparedOf(c, f, ds)] else [])
              && RejectsOf(c, f, [ds]) == (if Fits(c, f, ds) then [] else [RejectOf(c, f, ds)])
    ensures Encodes(c, f, ds) && !Fits(c, f, ds) && |ds| > 1 ==>
              var l, r := Leaves(c, f, ds[..|ds| / 2]), Leaves(c, f, ds[|ds| / 2..]);
              && (Leaves(c, f, ds).Some? <==> l.Some? && r.Some?)
              && (l.Some? && r.Some? ==>
                    && Leaves(c, f, ds).value == l.value + r.value
                    && LeavesOk(c, f, l.value) && LeavesOk(c, f, r.value) && LeavesOk(c, f, l.value + r.value)
                    && BatchesOf(c, f, l.value + r.value) == BatchesOf(c, f, l.value) + BatchesOf(c, f, r.value)
                    && RejectsOf(c, f, l.value + r.value) == RejectsOf(c, f, l.value) + RejectsOf(c, f, r.value))
  {
    if Encodes(c, f, ds) && (Fits(c, f, ds) || |ds| == 1) {
      SingleLeaf(c, f, ds);
    } else if Encodes(c, f, ds) {
      var l, r := Leaves(c, f, ds[..|ds| / 2]), Leaves(c, f, ds[|ds| / 2..]);
      if l.Some? && r.Some? {
        LeavesPartition(c, f, ds[..|ds| / 2]);
        LeavesPartition(c, f, ds[|ds| / 2..]);
        OutputsAppend(c, f, l.value, r.value);
      }
    }
  }

  lemma {:induction false} SingleLeaf(c: Config, f: Format, ds: seq<Decoded>)
    requires ds != [] && Encodes(c, f, ds) && (Fits(c, f, ds) || |ds| == 1)
    ensures Leaves(c, f, ds) == Some([ds]) && LeavesOk(c, f, [ds])
    ensures BatchesOf(c, f, [ds]) == if Fits(c, f, ds) then [PreparedOf(c, f, ds)] else []
    ensures RejectsOf(c, f, [ds]) == if Fits(c, f, ds) then [] else [RejectOf(c, f, ds)]
  {
  }

  /** There are at most as many batches as messages and each count is a `u32`. */
  lemma {:induction false} BatchesBound(c: Config, f: Format, leaves: seq<seq<Decoded>>)
    requires LeavesOk(c, f, leaves)
    ensures |BatchesOf(c, f, leaves)| <= |Flatten(leaves)|
    ensures forall b | b in BatchesOf(c, f, leaves) :: b.count < U32_LIMIT
  {
    if leaves != [] {
      BatchesBound(c, f, leaves[1..]);
    }
  }

  /** What a successful step on `read` did to the store, given the clock reading the commit used. */
  ghost predicate StepDid(c: Config, f: Format, read: seq<Message>, before: Queues, after: Queues, now: nat,
                          force: bool, outcome: StepOutcome, createdAt: nat)
  {
    match PlanOf(c, f, read, now, force)
    case Idle => outcome == NothingPending && after == before
    case Wait(remaining) => outcome == NotDue(remaining) && after == before
    case Stuck => false
    case Flush(len, _, _, leaves) =>
      && outcome == Flushed
      && len <= |read| && LeavesOk(c, f, leaves)
      && Commit(before, Sequences(read[..len]), BatchesOf(c, f, leaves), createdAt) == Ok(after)
  }

  /** A flush moves a non-empty prefix out of the pending queue and only appends to the ready one. */
  lemma {:induction false} FlushShrinks(c: Config, f: Format, before: Queues, after: Queues, now: nat, force: bool,
                                        createdAt: nat)
    requires WellFormed(before) && c.maxMessages > 0
    requires StepDid(c, f, Take(before.pending, c.maxMessages), before, after, now, force, Flushed, createdAt)
    ensures |after.pending| < |before.pending|
    ensures IsSuffix(after.pending, before.pending)
    ensures before.ready <= after.ready
    ensures after.nextId + |after.pending| <= before.nextId + |before.pending|
  {
    var read := Take(before.pending, c.maxMessages);
    var p := PlanOf(c, f, read, now, force);
    FlushSound(c, f, read, now, force);
    assert read[..p.len] == before.pending[..p.len];
    CommitPrefix(before, p.len, BatchesOf(c, f, p.leaves), createdAt);
    BatchesBound(c, f, p.leaves);
    DecodeAllCount(f, read[..p.len]);
  }

  datatype Decision = Report(outcome: StepOutcome) | GiveUp | Replace(consumed: seq<nat>, prepared: seq<Prepared>)

  /** What a decision has to be under a plan. */
  ghost predicate Follows(c: Config, f: Format, pending: seq<Message>, p: Plan, d: Decision) {
    match p
    case Idle => d == Report(NothingPending)
    case Wait(remaining) => d == Report(NotDue(remaining))
    case Stuck => d == GiveUp
    case Flush(len, _, _, leaves) =>
      && len <= |pending| && LeavesOk(c, f, leaves)
      && d == Replace(Sequences(pending[..len]), BatchesOf(c, f, leaves))
  }

  /** The part of a step between reading the pending messages and committing. */
  method Decide(c: Config, f: Format, pending: seq<Message>, now: nat, force: bool) returns (d: Decision)
    ensures Follows(c, f, pending, PlanOf(c, f, pending, now, force), d)
    ensures d.Replace? ==> |d.prepared| <= |pending| && forall b | b in d.prepared :: b.count < U32_LIMIT
  {
    if pending == [] {
      return Report(NothingPending);
    }
    var selection := SelectLoop(c, pending, now);
    if selection.reason.None? && !force {
      var age := Elapsed(pending[0].receivedAt, now);
      return Report(NotDue(MaxAge(c) - Min(MaxAge(c), age)));
    }
    SelectLenBound(c, pending);
    var candidate := pending[..selection.len];
    var decoded, invalid := DecodeCandidate(f, candidate);
    var prepared, rejected, ok := Pack(c, f, decoded);
    if !ok {
      return GiveUp;
    }
    hide Leaves, Select, SelectLen, DecodeAll, InvalidIds, BatchesOf, Flatten;
    FlushSound(c, f, pending, now, force);
    BatchesBound(c, f, PlanOf(c, f, pending, now, force).leaves);
    DecodeAllCount(f, candidate);
    d := Replace(Sequences(candidate), prepared);
  }

  /** Encode `messages` into batches within the size limit. */
  method Pack(c: Config, f: Format, messages: seq<Decoded>)
    returns (batches: seq<Prepared>, rejected: seq<TooLarge>, ok: bool)
    ensures ok <==> LeavesOrNone(c, f, messages).Some?
    ensures ok ==> var leaves := LeavesOrNone(c, f, messages).value;
                   && LeavesOk(c, f, leaves)
                   && batches == BatchesOf(c, f, leaves) && rejected == RejectsOf(c, f, leaves)
  {
    var packed := new Packed();
    ok := true;
    if messages != [] {
      ok := PackInto(c, f, messages, packed);
    }
    batches, rejected := packed.batches, packed.rejected;
  }

  class Worker {
    const store: Store
    const config: Config
    const f: Format

    constructor (store: Store, config: Config, f: Format)
      ensures this.store == store && this.config == config && this.f == f
    {
      this.store, this.config, this.f := store, config, f;
    }

    /** Read what the next batch may be made of; `readable` says whether the disk lets the reading through. */
    method Load(readable: bool) returns (r: Result<seq<Message>, BatchError>)
      requires store.Valid()
      ensures r == if readable then Ok(Take(store.Contents().pending, config.maxMessages))
                   else Err(StoreFailed(Database))
    {
      hide View, Consistent;
      var loaded := store.PendingMessages(config.maxMessages, readable);
      r := if loaded.Ok? then Ok(loaded.value) else Err(StoreFailed(loaded.error));
    }

    /**
     * One step of the batcher, reading and committing with nothing in between: it fails exactly
     * where the disk refuses what is needed or the selection cannot be encoded.
     */
    method Step(now: nat, force: bool, readable: bool, writable: bool)
      returns (r: Result<StepOutcome, BatchError>, createdAt: nat)
      requires store.Valid()
      requires store.Contents().nextId + |store.Contents().pending| < U64_LIMIT
      modifies store
      ensures store.Valid()
      ensures r.Ok? ==> StepDid(config, f, Take(old(store.Contents()).pending, config.maxMessages),
                                old(store.Contents()),
                                store.Contents(), now, force, r.value, createdAt)
      ensures r.Err? ==> store.Contents() == old(store.Contents())
      ensures var plan := PlanOf(config, f, Take(old(store.Contents()).pending, config.maxMessages), now, force);
              && (r == Err(EncodingFailed) <==> readable && plan.Stuck?)
              && (r == Err(StoreFailed(Database)) <==> !readable || (plan.Flush? && !writable))
              && (r.Err? ==> r.error == EncodingFailed || r.error == StoreFailed(Database))
    {
      hide View, Consistent, StepDid, PlanOf;
      createdAt := 0;
      ghost var before := store.Contents();
      var loaded := Load(readable);
      if loaded.Err? {
        return Err(loaded.error), createdAt;
      }
      ViewWellFormed(store.pending, store.ready, store.meta);
      OwnReadCommits(config, f, before, now, force);
      r, createdAt := Finish(loaded.value, now, force, writable);
    }

    /**
     * Decide on what was read and commit; the store may have changed since. It fails exactly for a
     * selection that cannot be encoded, a disk that refuses, and messages no longer pending.
     */
    method Finish(read: seq<Message>, now: nat, force: bool, writable: bool)
      returns (r: Result<StepOutcome, BatchError>, createdAt: nat)
      requires store.Valid() && store.Contents().nextId + |read| < U64_LIMIT
      modifies store
      ensures store.Valid()
      ensures r.Ok? ==> StepDid(config, f, read, old(store.Contents()), store.Contents(), now, force, r.value,
                                createdAt)
      ensures r.Err? ==> store.Contents() == old(store.Contents())
      ensures r == Err(EncodingFailed) <==> PlanOf(config, f, read, now, force).Stuck?
      ensures r == Err(StoreFailed(Database)) <==> PlanOf(config, f, read, now, force).Flush? && !writable
      ensures r.Err? && r.error != EncodingFailed && r.error != StoreFailed(Database) ==>
                && PlanOf(config, f, read, now, force).Flush?
                && r.error == StoreFailed(MissingOf(old(store.Contents()), Selected(config, f, read, now, force)))
    {
      hide View, Consistent, PlanOf;
      createdAt := 0;
      var decision := Decide(config, f, read, now, force);
      match decision {
        case Report(outcome) =>
          return Ok(outcome), createdAt;
        case GiveUp =>
          return Err(EncodingFailed), createdAt;
        case Replace(consumed, prepared) =>
          var committed, at := store.CommitBatches(consumed, prepared, writable);
          createdAt := at;
          return if committed.Ok? then Ok(Flushed) else Err(StoreFailed(committed.error)), createdAt;
      }
    }

    /**
     * Step until nothing is due at `now`. The result is what the head of the queue still has to
     * wait, and `None` for an empty queue. `works` says that the disk lets everything through.
     */
    method FlushDue(now: nat, works: bool) returns (r: Result<Option<nat>, BatchError>, ghost did: seq<Flushing>)
      requires store.Valid() && ValidConfig(config)
      requires store.Contents().nextId + |store.Contents().pending| < U64_LIMIT
      modifies store
      ensures store.Valid()
      ensures Flushings(config, f, old(store.Contents()), false, did)
      ensures store.Contents() == AfterFlushings(old(store.Contents()), did) && forall d | d in did :: d.now == now
      ensures IsSuffix(store.Contents().pending, old(store.Contents().pending))
      ensures old(store.Contents().ready) <= store.Contents().ready
      ensures r == Ok(None) ==> store.Contents().pending == []
      ensures r.Ok? && r.value.Some? ==>
                var pending := store.Contents().pending;
                && 0 < |pending| < config.maxMessages
                && SelectLen(config, pending, 0) == |pending|
                && r.value.value > 0
                && r.value.value + Elapsed(pending[0].receivedAt, now) == MaxAge(config)
      ensures works && AllEncode(config, f, old(store.Contents()).pending) ==> r.Ok?
      ensures r.Err? ==> if works then r.error == EncodingFailed
                         else r.error == EncodingFailed || r.error == StoreFailed(Database)
    {
      hide View, Consistent, PlanOf, SelectLen, AllEncode, StepDid, Flushings, AfterFlushings, IsSuffix;
      ghost var first := store.Contents();
      WholeSuffix(first.pending);
      NoFlushings(config, f, first, false);
      did := [];
      while true
        invariant store.Valid()
        invariant store.Contents().nextId + |store.Contents().pending| < U64_LIMIT
        invariant IsSuffix(store.Contents().pending, first.pending)
        invariant first.ready <= store.Contents().ready
        invariant Flushings(config, f, first, false, did)
        invariant store.Contents() == AfterFlushings(first, did) && forall d | d in did :: d.now == now
        decreases |store.Contents().pending|
      {
        ghost var before := store.Contents();
        ViewWellFormed(store.pending, store.ready, store.meta);
        SuffixEncodes(config, f, first.pending, before.pending, now, false);
        var readable, writable := *, *;
        var step, createdAt := Step(now, false, works || readable, works || writable);
        if step.Err? {
          return Err(step.error), did;
        }
        ghost var read := Take(before.pending, config.maxMessages);
        match step.value {
          case Flushed =>
            FlushShrinks(config, f, before, store.Contents(), now, false, createdAt);
            SuffixOfSuffix(store.Contents().pending, before.pending, first.pending);
            FlushingsSnoc(config, f, first, false, did, Flushing(now, createdAt, store.Contents()));
            did := did + [Flushing(now, createdAt, store.Contents())];
          case NotDue(remaining) =>
            DidWait(config, f, read, before, store.Contents(), now, false, remaining, createdAt);
            assert read == before.pending;
            return Ok(Some(remaining)), did;
          case NothingPending =>
            DidNothing(config, f, read, before, store.Contents(), now, false, createdAt);
            return Ok(None), did;
        }
      }
    }

    /** Flush everything pending regardless of triggers. */
    method FlushAll(works: bool) returns (r: Result<(), BatchError>, ghost did: seq<Flushing>)
      requires store.Valid() && ValidConfig(config)
      requires store.Contents().nextId + |store.Contents().pending| < U64_LIMIT
      modifies store
      ensures store.Valid()
      ensures Flushings(config, f, old(store.Contents()), true, did)
      ensures store.Contents() == AfterFlushings(old(store.Contents()), did)
      ensures old(store.Contents().ready) <= store.Contents().ready
      ensures r.Ok? ==> store.Contents().pending == []
      ensures works && AllEncode(config, f, old(store.Contents()).pending) ==> r.Ok?
      ensures r.Err? ==> if works then r.error == EncodingFailed
                         else r.error == EncodingFailed || r.error == StoreFailed(Database)
    {
      hide View, Consistent, PlanOf, AllEncode, StepDid, Flushings, AfterFlushings, IsSuffix;
      ghost var first := store.Contents();
      WholeSuffix(first.pending);
      NoFlushings(config, f, first, true);
      did := [];
      while true
        invariant store.Valid()
        invariant store.Contents().nextId + |store.Contents().pending| < U64_LIMIT
        invariant IsSuffix(store.Contents().pending, first.pending)
        invariant first.ready <= store.Contents().ready
        invariant Flushings(config, f, first, true, did)
        invariant store.Contents() == AfterFlushings(first, did)
        decreases |store.Contents().pending|
      {
        ghost var before := store.Contents();
        ViewWellFormed(store.pending, store.ready, store.meta);
        var now := Now();
        SuffixEncodes(config, f, first.pending, before.pending, now, true);
        var readable, writable := *, *;
        var step, createdAt := Step(now, true, works || readable, works || writable);
        if step.Err? {
          return Err(step.error), did;
        }
        ghost var read := Take(before.pending, config.maxMessages);
        match step.value {
          case Flushed =>
            FlushShrinks(config, f, before, store.Contents(), now, true, createdAt);
            SuffixOfSuffix(store.Contents().pending, before.pending, first.pending);
            FlushingsSnoc(config, f, first, true, did, Flushing(now, createdAt, store.Contents()));
            did := did + [Flushing(now, createdAt, store.Contents())];
          case NotDue(remaining) =>
            DidWait(config, f, read, before, store.Contents(), now, true, remaining, createdAt);
          case NothingPending =>
            DidNothing(config, f, read, before, store.Contents(), now, true, createdAt);
            return Ok(()), did;
        }
      }
    }
  }

  /* ---------- when a step fails ---------- */

  /** The ids a flush takes out of the queue. */
  ghost function Selected(c: Config, f: Format, read: seq<Message>, now: nat, force: bool): seq<nat>
    requires PlanOf(c, f, read, now, force).Flush?
  {
    FlushSound(c, f, read, now, force);
    Sequences(read[..PlanOf(c, f, read, now, force).len])
  }

  /** The error naming the first of `ids` that is no longer pending, if there is one. */
  ghost function MissingOf(q: Queues, ids: seq<nat>): StoreError {
    match Consume(q.pending, ids)
    case Err(e) => e
    case Ok(_) => Database
  }

  /** Nothing that was read from the queue as it is can be missing from it. */
  lemma {:induction false} OwnReadCommits(c: Config, f: Format, q: Queues, now: nat, force: bool)
    requires WellFormed(q)
    ensures var read := Take(q.pending, c.maxMessages);
            PlanOf(c, f, read, now, force).Flush? ==> MissingOf(q, Selected(c, f, read, now, force)) == Database
  {
    var read := Take(q.pending, c.maxMessages);
    if PlanOf(c, f, read, now, force).Flush? {
      FlushSound(c, f, read, now, force);
      var len := PlanOf(c, f, read, now, force).len;
      assert read[..len] == q.pending[..len];
      CommitPrefix(q, len, [], 0);
    }
  }

  /** Every run of neighbours among the messages that decode can be encoded. */
  ghost predicate AllEncode(c: Config, f: Format, ms: seq<Message>) {
    AllRunsEncode(c, f, DecodeAll(f, ms))
  }

  ghost predicate AllRunsEncode(c: Config, f: Format, ds: seq<Decoded>) {
    forall i, j | 0 <= i < j <= |ds| :: Encodes(c, f, ds[i..j])
  }

  lemma {:induction false} SliceOfSlice<T>(s: seq<T>, lo: nat, hi: nat, i: nat, j: nat)
    requires lo <= hi <= |s| && i <= j <= hi - lo
    ensures s[lo..hi][i..j] == s[lo + i..lo + j]
  {
    forall k | 0 <= k < j - i ensures s[lo..hi][i..j][k] == s[lo + i..lo + j][k] {
      assert s[lo..hi][i..j][k] == s[lo..hi][i + k] == s[lo + i + k];
    }
  }

  lemma {:induction false} PartEncodes(c: Config, f: Format, ds: seq<Decoded>, lo: nat, hi: nat)
    requires lo <= hi <= |ds| && AllRunsEncode(c, f, ds)
    ensures AllRunsEncode(c, f, ds[lo..hi])
  {
    forall i, j | 0 <= i < j <= hi - lo ensures Encodes(c, f, ds[lo..hi][i..j]) {
      SliceOfSlice(ds, lo, hi, i, j);
      assert Encodes(c, f, ds[lo + i..lo + j]);
    }
  }

  /** Packing gives up only on a run of messages that cannot be encoded, and always on a whole input like that. */
  lemma {:induction false} PackingGivesUp(c: Config, f: Format, ds: seq<Decoded>)
    requires ds != []
    ensures AllRunsEncode(c, f, ds) ==> Leaves(c, f, ds).Some?
    ensures !Encodes(c, f, ds) ==> Leaves(c, f, ds).None?
    decreases |ds|
  {
    if AllRunsEncode(c, f, ds) {
      assert ds[0..|ds|] == ds;
      if !Fits(c, f, ds) && |ds| > 1 {
        var half := |ds| / 2;
        PartEncodes(c, f, ds, 0, half);
        PartEncodes(c, f, ds, half, |ds|);
        assert ds[0..half] == ds[..half] && ds[half..|ds|] == ds[half..];
        PackingGivesUp(c, f, ds[..half]);
        PackingGivesUp(c, f, ds[half..]);
      }
    }
  }

  /** Where all runs of messages encode, no step on what is left of them is stuck. */
  lemma {:induction false} SuffixEncodes(c: Config, f: Format, ms: seq<Message>, rest: seq<Message>, now: nat,
                                         force: bool)
    requires IsSuffix(rest, ms)
    ensures AllEncode(c, f, ms) ==> !PlanOf(c, f, Take(rest, c.maxMessages), now, force).Stuck?
  {
    var from := |ms| - |rest|;
    var read := Take(rest, c.maxMessages);
    if AllEncode(c, f, ms) && read != [] {
      SelectLenBound(c, read);
      var len := SelectLen(c, read, 0);
      var before, candidate, after := ms[..from], read[..len], ms[from + len..];
      assert ms == before + candidate + after;
      DecodeAllAppend(f, before + candidate, after);
      DecodeAllAppend(f, before, candidate);
      var lo := |DecodeAll(f, before)|;
      var hi := lo + |DecodeAll(f, candidate)|;
      PartEncodes(c, f, DecodeAll(f, ms), lo, hi);
      assert DecodeAll(f, ms)[lo..hi] == DecodeAll(f, candidate);
      if DecodeAll(f, candidate) != [] {
        PackingGivesUp(c, f, DecodeAll(f, candidate));
      }
    }
  }

  /* ---------- a run of flushes ---------- */

  ghost predicate IsSuffix(rest: seq<Message>, all: seq<Message>) {
    |rest| <= |all| && rest == all[|all| - |rest|..]
  }

  lemma {:induction false} WholeSuffix(all: seq<Message>)
    ensures IsSuffix(all, all)
  {
  }

  lemma {:induction false} SuffixOfSuffix(a: seq<Message>, b: seq<Message>, c: seq<Message>)
    requires IsSuffix(a, b) && IsSuffix(b, c)
    ensures IsSuffix(a, c)
  {
  }

  /** One flush: when it was decided, when it was committed, and the store after it. */
  datatype Flushing = Flushing(now: nat, createdAt: nat, after: Queues)

  ghost function AfterFlushings(before: Queues, did: seq<Flushing>): Queues {
    if did == [] then before else did[|did| - 1].after
  }

  /** Each flush did to the store what its step has to, starting from where the one before ended. */
  ghost predicate Flushings(c: Config, f: Format, before: Queues, force: bool, did: seq<Flushing>) {
    forall i | 0 <= i < |did| ::
      var was := AfterFlushings(before, did[..i]);
      StepDid(c, f, Take(was.pending, c.maxMessages), was, did[i].after, did[i].now, force, Flushed, did[i].createdAt)
  }

  lemma {:induction false} NoFlushings(c: Config, f: Format, before: Queues, force: bool)
    ensures Flushings(c, f, before, force, []) && AfterFlushings(before, []) == before
  {
  }

  lemma {:induction false} FlushingsSnoc(c: Config, f: Format, before: Queues, force: bool, did: seq<Flushing>,
                                         d: Flushing)
    requires var was := AfterFlushings(before, did);
             && Flushings(c, f, before, force, did)
             && StepDid(c, f, Take(was.pending, c.maxMessages), was, d.after, d.now, force, Flushed, d.createdAt)
    ensures Flushings(c, f, before, force, did + [d]) && AfterFlushings(before, did + [d]) == d.after
  {
    hide StepDid;
    assert forall i | 0 <= i <= |did| :: (did + [d])[..i] == did[..i];
  }

  lemma {:induction false} DidWait(c: Config, f: Format, read: seq<Message>, before: Queues, after: Queues, now: nat,
                                   force: bool, remaining: nat, createdAt: nat)
    requires StepDid(c, f, read, before, after, now, force, NotDue(remaining), createdAt)
    ensures after == before && !force && read != [] && |read| != c.maxMessages
    ensures SelectLen(c, read, 0) == |read|
    ensures remaining > 0 && remaining + Elapsed(read[0].receivedAt, now) == MaxAge(c)
  {
    WaitExact(c, f, read, now, force);
  }

  lemma {:induction false} DidNothing(c: Config, f: Format, read: seq<Message>, before: Queues, after: Queues, now: nat,
                                      force: bool, createdAt: nat)
    requires StepDid(c, f, read, before, after, now, force, NothingPending, createdAt)
    ensures after == before && read == []
  {
  }

  /** Split the candidate into decoded messages and the ids of those that no longer decode. */
  method DecodeCandidate(f: Format, candidate: seq<Message>) returns (decoded: seq<Decoded>, invalid: seq<nat>)
    ensures decoded == DecodeAll(f, candidate) && invalid == InvalidIds(f, candidate)
  {
    decoded, invalid := [], [];
    for i := 0 to |candidate|
      invariant decoded == DecodeAll(f, candidate[..i]) && invalid == InvalidIds(f, candidate[..i])
    {
      assert candidate[..i + 1][..i] == candidate[..i];
      match f.decode(candidate[i].envelope) {
        case Some(e) => decoded := decoded + [Decoded(candidate[i].sequence, e)];
        case None => invalid := invalid + [candidate[i].sequence];
      }
    }
    assert candidate[..|candidate|] == candidate;
  }
}
