/**
 * The anchor's run loop over the real store, with the other tasks interleaved.
 * Every execution is shown to be a run of the transition system in `Gateway`.
 *
 * The loops of the source may go on for ever, so each method takes a `budget`: how many
 * further attempts to observe. A result of `Cut` means the loop was still going on; what is
 * proved holds for every budget, hence for every finite part of an execution.
 */
module AnchorWorker {
  import opened Prelude
  import opened Wire
  import opened Queues
  import opened Packing
  import opened Planning
  import opened RedbStore
  import opened Gateway
  import opened Durability
  import Batcher

  /* ---------- back-off ---------- */

  datatype RetryPolicy = RetryPolicy(min: nat, max: nat)

  /** `min * 2^attempt`, the exponent capped at 16, the result at `max`. */
  function Delay(policy: RetryPolicy, attempt: nat): nat {
    Min(policy.min * Pow2(Min(attempt, 16)), policy.max)
  }

  /** Delays never decrease and never exceed the maximum. */
  lemma {:induction false} DelayMonotone(policy: RetryPolicy, a: nat, b: nat)
    requires a <= b
    ensures Delay(policy, a) <= Delay(policy, b) <= policy.max
  {
    Pow2Monotone(Min(a, 16), Min(b, 16));
    MulMonotone(policy.min, Pow2(Min(a, 16)), Pow2(Min(b, 16)));
  }

  /**
   * The first delay is the minimum, every further one twice the one before, up to the maximum; after
   * sixteen doublings it stays as it is.
   */
  lemma {:induction false} DelayDoubles(policy: RetryPolicy, attempt: nat)
    ensures Delay(policy, 0) == Min(policy.min, policy.max)
    ensures attempt < 16 ==> Delay(policy, attempt + 1) == Min(2 * Delay(policy, attempt), policy.max)
    ensures attempt >= 16 ==> Delay(policy, attempt) == Delay(policy, 16)
  {
    if attempt < 16 {
      Doubled(policy.min, Pow2(attempt), policy.max);
    }
  }

  lemma {:induction false} Doubled(k: nat, factor: nat, max: nat)
    ensures Min(k * (2 * factor), max) == Min(2 * Min(k * factor, max), max)
  {
    assert k * (2 * factor) == 2 * (k * factor);
  }

  /** With the default policy of one second to a minute: 1, 2, 4, 8, 16, 32 and then 60 seconds. */
  lemma {:induction false} DefaultDelays(attempt: nat)
    ensures var p := RetryPolicy(1000, 60_000);
            Delay(p, attempt) == if attempt < 6 then 1000 * [1, 2, 4, 8, 16, 32][attempt] else 60_000
  {
    var p := RetryPolicy(1000, 60_000);
    DelayDoubles(p, 0);
    DelayDoubles(p, 1);
    DelayDoubles(p, 2);
    DelayDoubles(p, 3);
    DelayDoubles(p, 4);
    DelayDoubles(p, 5);
    if attempt >= 6 {
      DelayMonotone(p, 6, attempt);
    }
  }

  lemma {:induction false} MulMonotone(k: nat, a: nat, b: nat)
    requires a <= b
    ensures k * a <= k * b
  {
  }

  /* ---------- the worker ---------- */

  datatype Retried = Done | Stopped | Failed | Cut

  /** Whether the attempt reached the chain. */
  predicate Reached(s: Submission) {
    match s
    case Success => true
    case Transient(took) => took
    case Permanent(took) => took
    case Abandoned(took) => took
  }

  lemma {:induction false} Snoc(f: Format, past: seq<Action>, a: Action)
    ensures Reach(f, past + [a]) == Step(f, Reach(f, past), a)
  {
    assert (past + [a])[..|past|] == past;
  }

  /** How often a batch was submitted or its removal tried. */
  ghost function Tries(past: seq<Action>): nat {
    if past == [] then 0
    else
      var last := past[|past| - 1];
      Tries(past[..|past| - 1]) + if last.Attempting? || last.Cleaning? then 1 else 0
  }

  /** Whether the attempt failed in a way that calls for another one. */
  ghost predicate CallsForRetry(a: Action) {
    (a.Attempting? && a.submission.Transient?) || (a.Cleaning? && a.removal.RemovalRetry?)
  }

  ghost function Retries(past: seq<Action>): nat {
    if past == [] then 0
    else Retries(past[..|past| - 1]) + if CallsForRetry(past[|past| - 1]) then 1 else 0
  }

  lemma {:induction false} CountSnoc(past: seq<Action>, a: Action)
    ensures Tries(past + [a]) == Tries(past) + if a.Attempting? || a.Cleaning? then 1 else 0
    ensures Retries(past + [a]) == Retries(past) + if CallsForRetry(a) then 1 else 0
  {
    assert (past + [a])[..|past|] == past;
  }

  /** The anchor's own part of the run is the same. */
  ghost predicate AnchorPaused(was: seq<Action>, past: seq<Action>) {
    was <= past && Tries(past) == Tries(was) && Retries(past) == Retries(was)
  }

  ghost predicate LastIs(was: seq<Action>, past: seq<Action>, a: Action) {
    |was| < |past| && past[|past| - 1] == a
  }

  /** Steps of the batcher and the anchor, which push nothing. */
  ghost predicate Quiet(did: seq<Action>) {
    forall a | a in did :: !a.Pushing?
  }

  class Anchor {
    const store: Store
    const batcher: Batcher.Worker
    const f: Format
    const policy: RetryPolicy
    /** What the batcher has read and not yet decided on. */
    var snapshot: Option<seq<Message>>
    /** The payloads the CPS node was set to, in order of finalization. */
    ghost var ledger: seq<Finalized>
    /** The steps of all tasks since the store was created. */
    ghost var past: seq<Action>

    /** The store and the chain are those of the reachable state after `past`. */
    ghost predicate Valid()
      reads this, store
    {
      && store.Valid()
      && batcher.store == store && batcher.f == f
      && Reach(f, past).store == store.Contents()
      && Reach(f, past).ledger == ledger
      && Reach(f, past).session == Some(batcher.config) && Reach(f, past).snapshot == snapshot
    }

    constructor (store: Store, batcher: Batcher.Worker, policy: RetryPolicy, ghost ledger: seq<Finalized>,
                 ghost past: seq<Action>)
      requires store.Valid() && batcher.store == store
      requires var w := Reach(batcher.f, past);
               && w.store == store.Contents() && w.ledger == ledger
               && w.session == Some(batcher.config) && w.snapshot == None
      ensures Valid() && this.past == past && this.store == store && this.ledger == ledger
      ensures this.batcher == batcher && this.f == batcher.f && this.policy == policy
    {
      this.store, this.batcher, this.f, this.policy := store, batcher, batcher.f, policy;
      this.ledger, this.past, this.snapshot := ledger, past, None;
    }

    /** The pusher and the batcher run for a while. */
    method Others()
      requires Valid()
      modifies store, `snapshot, `past
      ensures Valid() && AnchorPaused(old(past), past) && Reach(f, past).phase == old(Reach(f, past).phase)
    {
      hide Reach, Tries, Retries;
      ghost var phase := Reach(f, past).phase;
      var steps := Any();
      while steps > 0
        invariant Valid() && AnchorPaused(old(past), past) && Reach(f, past).phase == phase && ledger == old(ledger)
        decreases steps
      {
        var push, read, works := *, *, *;
        var now := Now();
        if push {
          var envelope: seq<byte> := *;
          ghost var was := past;
          CountSnoc(past, Pushing(now, envelope));
          var ok := Deliver(now, envelope, works);
          assert !ok ==> past == was;
        } else if read {
          CountSnoc(past, Reading);
          ghost var was := past;
          BatchRead(works);
          assert !works ==> past == was;
        } else {
          var force := *;
          ghost var was := past;
          ghost var did := BatchCommit(now, force, works);
          if did != [] {
            CountSnoc(was, did[0]);
            assert past == was + [did[0]];
          } else {
            assert past == was;
          }
        }
        steps := steps - 1;
      }
    }

    /** The durable sink: one push of the received bytes; a failed one leaves no trace. */
    method Deliver(receivedAt: nat, envelope: seq<byte>, works: bool) returns (ok: bool)
      requires Valid() && receivedAt < U64_LIMIT
      modifies store, `past
      ensures Valid() && Reach(f, past).phase == old(Reach(f, past).phase)
      ensures ok <==> works && old(store.Contents()).nextSequence + 1 < U64_LIMIT
      ensures past == old(past) + if ok then [Pushing(receivedAt, envelope)] else []
    {
      ok := false;
      if store.NextFree() {
        hide View, Consistent, Reach;
        var pushed := store.PushMessage(receivedAt, envelope, works);
        if pushed.Ok? {
          Snoc(f, past, Pushing(receivedAt, envelope));
          past := past + [Pushing(receivedAt, envelope)];
          ok := true;
        }
      }
    }

    /** The batcher reads pending messages; what it commits later is made of these. */
    method BatchRead(readable: bool)
      requires Valid()
      modifies `snapshot, `past
      ensures Valid() && past == old(past) + if readable then [Reading] else []
      ensures Reach(f, past).phase == old(Reach(f, past).phase)
    {
      hide View, Consistent, Reach;
      var loaded := batcher.Load(readable);
      if loaded.Ok? {
        Snoc(f, past, Reading);
        snapshot := Some(loaded.value);
        past := past + [Reading];
      }
    }

    /** The batcher decides on what it read and commits, whatever was pushed meanwhile. */
    method BatchCommit(now: nat, force: bool, writable: bool) returns (ghost did: seq<Action>)
      requires Valid()
      modifies store, `snapshot, `past
      ensures Valid() && past == old(past) + did && Reach(f, past).phase == old(Reach(f, past).phase)
      ensures if old(snapshot.Some? && store.Contents().nextId + |snapshot.value| < U64_LIMIT)
              then |did| == 1 && did[0].Flushing? && did[0].(createdAt := 0) == Flushing(now, force, 0, !writable)
              else did == []
    {
      did := [];
      if snapshot.Some? && store.RoomFor(|snapshot.value|) {
        hide View, Consistent, Reach;
        ghost var w := Reach(f, past);
        var step, createdAt := batcher.Finish(snapshot.value, now, force, writable);
        ghost var flush := Flushing(now, force, createdAt, !writable);
        FinishIsFlush(f, w, batcher.config, snapshot.value, store.Contents(), now, force, step, createdAt, writable);
        Snoc(f, past, flush);
        did := [flush];
        snapshot := None;
        past := past + did;
      }
    }

    /** A single attempt to put the bytes of a stored batch on the chain, unchanged; `answer` is the chain's. */
    method SubmitBatch(batch: Batch, answer: Submission) returns (s: Submission)
      requires store.Valid()
      modifies `ledger
      ensures s == if |batch.payload| > MAX_PAYLOAD_SIZE then Permanent(false) else answer
      ensures ledger == old(ledger) + if Reached(s) then [FinalOf(batch, store.Contents().format)] else []
    {
      if |batch.payload| > MAX_PAYLOAD_SIZE {
        return Permanent(false);
      }
      s := answer;
      if Reached(s) {
        ledger := ledger + [FinalOf(batch, store.Contents().format)];
      }
    }

    /** One attempt to have the head of the page finalized: what becomes of it is up to the chain. */
    method SubmitOnce(page: seq<Batch>, answer: Submission)
      requires Valid() && page != [] && Reach(f, past).phase == Submitting(page)
      modifies `ledger, `past
      ensures Valid() && past == old(past) + [Attempting(answer)]
      ensures Reach(f, past).phase == if answer.Success? then Confirming(page)
                                      else if answer.Transient? then Submitting(page) else Halted
    {
      hide Reach, View, Consistent;
      HeadWithinLimit(f, past);
      var s := SubmitBatch(page[0], answer);
      Snoc(f, past, Attempting(s));
      past := past + [Attempting(s)];
    }

    /** One attempt to remove the finalized head of the page from the store. */
    method ConfirmOnce(page: seq<Batch>, abandoned: bool, writable: bool) returns (r: Removal)
      requires Valid() && page != [] && Reach(f, past).phase == Confirming(page)
      modifies store, `past
      ensures r == if abandoned then RemovalAbandoned(writable) else if writable then Removed else RemovalRetry(false)
      ensures Valid() && past == old(past) + [Cleaning(r)]
      ensures r.Removed? ==> Reach(f, past).phase == if |page| == 1 then Waiting else Submitting(page[1..])
      ensures r.RemovalRetry? ==> Reach(f, past).phase == Confirming(page)
      ensures r.RemovalAbandoned? ==> Reach(f, past).phase == Halted
    {
      hide Reach, View, Consistent;
      var removed := store.ConfirmBatch(page[0].id, writable);
      r := if abandoned then RemovalAbandoned(removed.Ok?) else if removed.Ok? then Removed else RemovalRetry(false);
      Snoc(f, past, Cleaning(r));
      past := past + [Cleaning(r)];
    }

    /**
     * Submit the head of the page until it is finalized, backing off on transient errors. The budget
     * is spent on attempts, each transient one is followed by one delay, and it ends with the last.
     * `works` says that the chain accepts and no shutdown comes: then the first attempt does it.
     */
    method RetrySubmit(page: seq<Batch>, budget: nat, works: bool) returns (r: Retried, left: nat, delays: seq<nat>)
      requires Valid() && page != [] && Reach(f, past).phase == Submitting(page)
      modifies this, store
      ensures Valid() && old(past) <= past && left <= budget
      ensures works && budget > 0 ==> r.Done? && left == budget - 1
      ensures r.Done? ==> Reach(f, past).phase == Confirming(page) && LastIs(old(past), past, Attempting(Success))
      ensures r.Failed? ==> exists took :: LastIs(old(past), past, Attempting(Permanent(took)))
      ensures r.Stopped? ==> exists took :: LastIs(old(past), past, Attempting(Abandoned(took)))
      ensures r.Stopped? || r.Failed? ==> Reach(f, past).phase == Halted
      ensures r.Cut? ==> Reach(f, past).phase == Submitting(page) && left == 0
      ensures Tries(past) - Tries(old(past)) == budget - left == |delays| + if r.Cut? then 0 else 1
      ensures Retries(past) - Retries(old(past)) == |delays|
      ensures forall i | 0 <= i < |delays| :: delays[i] == Delay(policy, i)
    {
      hide Reach, View, Consistent, Delay, Tries, Retries;
      left, delays := budget, [];
      var attempt := 0;
      while left > 0
        invariant Valid() && old(past) <= past && left <= budget
        invariant Reach(f, past).phase == Submitting(page)
        invariant attempt == |delays| && forall i | 0 <= i < |delays| :: delays[i] == Delay(policy, i)
        invariant Tries(past) - Tries(old(past)) == budget - left == |delays| == Retries(past) - Retries(old(past))
        invariant works ==> left == budget
      {
        left := left - 1;
        Others();
        var shutdown := *;
        var answer: Submission := *;
        answer := if works then Success else if shutdown then Abandoned(false) else answer;
        CountSnoc(past, Attempting(answer));
        SubmitOnce(page, answer);
        match answer {
          case Success => return Done, left, delays;
          case Transient(_) =>
            delays := delays + [Delay(policy, attempt)];
            attempt := attempt + 1;
          case Permanent(took) =>
            assert LastIs(old(past), past, Attempting(Permanent(took)));
            return Failed, left, delays;
          case Abandoned(took) =>
            assert LastIs(old(past), past, Attempting(Abandoned(took)));
            return Stopped, left, delays;
        }
      }
      r := Cut;
    }

    /** Remove the finalized head of the page from the store, backing off on store errors. */
    method RetryConfirm(page: seq<Batch>, budget: nat, works: bool) returns (r: Retried, left: nat, delays: seq<nat>)
      requires Valid() && page != [] && Reach(f, past).phase == Confirming(page)
      modifies this, store
      ensures Valid() && old(past) <= past && left <= budget
      ensures works && budget > 0 ==> r.Done? && left == budget - 1
      ensures r.Done? ==> LastIs(old(past), past, Cleaning(Removed))
      ensures r.Done? ==> Reach(f, past).phase == if |page| == 1 then Waiting else Submitting(page[1..])
      ensures r.Stopped? ==> exists took :: LastIs(old(past), past, Cleaning(RemovalAbandoned(took)))
      ensures r.Stopped? ==> Reach(f, past).phase == Halted
      ensures r.Cut? ==> Reach(f, past).phase == Confirming(page) && left == 0
      ensures Tries(past) - Tries(old(past)) == budget - left == |delays| + if r.Cut? then 0 else 1
      ensures Retries(past) - Retries(old(past)) == |delays|
      ensures forall i | 0 <= i < |delays| :: delays[i] == Delay(policy, i)
      ensures !r.Failed?
    {
      hide Reach, View, Consistent, Delay, Tries, Retries;
      left, delays := budget, [];
      while left > 0
        invariant Valid() && old(past) <= past && left <= budget
        invariant Reach(f, past).phase == Confirming(page)
        invariant forall i | 0 <= i < |delays| :: delays[i] == Delay(policy, i)
        invariant Tries(past) - Tries(old(past)) == budget - left == |delays| == Retries(past) - Retries(old(past))
        invariant works ==> left == budget
      {
        left := left - 1;
        Others();
        var shutdown, abandoned, writable := *, *, *;
        ghost var was := past;
        var removal := RemovalAbandoned(false);
        if shutdown && !works {
          Snoc(f, past, Cleaning(removal));
          past := past + [Cleaning(removal)];
        } else {
          removal := ConfirmOnce(page, abandoned && !works, writable || works);
        }
        CountSnoc(was, Cleaning(removal));
        match removal {
          case Removed => return Done, left, delays;
          case RemovalRetry(_) => delays := delays + [Delay(policy, |delays|)];
          case RemovalAbandoned(took) =>
            assert LastIs(old(past), past, Cleaning(RemovalAbandoned(took)));
            return Stopped, left, delays;
        }
      }
      r := Cut;
    }

    /** Keep anchoring ready batches; the budget is spent on loading pages and on the batches in them. */
    method Run(budget: nat, works: bool) returns (r: Retried, left: nat, ghost loads: nat)
      requires Valid() && Reach(f, past).phase == Waiting
      modifies this, store
      ensures Valid() && old(past) <= past
      ensures r.Stopped? || r.Failed? ==> Reach(f, past).phase == Halted || Reach(f, past).phase == Waiting
      ensures r.Cut? ==> left == 0
      ensures !r.Done? && left + loads + Tries(past) == budget + Tries(old(past)) && (works ==> r.Cut?)
      ensures Collapse(ledger) <= Finals(f, Reach(f, past).committed)
      ensures forall e | e in ledger :: e in Finals(f, Reach(f, past).committed)
    {
      r, left, loads := RunLoop(budget, works);
      DeliveredInOrder(f, past);
    }

    method RunLoop(budget: nat, works: bool) returns (r: Retried, left: nat, ghost loads: nat)
      requires Valid() && Reach(f, past).phase == Waiting
      modifies this, store
      ensures Valid() && old(past) <= past
      ensures r.Stopped? || r.Failed? ==> Reach(f, past).phase == Halted || Reach(f, past).phase == Waiting
      ensures r.Cut? ==> left == 0
      ensures !r.Done? && left + loads + Tries(past) == budget + Tries(old(past)) && (works ==> r.Cut?)
    {
      hide Reach, Tries, Retries;
      left, loads := budget, 0;
      while left > 0
        invariant Valid() && old(past) <= past && Reach(f, past).phase == Waiting
        invariant left + loads + Tries(past) == budget + Tries(old(past))
        decreases left
      {
        ghost var before := left;
        var loaded, page, rest, _ := RetryLoad(left, works);
        r, left := loaded, rest;
        loads := loads + (before - left);
        if !r.Done? {
          return;
        }
        if page != [] {
          r, left := AnchorPage(page, left, works);
          if !r.Done? {
            return;
          }
        }
      }
      r := Cut;
    }

    /** Load the next page of ready batches, backing off while the store does not answer. */
    method RetryLoad(budget: nat, works: bool) returns (r: Retried, page: seq<Batch>, left: nat, delays: seq<nat>)
      requires Valid() && Reach(f, past).phase == Waiting
      modifies this, store
      ensures Valid() && old(past) <= past && left <= budget && Tries(past) == Tries(old(past))
      ensures works && budget > 0 ==> r.Done? && left == budget - 1
      ensures r.Done? ==> page == Take(store.Contents().ready, READY_PAGE)
      ensures r.Done? && page != [] ==> LastIs(old(past), past, Loading)
      ensures Reach(f, past).phase == if r.Done? && page != [] then Submitting(page) else Waiting
      ensures r.Cut? ==> left == 0
      ensures budget - left == |delays| + if r.Cut? then 0 else 1
      ensures forall i | 0 <= i < |delays| :: delays[i] == Delay(policy, i)
      ensures !r.Failed?
    {
      hide Reach, View, Consistent, Delay, Tries, Retries;
      page, left, delays := [], budget, [];
      while left > 0
        invariant Valid() && old(past) <= past && Tries(past) == Tries(old(past))
        invariant Reach(f, past).phase == Waiting && budget - left == |delays|
        invariant works ==> left == budget
        invariant forall i | 0 <= i < |delays| :: delays[i] == Delay(policy, i)
      {
        left := left - 1;
        Others();
        var shutdown, readable := *, *;
        if shutdown && !works {
          return Stopped, page, left, delays;
        }
        CountSnoc(past, Loading);
        ghost var was := past;
        var loaded := LoadPage(readable || works);
        assert past == was + [Loading] || past == was;
        if loaded.Some? {
          return Done, loaded.value, left, delays;
        }
        delays := delays + [Delay(policy, |delays|)];
      }
      r := Cut;
    }

    /** The next page of ready batches, the oldest ones; `readable` says whether the disk lets it be read. */
    method LoadPage(readable: bool) returns (page: Option<seq<Batch>>)
      requires Valid() && Reach(f, past).phase == Waiting
      modifies `past
      ensures page == if readable then Some(Take(store.Contents().ready, READY_PAGE)) else None
      ensures Valid() && past == old(past) + if page.None? || page.value == [] then [] else [Loading]
      ensures Reach(f, past).phase == if page.None? || page.value == [] then Waiting else Submitting(page.value)
    {
      hide Reach, View, Consistent;
      var loaded := store.ReadyBatches(READY_PAGE, readable);
      if loaded.Err? {
        return None;
      }
      page := Some(loaded.value);
      if loaded.value != [] {
        Snoc(f, past, Loading);
        past := past + [Loading];
      }
    }

    /** Anchor and confirm the batches of a page one after another, with a working chain and disk at two tries each. */
    method AnchorPage(batches: seq<Batch>, budget: nat, works: bool) returns (r: Retried, left: nat)
      requires Valid() && batches != [] && Reach(f, past).phase == Submitting(batches)
      modifies this, store
      ensures Valid() && old(past) <= past && left <= budget
      ensures r.Done? ==> Reach(f, past).phase == Waiting
      ensures r.Stopped? || r.Failed? ==> Reach(f, past).phase == Halted
      ensures r.Cut? ==> left == 0
      ensures left + Tries(past) == budget + Tries(old(past))
      ensures works && budget >= 2 * |batches| ==> r.Done? && left == budget - 2 * |batches|
      ensures works ==> r.Done? || r.Cut?
    {
      hide Reach, Tries, Retries;
      left := budget;
      var page := batches;
      while page != []
        invariant Valid() && old(past) <= past && left <= budget
        invariant left + Tries(past) == budget + Tries(old(past))
        invariant works && budget >= 2 * |batches| ==> left - 2 * |page| == budget - 2 * |batches|
        invariant Reach(f, past).phase == if page == [] then Waiting else Submitting(page)
        decreases |page|
      {
        var submitted, rest, _ := RetrySubmit(page, left, works);
        if !submitted.Done? {
          return submitted, rest;
        }
        var confirmed, remaining, _ := RetryConfirm(page, rest, works);
        left := remaining;
        if !confirmed.Done? {
          return confirmed, left;
        }
        page := page[1..];
      }
      r := Done;
    }
  }

  lemma {:induction false} HeadWithinLimit(f: Format, past: seq<Action>)
    ensures var w := Reach(f, past);
            w.phase.Submitting? ==> w.phase.page != [] && |w.phase.page[0].payload| <= MAX_PAYLOAD_SIZE
  {
    OversizedNeverSubmitted(f, past);
  }

  /** A step of the batcher on the real store is a flush of what it read, and one that fails changes nothing. */
  lemma {:induction false} FinishIsFlush(f: Format, w: World, c: Config, read: seq<Message>, after: Queues, now: nat,
                                         force: bool, r: Result<Batcher.StepOutcome, Batcher.BatchError>,
                                         createdAt: nat, writable: bool)
    requires w.session == Some(c) && w.snapshot == Some(read)
    requires r.Ok? ==> Batcher.StepDid(c, f, read, w.store, after, now, force, r.value, createdAt)
    requires r.Err? ==> after == w.store
    requires r == Err(Batcher.EncodingFailed) <==> PlanOf(c, f, read, now, force).Stuck?
    requires r == Err(Batcher.StoreFailed(Database)) <==> PlanOf(c, f, read, now, force).Flush? && !writable
    requires r.Err? && r.error != Batcher.EncodingFailed && r.error != Batcher.StoreFailed(Database) ==>
               && PlanOf(c, f, read, now, force).Flush?
               && r.error == Batcher.StoreFailed(Batcher.MissingOf(w.store, Batcher.Selected(c, f, read, now, force)))
    ensures var w' := Step(f, w, Flushing(now, force, createdAt, !writable));
            && w'.store == after && w'.ledger == w.ledger && w'.session == w.session && w'.phase == w.phase
            && w'.snapshot == None
  {
    hide BatchesOf, NewCommitted, NewDropped, LeavesOk;
  }
}
