/** The bounded, time-to-live set of recently accepted envelope ids. */
module Dedup {
  /** SHA-256 of the received bytes. */
  type EnvelopeId = nat

  datatype Entry = Entry(id: EnvelopeId, expiry: nat)

  function IdsOf(order: seq<Entry>): set<EnvelopeId> {
    set i | 0 <= i < |order| :: order[i].id
  }

  ghost predicate Distinct(order: seq<Entry>) {
    forall i, j | 0 <= i < j < |order| :: order[i].id != order[j].id
  }

  ghost predicate SortedByExpiry(order: seq<Entry>) {
    forall i, j | 0 <= i < j < |order| :: order[i].expiry <= order[j].expiry
  }

  /* ---------- the simple timed set ---------- */

  /** All entries that have not expired. */
  ghost function Live(order: seq<Entry>, now: nat): seq<Entry> {
    if order == [] then []
    else (if order[0].expiry > now then [order[0]] else []) + Live(order[1..], now)
  }

  ghost function Newest(order: seq<Entry>, capacity: nat): seq<Entry> {
    if |order| <= capacity then order else order[|order| - capacity..]
  }

  /** Filter what has expired, append the id if absent, keep the newest `capacity`. */
  ghost function Accept(order: seq<Entry>, id: EnvelopeId, now: nat, ttl: nat, capacity: nat): (bool, seq<Entry>) {
    var live := Live(order, now);
    if id in IdsOf(live) then (false, live)
    else (true, Newest(live + [Entry(id, now + ttl)], capacity))
  }

  ghost function Without(order: seq<Entry>, id: EnvelopeId): seq<Entry> {
    if order == [] then []
    else (if order[0].id == id then [] else [order[0]]) + Without(order[1..], id)
  }

  lemma {:induction false} WithoutContents(order: seq<Entry>, id: EnvelopeId)
    requires Distinct(order) && SortedByExpiry(order)
    ensures var rest := Without(order, id);
            && Distinct(rest) && SortedByExpiry(rest) && |rest| <= |order|
            && IdsOf(rest) == IdsOf(order) - {id}
            && forall e | e in rest :: e in order
  {
    if order != [] {
      hide IdsOf, Distinct, SortedByExpiry;
      var head, tail := order[0], order[1..];
      Tail(order);
      WithoutContents(tail, id);
      var rest := Without(tail, id);
      if head.id != id {
        Cons(head, rest);
      } else {
        assert Without(order, id) == rest;
      }
    }
  }

  lemma {:induction false} Tail(order: seq<Entry>)
    requires order != [] && Distinct(order) && SortedByExpiry(order)
    ensures var head, tail := order[0], order[1..];
            && Distinct(tail) && SortedByExpiry(tail)
            && head.id !in IdsOf(tail) && IdsOf(order) == {head.id} + IdsOf(tail)
            && (forall e | e in tail :: e in order && head.expiry <= e.expiry)
  {
    IdsOfStep(order);
  }

  lemma {:induction false} Cons(head: Entry, tail: seq<Entry>)
    requires Distinct(tail) && SortedByExpiry(tail)
    requires head.id !in IdsOf(tail) && forall e | e in tail :: head.expiry <= e.expiry
    ensures Distinct([head] + tail) && SortedByExpiry([head] + tail)
    ensures IdsOf([head] + tail) == {head.id} + IdsOf(tail)
  {
    assert ([head] + tail)[1..] == tail;
    IdsOfStep([head] + tail);
  }

  lemma {:induction false} IdsOfStep(order: seq<Entry>)
    requires order != []
    ensures IdsOf(order) == {order[0].id} + IdsOf(order[1..])
  {
    forall x | x in IdsOf(order[1..]) ensures x in IdsOf(order) {
      var i :| 0 <= i < |order[1..]| && order[1..][i].id == x;
      assert order[i + 1].id == x;
    }
    assert order[0].id in IdsOf(order);
  }

  /** With expiries in order, dropping expired entries from the front is the full filter. */
  lemma {:induction false} LiveIsSuffix(order: seq<Entry>, now: nat)
    requires SortedByExpiry(order)
    requires order == [] || order[0].expiry > now
    ensures Live(order, now) == order
  {
    if order != [] {
      LiveIsSuffix(order[1..], now);
    }
  }

  lemma {:induction false} DistinctCardinality(order: seq<Entry>)
    requires Distinct(order)
    ensures |IdsOf(order)| == |order|
  {
    if order != [] {
      DistinctCardinality(order[1..]);
      IdsOfStep(order);
      assert order[0].id !in IdsOf(order[1..]);
    }
  }

  /* ---------- the cache ---------- */

  /** The set and the queue hold the same distinct ids, in expiry order and within capacity. */
  ghost predicate QueueOk(seen: set<EnvelopeId>, order: seq<Entry>, capacity: nat, ttl: nat, clock: nat) {
    && capacity >= 1
    && seen == IdsOf(order)
    && Distinct(order) && SortedByExpiry(order)
    && |order| <= capacity
    && forall e | e in order :: e.expiry <= clock + ttl
  }

  class DedupCache {
    const capacity: nat
    const ttl: nat
    var seen: set<EnvelopeId>
    var order: seq<Entry>
    /** Latest clock reading; the clock is monotonic. */
    ghost var clock: nat

    ghost predicate Valid()
      reads this
    {
      QueueOk(seen, order, capacity, ttl, clock)
    }

    constructor (capacity: nat, ttl: nat)
      ensures Valid() && order == [] && clock == 0
      ensures this.ttl == ttl && this.capacity == if capacity < 1 then 1 else capacity
    {
      this.capacity := if capacity < 1 then 1 else capacity;
      this.ttl := ttl;
      seen, order, clock := {}, [], 0;
    }

    lemma {:induction false} CapacityPositive()
      requires Valid()
      ensures capacity >= 1
    {
    }

    /** Drop `id` so that a later sighting is new again. */
    method Forget(id: EnvelopeId)
      requires Valid()
      modifies this
      ensures Valid() && clock == old(clock)
      ensures order == Without(old(order), id) && id !in seen
    {
      WithoutContents(order, id);
      if id in seen {
        seen := seen - {id};
        order := Retain(order, id);
      } else {
        WithoutAbsent(order, id);
      }
    }

    /** Record `id`; true if it is new, false if it duplicates a live entry. */
    method InsertIfNew(id: EnvelopeId, now: nat) returns (isNew: bool)
      requires Valid() && clock <= now
      modifies this
      ensures Valid() && clock == now
      ensures (isNew, order) == Accept(old(order), id, now, ttl, capacity)
      ensures isNew ==> id in seen
    {
      PruneExpired(now);
      if id in seen {
        return false;
      }
      hide IdsOf, Distinct, SortedByExpiry;
      ghost var live := order;
      Snoc(live, Entry(id, now + ttl));
      seen := seen + {id};
      order := order + [Entry(id, now + ttl)];
      clock := now;
      EnforceCapacity();
      isNew := true;
    }

    /** Drop entries whose time has elapsed, front to back. */
    method PruneExpired(now: nat)
      requires Valid() && clock <= now
      modifies this
      ensures Valid() && clock == now
      ensures order == Live(old(order), now)
    {
      ghost var before := order;
      clock := now;
      while order != [] && order[0].expiry <= now
        invariant Valid() && clock == now
        invariant Live(before, now) == Live(order, now)
        decreases |order|
      {
        Tail(order);
        seen := seen - {order[0].id};
        order := order[1..];
      }
      LiveIsSuffix(order, now);
    }

    /** Drop entries from the front while there are too many. */
    method EnforceCapacity()
      requires capacity >= 1 && seen == IdsOf(order) && Distinct(order) && SortedByExpiry(order)
      requires forall e | e in order :: e.expiry <= clock + ttl
      modifies `seen, `order
      ensures Valid() && order == Newest(old(order), capacity)
    {
      hide IdsOf, Distinct, SortedByExpiry;
      ghost var before := order;
      DistinctCardinality(order);
      while |seen| > capacity
        invariant seen == IdsOf(order) && Distinct(order) && SortedByExpiry(order)
        invariant |seen| == |order| && |order| <= |before| && order == before[|before| - |order|..]
        invariant |order| >= capacity || order == before
        invariant forall e | e in order :: e in before
        decreases |order|
      {
        Tail(order);
        seen := seen - {order[0].id};
        order := order[1..];
      }
    }
  }

  function Retain(order: seq<Entry>, id: EnvelopeId): (r: seq<Entry>)
    ensures r == Without(order, id)
  {
    if order == [] then []
    else if order[0].id == id then Retain(order[1..], id)
    else [order[0]] + Retain(order[1..], id)
  }

  lemma {:induction false} WithoutAbsent(order: seq<Entry>, id: EnvelopeId)
    requires id !in IdsOf(order)
    ensures Without(order, id) == order
  {
    if order != [] {
      IdsOfStep(order);
      assert order[0].id in IdsOf(order);
      WithoutAbsent(order[1..], id);
    }
  }

  lemma {:induction false} Snoc(order: seq<Entry>, e: Entry)
    requires Distinct(order) && SortedByExpiry(order)
    requires e.id !in IdsOf(order) && forall x | x in order :: x.expiry <= e.expiry
    ensures Distinct(order + [e]) && SortedByExpiry(order + [e])
    ensures IdsOf(order + [e]) == IdsOf(order) + {e.id}
  {
    var s := order + [e];
    forall x | x in IdsOf(order) ensures x in IdsOf(s) {
      var i :| 0 <= i < |order| && order[i].id == x;
      assert s[i].id == x;
    }
    assert s[|order|].id == e.id;
    assert forall i | 0 <= i < |order| :: order[i].id in IdsOf(order);
  }

  /* ---------- what pruning leaves ---------- */

  /** `live` is what remains of `order` after a run of expired entries at its front. */
  ghost predicate ExpiredFront(order: seq<Entry>, live: seq<Entry>, now: nat) {
    var k := |order| - |live|;
    && 0 <= k && live == order[k..]
    && (forall i | 0 <= i < k :: order[i].expiry <= now)
    && (forall i | k <= i < |order| :: order[i].expiry > now)
  }

  lemma {:induction false} LiveSplits(order: seq<Entry>, now: nat)
    requires SortedByExpiry(order)
    ensures ExpiredFront(order, Live(order, now), now)
  {
    hide ExpiredFront;
    if order == [] || order[0].expiry > now {
      LiveIsSuffix(order, now);
      NoneExpired(order, now);
    } else {
      SortedTail(order);
      LiveSplits(order[1..], now);
      assert Live(order, now) == Live(order[1..], now);
      OneMoreExpired(order, Live(order[1..], now), now);
    }
  }

  lemma {:induction false} SortedTail(order: seq<Entry>)
    requires order != [] && SortedByExpiry(order)
    ensures SortedByExpiry(order[1..])
  {
  }

  lemma {:induction false} NoneExpired(order: seq<Entry>, now: nat)
    requires SortedByExpiry(order) && (order == [] || order[0].expiry > now)
    ensures ExpiredFront(order, order, now)
  {
  }

  lemma {:induction false} OneMoreExpired(order: seq<Entry>, live: seq<Entry>, now: nat)
    requires order != [] && order[0].expiry <= now && ExpiredFront(order[1..], live, now)
    ensures ExpiredFront(order, live, now)
  {
    var k := |order| - |live|;
    assert live == order[1..][k - 1..] == order[k..];
    forall i | k <= i < |order| ensures order[i].expiry > now {
      assert order[1..][i - 1] == order[i];
    }
    forall i | 1 <= i < k ensures order[i].expiry <= now {
      assert order[1..][i - 1] == order[i];
    }
  }

  lemma {:induction false} AllLive(order: seq<Entry>, live: seq<Entry>, now: nat)
    requires ExpiredFront(order, live, now)
    ensures forall j | 0 <= j < |live| :: live[j].expiry > now
  {
    assert forall j | 0 <= j < |live| :: live[j] == order[|order| - |live| + j];
  }

  /* ---------- forgetting ---------- */

  /** After `Forget` a retransmission is new, at any later time. */
  lemma {:induction false} ForgottenIsNew(order: seq<Entry>, id: EnvelopeId, now: nat, ttl: nat, capacity: nat)
    requires Distinct(order) && SortedByExpiry(order)
    ensures Accept(Without(order, id), id, now, ttl, capacity).0
  {
    WithoutContents(order, id);
    LiveSplits(Without(order, id), now);
  }

  lemma {:induction false} WithoutLast(live: seq<Entry>, e: Entry)
    requires e.id !in IdsOf(live)
    ensures Without(live + [e], e.id) == live
  {
    if live == [] {
      assert (live + [e])[1..] == [];
    } else {
      IdsOfStep(live);
      assert (live + [e])[1..] == live[1..] + [e];
      WithoutLast(live[1..], e);
      assert live[0].id in IdsOf(live);
    }
  }

  lemma {:induction false} SuffixIds(live: seq<Entry>, k: nat)
    requires k <= |live|
    ensures IdsOf(live[k..]) <= IdsOf(live)
  {
    forall x | x in IdsOf(live[k..]) ensures x in IdsOf(live) {
      var i :| 0 <= i < |live[k..]| && live[k..][i].id == x;
      assert live[k + i].id == x;
    }
  }

  /** Forgetting undoes an insertion exactly if the insertion evicted nothing. */
  lemma {:induction false} ForgetUndoesExactly(order: seq<Entry>, id: EnvelopeId, now: nat, ttl: nat, capacity: nat)
    requires capacity >= 1 && Accept(order, id, now, ttl, capacity).0
    ensures Without(Accept(order, id, now, ttl, capacity).1, id) == Live(order, now) <==> |Live(order, now)| < capacity
  {
    hide Without, Live, IdsOf;
    var live, e := Live(order, now), Entry(id, now + ttl);
    if |live| < capacity {
      WithoutLast(live, e);
    } else {
      var k := |live| + 1 - capacity;
      SuffixIds(live, k);
      assert (live + [e])[k..] == live[k..] + [e];
      WithoutLast(live[k..], e);
    }
  }

  /** It does happen: with room for one id, `b` evicts `a`, and forgetting `b` leaves `a` unknown. */
  lemma {:induction false} EvictedStaysEvicted(a: EnvelopeId, b: EnvelopeId)
    requires a != b
    ensures var afterA := Accept([], a, 0, 60, 1).1;
            var afterB := Accept(afterA, b, 1, 60, 1).1;
            !Accept(afterA, a, 2, 60, 1).0 && Accept(Without(afterB, b), a, 2, 60, 1).0
  {
    var ea, eb := Entry(a, 60), Entry(b, 61);
    assert Live([], 0) == [] && [ea][1..] == [] && [eb][1..] == [];
    assert Accept([], a, 0, 60, 1).1 == [ea];
    assert Live([ea], 1) == [ea] && Live([ea], 2) == [ea] && ([ea] + [eb])[1..] == [eb];
    assert [ea][0].id in IdsOf([ea]);
    assert Accept([ea], b, 1, 60, 1).1 == [eb];
    assert Without([eb], b) == [];
  }

  /* ---------- whole runs ---------- */

  /** An id is seen; if it is new, it is kept or, when its delivery fails, forgotten again. */
  datatype Visit = Visit(id: EnvelopeId, at: nat, keep: bool)

  /** An acceptance, and whether it was kept. */
  datatype Mark = Mark(entry: Entry, keep: bool)

  ghost predicate Monotone(vs: seq<Visit>) {
    forall i, j | 0 <= i < j < |vs| :: vs[i].at <= vs[j].at
  }

  ghost function Settle(order: seq<Entry>, id: EnvelopeId, keep: bool): seq<Entry> {
    if keep then order else Without(order, id)
  }

  /** The cache after a run of visits, and the acceptances on the way, oldest first. */
  ghost function Visited(vs: seq<Visit>, ttl: nat, capacity: nat): (seq<Entry>, seq<Mark>) {
    if vs == [] then ([], [])
    else
      var v := vs[|vs| - 1];
      var (order, marks) := Visited(vs[..|vs| - 1], ttl, capacity);
      var (isNew, order') := Accept(order, v.id, v.at, ttl, capacity);
      if isNew then (Settle(order', v.id, v.keep), marks + [Mark(Entry(v.id, v.at + ttl), v.keep)])
      else (order', marks)
  }

  /** The entries of the acceptances that were kept. */
  ghost function KeptOf(marks: seq<Mark>): seq<Entry> {
    if marks == [] then []
    else
      var last := marks[|marks| - 1];
      KeptOf(marks[..|marks| - 1]) + if last.keep then [last.entry] else []
  }

  /** How many acceptances were kept before the last one. */
  ghost function Prior(marks: seq<Mark>): nat {
    if marks == [] then 0 else |KeptOf(marks[..|marks| - 1])|
  }

  /**
   * Some kept acceptance of the id is live, and fewer than `capacity` were kept from it up to the
   * acceptance before the last.
   */
  ghost predicate RecentlyKept(marks: seq<Mark>, id: EnvelopeId, now: nat, capacity: nat) {
    exists i | 0 <= i < |marks| ::
      marks[i].keep && marks[i].entry.id == id && marks[i].entry.expiry > now
      && |KeptOf(marks[i..|marks| - 1])| < capacity
  }

  /** After a kept acceptance its id is accepted again only a time to live or `capacity` kept ones later. */
  ghost predicate Apart(marks: seq<Mark>, ttl: nat, capacity: nat) {
    forall i, j | 0 <= i < j < |marks| && marks[i].keep && marks[i].entry.id == marks[j].entry.id ::
      marks[i].entry.expiry + ttl <= marks[j].entry.expiry || |KeptOf(marks[i..j - 1])| >= capacity
  }

  /* ---------- the queue is the end of what was kept ---------- */

  /** The queue is the end of `kept`; what is missing has expired, or `capacity` were kept since. */
  ghost predicate IsTail(order: seq<Entry>, kept: seq<Entry>, prior: nat, capacity: nat, clock: nat) {
    var m := |kept| - |order|;
    && 0 <= m && order == kept[m..] && |order| <= capacity
    && prior <= |kept| && prior < m + capacity
    && forall p | 0 <= p < m :: kept[p].expiry <= clock || p + capacity <= prior
  }

  lemma {:induction false} PruneTail(order: seq<Entry>, kept: seq<Entry>, prior: nat, capacity: nat, clock: nat,
                                     now: nat)
    requires IsTail(order, kept, prior, capacity, clock) && clock <= now && SortedByExpiry(order)
    ensures IsTail(Live(order, now), kept, prior, capacity, now)
  {
    LiveSplits(order, now);
    hide Live, SortedByExpiry;
    var live := Live(order, now);
    var m := |kept| - |order|;
    forall p | m <= p < |kept| - |live| ensures kept[p].expiry <= now {
      assert kept[p] == order[p - m];
    }
  }

  /** A new entry joins, the oldest one makes room for it, and then it stays or is forgotten. */
  lemma {:induction false} AppendTail(live: seq<Entry>, kept: seq<Entry>, prior: nat, capacity: nat, now: nat, e: Entry)
    returns (front: seq<Entry>)
    requires IsTail(live, kept, prior, capacity, now) && capacity >= 1
    ensures Newest(live + [e], capacity) == front + [e] && IdsOf(front) <= IdsOf(live)
    ensures IsTail(front, kept, |kept|, capacity, now)
    ensures IsTail(front + [e], kept + [e], |kept|, capacity, now)
  {
    hide IdsOf;
    var n := if |live| < capacity then 0 else 1;
    SuffixIds(live, n);
    front := live[n..];
    assert (live + [e])[n..] == front + [e];
    var m := |kept| - |front|;
    assert front == kept[m..] && front + [e] == (kept + [e])[m..];
  }

  ghost predicate LiveAmong(kept: seq<Entry>, prior: nat, id: EnvelopeId, now: nat, capacity: nat) {
    exists p | 0 <= p < |kept| :: kept[p].id == id && kept[p].expiry > now && prior < p + capacity
  }

  /** An id is live in the queue exactly if it is in `kept`, live, and not pushed out. */
  lemma {:induction false} TailExact(order: seq<Entry>, kept: seq<Entry>, prior: nat, capacity: nat, clock: nat,
                                     id: EnvelopeId, now: nat)
    requires IsTail(order, kept, prior, capacity, clock) && clock <= now && SortedByExpiry(order)
    ensures id in IdsOf(Live(order, now)) <==> LiveAmong(kept, prior, id, now, capacity)
  {
    hide Live, SortedByExpiry, ExpiredFront, IsTail, IdsOf, LiveAmong;
    PruneTail(order, kept, prior, capacity, clock, now);
    LiveSplits(order, now);
    AllLive(order, Live(order, now), now);
    LiveTailExact(Live(order, now), kept, prior, capacity, id, now);
  }

  lemma {:induction false} LiveTailExact(live: seq<Entry>, kept: seq<Entry>, prior: nat, capacity: nat, id: EnvelopeId,
                                         now: nat)
    requires IsTail(live, kept, prior, capacity, now) && forall j | 0 <= j < |live| :: live[j].expiry > now
    ensures id in IdsOf(live) <==> LiveAmong(kept, prior, id, now, capacity)
  {
    var m := |kept| - |live|;
    if id in IdsOf(live) {
      var j :| 0 <= j < |live| && live[j].id == id;
      assert kept[m + j] == live[j];
    }
    if p :| 0 <= p < |kept| && kept[p].id == id && kept[p].expiry > now && prior < p + capacity {
      assert live[p - m] == kept[p];
    }
  }

  lemma {:induction false} SortedSnoc(order: seq<Entry>, e: Entry)
    requires SortedByExpiry(order) && forall x | x in order :: x.expiry <= e.expiry
    ensures SortedByExpiry(order + [e])
  {
  }

  /* ---------- acceptances and their places among those kept ---------- */

  lemma {:induction false} KeptAppend(a: seq<Mark>, b: seq<Mark>)
    ensures KeptOf(a + b) == KeptOf(a) + KeptOf(b)
  {
    if b == [] {
      assert a + b == a;
    } else {
      assert (a + b)[..|a + b| - 1] == a + b[..|b| - 1];
      KeptAppend(a, b[..|b| - 1]);
    }
  }

  /** A kept acceptance has as its place the number of those kept before it. */
  lemma {:induction false} PlaceOf(marks: seq<Mark>, i: nat)
    requires i < |marks| && marks[i].keep
    ensures |KeptOf(marks[..i])| < |KeptOf(marks)| && KeptOf(marks)[|KeptOf(marks[..i])|] == marks[i].entry
    ensures |KeptOf(marks[..i])| + |KeptOf(marks[i..|marks| - 1])| == Prior(marks)
  {
    hide KeptOf;
    var before, after := marks[..i], marks[i + 1..];
    OneMark(marks[i]);
    assert marks == before + ([marks[i]] + after);
    KeptAppend([marks[i]], after);
    KeptAppend(before, [marks[i]] + after);
    assert marks[..|marks| - 1] == before + marks[i..|marks| - 1];
    KeptAppend(before, marks[i..|marks| - 1]);
  }

  lemma {:induction false} OneMark(m: Mark)
    ensures KeptOf([m]) == if m.keep then [m.entry] else []
  {
    assert [m][..0] == [];
  }

  lemma {:induction false} FindPlace(marks: seq<Mark>, p: nat) returns (i: nat)
    requires p < |KeptOf(marks)|
    ensures i < |marks| && marks[i].keep && |KeptOf(marks[..i])| == p
  {
    var front := marks[..|marks| - 1];
    if p < |KeptOf(front)| {
      i := FindPlace(front, p);
      assert front[..i] == marks[..i];
    } else {
      i := |marks| - 1;
    }
  }

  lemma {:induction false} RecentlyKeptPlace(marks: seq<Mark>, id: EnvelopeId, now: nat, capacity: nat)
    ensures RecentlyKept(marks, id, now, capacity) <==>
            LiveAmong(KeptOf(marks), Prior(marks), id, now, capacity)
  {
    hide KeptOf, Prior;
    var kept := KeptOf(marks);
    if i :| 0 <= i < |marks| && marks[i].keep && marks[i].entry.id == id && marks[i].entry.expiry > now
            && |KeptOf(marks[i..|marks| - 1])| < capacity {
      PlaceOf(marks, i);
      assert kept[|KeptOf(marks[..i])|] == marks[i].entry;
    }
    if p :| 0 <= p < |kept| && kept[p].id == id && kept[p].expiry > now && Prior(marks) < p + capacity {
      var i := FindPlace(marks, p);
      PlaceOf(marks, i);
    }
  }

  /* ---------- one visit ---------- */

  ghost predicate Tracks(order: seq<Entry>, marks: seq<Mark>, clock: nat, ttl: nat, capacity: nat) {
    && IsTail(order, KeptOf(marks), Prior(marks), capacity, clock)
    && SortedByExpiry(KeptOf(marks))
    && (forall e | e in KeptOf(marks) :: e.expiry <= clock + ttl)
    && Apart(marks, ttl, capacity)
  }

  lemma {:induction false} TailSorted(order: seq<Entry>, kept: seq<Entry>, prior: nat, capacity: nat, clock: nat)
    requires IsTail(order, kept, prior, capacity, clock) && SortedByExpiry(kept)
    ensures SortedByExpiry(order)
  {
  }

  /** An id counts as a duplicate exactly if it was recently kept. */
  lemma {:induction false} VisitExact(order: seq<Entry>, marks: seq<Mark>, clock: nat, ttl: nat, capacity: nat,
                                      id: EnvelopeId, now: nat)
    requires Tracks(order, marks, clock, ttl, capacity) && clock <= now
    ensures !Accept(order, id, now, ttl, capacity).0 <==> RecentlyKept(marks, id, now, capacity)
  {
    hide IsTail, SortedByExpiry, Live, KeptOf, Prior, RecentlyKept, LiveAmong, Apart, Newest, IdsOf;
    TailSorted(order, KeptOf(marks), Prior(marks), capacity, clock);
    TailExact(order, KeptOf(marks), Prior(marks), capacity, clock, id, now);
    RecentlyKeptPlace(marks, id, now, capacity);
  }

  lemma {:induction false} VisitRepeat(order: seq<Entry>, marks: seq<Mark>, clock: nat, ttl: nat, capacity: nat,
                                       id: EnvelopeId, now: nat)
    requires Tracks(order, marks, clock, ttl, capacity) && clock <= now && !Accept(order, id, now, ttl, capacity).0
    ensures Tracks(Accept(order, id, now, ttl, capacity).1, marks, now, ttl, capacity)
  {
    hide IsTail, SortedByExpiry, Live, KeptOf, Prior, Apart, Newest, IdsOf;
    TailSorted(order, KeptOf(marks), Prior(marks), capacity, clock);
    PruneTail(order, KeptOf(marks), Prior(marks), capacity, clock, now);
  }

  lemma {:induction false} MarkSnoc(marks: seq<Mark>, m: Mark)
    ensures KeptOf(marks + [m]) == KeptOf(marks) + if m.keep then [m.entry] else []
    ensures Prior(marks + [m]) == |KeptOf(marks)|
  {
    assert (marks + [m])[..|marks|] == marks;
  }

  lemma {:induction false} VisitNew(order: seq<Entry>, marks: seq<Mark>, clock: nat, ttl: nat, capacity: nat, v: Visit)
    requires Tracks(order, marks, clock, ttl, capacity) && capacity >= 1 && clock <= v.at
    requires Accept(order, v.id, v.at, ttl, capacity).0
    ensures Tracks(Settle(Accept(order, v.id, v.at, ttl, capacity).1, v.id, v.keep),
                   marks + [Mark(Entry(v.id, v.at + ttl), v.keep)], v.at, ttl, capacity)
  {
    ApartNew(order, marks, clock, ttl, capacity, v);
    hide IsTail, SortedByExpiry, KeptOf, Prior, Apart, IdsOf, Without, Accept;
    var kept, e := KeptOf(marks), Entry(v.id, v.at + ttl);
    var front := NewTail(order, kept, Prior(marks), clock, ttl, capacity, v);
    MarkSnoc(marks, Mark(e, v.keep));
    if v.keep {
      SortedSnoc(kept, e);
    } else {
      WithoutLast(front, e);
      assert kept + [] == kept;
    }
  }

  lemma {:induction false} NewTail(order: seq<Entry>, kept: seq<Entry>, prior: nat, clock: nat, ttl: nat, capacity: nat,
                                   v: Visit) returns (front: seq<Entry>)
    requires IsTail(order, kept, prior, capacity, clock) && SortedByExpiry(kept) && capacity >= 1 && clock <= v.at
    requires Accept(order, v.id, v.at, ttl, capacity).0
    ensures var e := Entry(v.id, v.at + ttl);
            && Accept(order, v.id, v.at, ttl, capacity).1 == front + [e] && v.id !in IdsOf(front)
            && IsTail(front, kept, |kept|, capacity, v.at)
            && IsTail(front + [e], kept + [e], |kept|, capacity, v.at)
  {
    hide IsTail, SortedByExpiry, Live, Newest, IdsOf;
    TailSorted(order, kept, prior, capacity, clock);
    PruneTail(order, kept, prior, capacity, clock, v.at);
    front := AppendTail(Live(order, v.at), kept, prior, capacity, v.at, Entry(v.id, v.at + ttl));
  }

  lemma {:induction false} ApartNew(order: seq<Entry>, marks: seq<Mark>, clock: nat, ttl: nat, capacity: nat, v: Visit)
    requires Tracks(order, marks, clock, ttl, capacity) && clock <= v.at && Accept(order, v.id, v.at, ttl, capacity).0
    ensures Apart(marks + [Mark(Entry(v.id, v.at + ttl), v.keep)], ttl, capacity)
  {
    VisitExact(order, marks, clock, ttl, capacity, v.id, v.at);
    hide Accept, KeptOf, IsTail, SortedByExpiry;
    var all := marks + [Mark(Entry(v.id, v.at + ttl), v.keep)];
    forall i, j | 0 <= i < j < |all| && all[i].keep && all[i].entry.id == all[j].entry.id
      ensures all[i].entry.expiry + ttl <= all[j].entry.expiry || |KeptOf(all[i..j - 1])| >= capacity
    {
      assert all[i..j - 1] == marks[i..j - 1];
      if j < |marks| {
        assert marks[j].entry == all[j].entry;
      }
    }
  }

  lemma {:induction false} NothingTracked(ttl: nat, capacity: nat)
    requires capacity >= 1
    ensures Tracks([], [], 0, ttl, capacity)
  {
  }

  /* ---------- every run ---------- */

  ghost function Clock(vs: seq<Visit>): nat {
    if vs == [] then 0 else vs[|vs| - 1].at
  }

  lemma {:induction false} EveryRunTracks(vs: seq<Visit>, ttl: nat, capacity: nat)
    requires Monotone(vs) && capacity >= 1
    ensures Tracks(Visited(vs, ttl, capacity).0, Visited(vs, ttl, capacity).1, Clock(vs), ttl, capacity)
  {
    hide Accept, Tracks, Settle;
    if vs == [] {
      NothingTracked(ttl, capacity);
    } else {
      var front, v := vs[..|vs| - 1], vs[|vs| - 1];
      EveryRunTracks(front, ttl, capacity);
      var (order, marks) := Visited(front, ttl, capacity);
      if Accept(order, v.id, v.at, ttl, capacity).0 {
        VisitNew(order, marks, Clock(front), ttl, capacity, v);
      } else {
        VisitRepeat(order, marks, Clock(front), ttl, capacity, v.id, v.at);
      }
    }
  }

  /**
   * In every run, forgetting included, an id is a duplicate exactly if some kept acceptance of it
   * is live, and fewer than `capacity` were kept from it up to the acceptance before the last.
   */
  lemma {:induction false} DuplicateExactly(vs: seq<Visit>, ttl: nat, capacity: nat, id: EnvelopeId, now: nat)
    requires Monotone(vs) && capacity >= 1 && Clock(vs) <= now
    ensures var (order, marks) := Visited(vs, ttl, capacity);
            !Accept(order, id, now, ttl, capacity).0 <==> RecentlyKept(marks, id, now, capacity)
  {
    hide Accept, Tracks, RecentlyKept, Visited;
    var (order, marks) := Visited(vs, ttl, capacity);
    EveryRunTracks(vs, ttl, capacity);
    VisitExact(order, marks, Clock(vs), ttl, capacity, id, now);
  }

  /** In every run, an id that was kept is accepted again only a time to live or `capacity` kept ones later. */
  lemma {:induction false} AcceptedApart(vs: seq<Visit>, ttl: nat, capacity: nat)
    requires Monotone(vs) && capacity >= 1
    ensures Apart(Visited(vs, ttl, capacity).1, ttl, capacity)
  {
    EveryRunTracks(vs, ttl, capacity);
    hide Visited, IsTail, Apart, KeptOf;
  }
}
