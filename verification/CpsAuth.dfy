/** The `cps` policy: chain decisions behind a bounded LRU cache whose denials expire. */
module CpsAuth {
  import opened Prelude
  import opened Ancestry

  /** A sensor's 32-byte public key. */
  type SensorKey = nat

  /** A cached decision; `None` keeps it until eviction. */
  datatype Cached = Cached(allowed: bool, expires: Option<nat>)

  datatype Slot = Slot(key: SensorKey, entry: Cached)

  /** The cache, least recently used slot first. */
  type Lru = seq<Slot>

  ghost predicate DistinctKeys(c: Lru) {
    forall i, j | 0 <= i < j < |c| :: c[i].key != c[j].key
  }

  function Without(c: Lru, key: SensorKey): Lru {
    if c == [] then []
    else if c[0].key == key then Without(c[1..], key)
    else [c[0]] + Without(c[1..], key)
  }

  function Find(c: Lru, key: SensorKey): (r: Option<Cached>)
    ensures r.Some? ==> Slot(key, r.value) in c
    ensures r.None? ==> forall s | s in c :: s.key != key
  {
    if c == [] then None
    else if c[0].key == key then Some(c[0].entry)
    else Find(c[1..], key)
  }

  /** `LruCache::put`. */
  function Put(c: Lru, capacity: nat, key: SensorKey, entry: Cached): Lru {
    if Find(c, key).Some? then Without(c, key) + [Slot(key, entry)]
    else if |c| >= capacity && c != [] then c[1..] + [Slot(key, entry)]
    else c + [Slot(key, entry)]
  }

  predicate Expired(e: Cached, now: nat) {
    e.expires.Some? && e.expires.value <= now
  }

  /** A lookup in the cache: the live decision, and the cache with it promoted or dropped. */
  function Consult(c: Lru, key: SensorKey, now: nat): (Option<bool>, Lru) {
    match Find(c, key)
    case None => (None, c)
    case Some(e) =>
      if Expired(e, now) then (None, Without(c, key))
      else (Some(e.allowed), Without(c, key) + [Slot(key, e)])
  }

  function EntryFor(allowed: bool, now: nat, negativeTtl: nat): Cached {
    Cached(allowed, if allowed then None else Some(now + negativeTtl))
  }

  lemma {:induction false} WithoutContents(c: Lru, key: SensorKey)
    requires DistinctKeys(c)
    ensures DistinctKeys(Without(c, key))
    ensures forall s :: s in Without(c, key) <==> s in c && s.key != key
    ensures |Without(c, key)| == if Find(c, key).Some? then |c| - 1 else |c|
  {
    if c != [] {
      WithoutContents(c[1..], key);
      if c[0].key == key {
        assert forall s | s in c[1..] :: s.key != key;
      } else {
        assert forall s | s in Without(c[1..], key) :: s in c[1..] && s.key != c[0].key;
      }
    }
  }

  lemma {:induction false} PutContents(c: Lru, capacity: nat, key: SensorKey, entry: Cached)
    requires DistinctKeys(c) && |c| <= capacity && capacity >= 1
    ensures var c' := Put(c, capacity, key, entry);
            && DistinctKeys(c') && |c'| <= capacity
            && forall s | s in c' :: s == Slot(key, entry) || (s in c && s.key != key)
  {
    WithoutContents(c, key);
  }

  /* ---------- soundness over whole runs ---------- */

  /** What the chain reader answers at one finalized block: verification, bindings and tree. */
  datatype Chain = Chain(
    verify: Result<(), ReaderError>,
    bound: SensorKey -> Result<Option<NodeId>, ReaderError>,
    tree: Tree)

  /** The sensor is bound to a strict descendant of the root. */
  ghost predicate BelowRoot(chain: Chain, key: SensorKey, root: NodeId) {
    chain.bound(key).Ok? && chain.bound(key).value.Some? && Descends(chain.tree, root, chain.bound(key).value.value)
  }

  /** The sensor is unbound, bound to the root, or bound in another tree. */
  ghost predicate OutsideRoot(chain: Chain, key: SensorKey, root: NodeId) {
    && chain.bound(key).Ok?
    && (chain.bound(key).value.None? || Detached(chain.tree, root, chain.bound(key).value.value))
  }

  /** A decision, when it was made, and the chain view and root it was made from. */
  datatype Decision = Decision(key: SensorKey, allowed: bool, at: nat, chain: Chain, root: NodeId)

  /** An allow rests on a binding of this sensor below the root, a denial on one outside it. */
  ghost predicate Grounded(d: Decision) {
    if d.allowed then BelowRoot(d.chain, d.key, d.root) else OutsideRoot(d.chain, d.key, d.root)
  }

  /** Every cached allow was decided once; every cached denial expires `negativeTtl` after it was. */
  ghost predicate Justified(c: Lru, decisions: seq<Decision>, negativeTtl: nat) {
    forall s | s in c ::
      if s.entry.allowed then s.entry.expires.None? && exists d :: d in decisions && d.key == s.key && d.allowed
      else exists d :: d in decisions && d.key == s.key && !d.allowed && s.entry.expires == Some(d.at + negativeTtl)
  }

  /** The policy decided so for the sensor at some time. */
  ghost predicate Rests(decisions: seq<Decision>, key: SensorKey, allowed: bool) {
    exists d :: d in decisions && d.key == key && d.allowed == allowed
  }

  /** A denial for the sensor was given less than `negativeTtl` ago. */
  ghost predicate LiveDenial(decisions: seq<Decision>, key: SensorKey, now: nat, negativeTtl: nat) {
    exists d :: d in decisions && d.key == key && !d.allowed && now < d.at + negativeTtl
  }

  ghost predicate AllGrounded(decisions: seq<Decision>, clock: nat) {
    forall d | d in decisions :: d.at <= clock && Grounded(d)
  }

  /* ---------- calls in progress ---------- */

  /** Where an answer came from: the cache, a reading of the chain, or the clock of the timeout. */
  datatype Source = FromCache(at: nat) | Read(chain: Chain, verified: bool) | Late

  /**
   * How far a call of `authorize` has got: the cache gave no answer, the chain gave one that is
   * not stored yet, or the call is over.
   */
  datatype Progress =
    | Missed
    | Looked(allowed: bool, chain: Chain, verified: bool)
    | Answered(answer: Result<bool, AuthError>, source: Source)

  datatype Query = Query(key: SensorKey, progress: Progress)

  /** A call that is over: its answer and where that came from, or that its task died. */
  datatype Outcome = Outcome(key: SensorKey, end: Option<(Result<bool, AuthError>, Source)>)

  /** What all calls share, the calls in progress, and what was decided and answered so far. */
  datatype Shared = Shared(cache: Lru, verified: bool, clock: nat, queries: map<nat, Query>,
                           decisions: seq<Decision>, outcomes: seq<Outcome>)

  /** The atomic parts of calls; those of different calls interleave in any way. */
  datatype Part =
    | Asking(key: SensorKey, now: nat)
    | Beginning(id: nat, key: SensorKey, now: nat)
    | Looking(id: nat, chain: Chain, result: Result<bool, AuthError>)
    | TimingOut(id: nat, reached: bool)
    | Storing(id: nat, now: nat)
    | Collecting(id: nat)
    | Dying(id: nat, key: SensorKey)

  /** What a lookup returns, exactly; `verified` says whether the chain had been verified before. */
  ghost predicate LookupGives(chain: Chain, key: SensorKey, root: NodeId, verified: bool, r: Result<bool, AuthError>) {
    var bound := chain.bound(key);
    if !verified && chain.verify.Err? then r == Err(Reader(chain.verify.error))
    else if bound.Err? then r == Err(Reader(bound.error))
    else if bound.value.None? then r == Ok(false)
    else WalkGives(chain.tree, root, bound.value.value, r)
  }

  /** An allow means a binding below the root, a denial one outside it, an error neither or no verification. */
  lemma {:induction false} LookupSound(chain: Chain, key: SensorKey, root: NodeId, verified: bool,
                                       r: Result<bool, AuthError>)
    requires LookupGives(chain, key, root, verified, r)
    ensures r == Ok(true) <==> (verified || chain.verify.Ok?) && BelowRoot(chain, key, root)
    ensures r == Ok(false) <==> (verified || chain.verify.Ok?) && OutsideRoot(chain, key, root)
  {
    hide Descends, Detached, ErrorsExact;
  }

  ghost function Progressed(s: Shared, id: nat, p: Progress): Shared
    requires id in s.queries
  {
    s.(queries := s.queries[id := Query(s.queries[id].key, p)])
  }

  ghost function Ended(s: Shared, id: nat, o: Outcome): Shared {
    s.(queries := s.queries - {id}, outcomes := s.outcomes + [o])
  }

  /** One part; a part that is not due changes nothing. */
  ghost function Do(root: NodeId, capacity: nat, negativeTtl: nat, s: Shared, p: Part): Shared {
    match p
    case Asking(key, now) =>
      if now < s.clock then s else s.(cache := Consult(s.cache, key, now).1, clock := now)
    case Beginning(id, key, now) =>
      if now < s.clock || id in s.queries then s
      else
        var (known, cache) := Consult(s.cache, key, now);
        var progress := if known.Some? then Answered(Ok(known.value), FromCache(now)) else Missed;
        s.(cache := cache, clock := now, queries := s.queries[id := Query(key, progress)])
    case Looking(id, chain, r) =>
      if id !in s.queries || !s.queries[id].progress.Missed? then s
      else if !LookupGives(chain, s.queries[id].key, root, s.verified, r) then s
      else
        Progressed(s.(verified := s.verified || chain.verify.Ok?), id,
                   if r.Ok? then Looked(r.value, chain, s.verified) else Answered(r, Read(chain, s.verified)))
    case TimingOut(id, reached) =>
      if id !in s.queries || !s.queries[id].progress.Missed? then s
      else Progressed(s.(verified := s.verified || reached), id, Answered(Err(TimedOut), Late))
    case Storing(id, now) =>
      if now < s.clock || id !in s.queries || !s.queries[id].progress.Looked? then s
      else
        var q := s.queries[id];
        var d := Decision(q.key, q.progress.allowed, now, q.progress.chain, root);
        Progressed(Stored(capacity, negativeTtl, s, d), id,
                   Answered(Ok(d.allowed), Read(q.progress.chain, q.progress.verified)))
    case Collecting(id) =>
      if id !in s.queries || !s.queries[id].progress.Answered? then s
      else
        var q := s.queries[id];
        Ended(s, id, Outcome(q.key, Some((q.progress.answer, q.progress.source))))
    case Dying(id, key) =>
      if id in s.queries && (s.queries[id].progress.Answered? || s.queries[id].key != key) then s
      else Ended(s, id, Outcome(key, None))
  }

  ghost function Stored(capacity: nat, negativeTtl: nat, s: Shared, d: Decision): Shared {
    s.(cache := Put(s.cache, capacity, d.key, EntryFor(d.allowed, d.at, negativeTtl)), clock := d.at,
       decisions := s.decisions + [d])
  }

  ghost function DoAll(root: NodeId, capacity: nat, negativeTtl: nat, s: Shared, parts: seq<Part>): Shared {
    if parts == [] then s
    else Do(root, capacity, negativeTtl, DoAll(root, capacity, negativeTtl, s, parts[..|parts| - 1]),
            parts[|parts| - 1])
  }

  const NEW_POLICY := Shared([], false, 0, map[], [], [])

  /** An answer is backed by the cache when it was asked, by the chain as it was read, or by nothing but time. */
  ghost predicate AnswerOk(s: Shared, root: NodeId, negativeTtl: nat, key: SensorKey, answer: Result<bool, AuthError>,
                           source: Source) {
    && (answer.Ok? ==> s.verified && Rests(s.decisions, key, answer.value))
    && match source
       case FromCache(at) => answer.Ok? && (answer == Ok(false) ==> LiveDenial(s.decisions, key, at, negativeTtl))
       case Read(chain, verified) => LookupGives(chain, key, root, verified, answer)
       case Late => answer == Err(TimedOut)
  }

  /** What a call in progress holds is backed by the chain or by a decision. */
  ghost predicate QueryOk(s: Shared, root: NodeId, negativeTtl: nat, q: Query) {
    match q.progress
    case Missed => true
    case Looked(allowed, chain, verified) =>
      s.verified && LookupGives(chain, q.key, root, verified, Ok(allowed))
    case Answered(answer, source) => AnswerOk(s, root, negativeTtl, q.key, answer, source)
  }

  ghost predicate OutcomeOk(s: Shared, root: NodeId, negativeTtl: nat, o: Outcome) {
    o.end.Some? ==> AnswerOk(s, root, negativeTtl, o.key, o.end.value.0, o.end.value.1)
  }

  ghost predicate CacheOk(capacity: nat, negativeTtl: nat, s: Shared) {
    && capacity >= 1
    && DistinctKeys(s.cache) && |s.cache| <= capacity
    && Justified(s.cache, s.decisions, negativeTtl)
    && (s.decisions != [] ==> s.verified)
    && AllGrounded(s.decisions, s.clock)
  }

  /** Every call in progress and every call that is over is backed. */
  ghost predicate CallsOk(root: NodeId, negativeTtl: nat, s: Shared) {
    && (forall id | id in s.queries :: QueryOk(s, root, negativeTtl, s.queries[id]))
    && (forall o | o in s.outcomes :: OutcomeOk(s, root, negativeTtl, o))
  }

  ghost predicate PolicyOk(root: NodeId, capacity: nat, negativeTtl: nat, s: Shared) {
    && CacheOk(capacity, negativeTtl, s) && CallsOk(root, negativeTtl, s)
    && (forall d | d in s.decisions :: d.root == root)
  }

  lemma {:induction false} ConsultKeeps(capacity: nat, negativeTtl: nat, s: Shared, key: SensorKey, now: nat)
    requires CacheOk(capacity, negativeTtl, s) && s.clock <= now
    ensures CacheOk(capacity, negativeTtl, s.(cache := Consult(s.cache, key, now).1, clock := now))
  {
    WithoutContents(s.cache, key);
    hide Grounded;
  }

  /** An answer from the cache rests on an earlier decision, a denial on a recent one. */
  lemma {:induction false} ConsultSound(capacity: nat, negativeTtl: nat, s: Shared, key: SensorKey, now: nat)
    requires CacheOk(capacity, negativeTtl, s)
    ensures var known := Consult(s.cache, key, now).0;
            && (known.Some? ==> s.verified && Rests(s.decisions, key, known.value))
            && (known == Some(false) ==> LiveDenial(s.decisions, key, now, negativeTtl))
  {
    var found := Find(s.cache, key);
    if found.Some? {
      assert Slot(key, found.value) in s.cache;
    }
  }

  lemma {:induction false} StoreKeeps(capacity: nat, negativeTtl: nat, s: Shared, d: Decision)
    requires CacheOk(capacity, negativeTtl, s) && s.clock <= d.at && s.verified && Grounded(d)
    ensures CacheOk(capacity, negativeTtl, Stored(capacity, negativeTtl, s, d))
  {
    hide Grounded;
    var entry := EntryFor(d.allowed, d.at, negativeTtl);
    PutContents(s.cache, capacity, d.key, entry);
    var after := s.decisions + [d];
    var c := Put(s.cache, capacity, d.key, entry);
    hide Put, DistinctKeys;
    assert d in after && forall x | x in s.decisions :: x in after;
  }

  /** Verification and decisions only grow. */
  ghost predicate Later(s: Shared, t: Shared) {
    (s.verified ==> t.verified) && s.decisions <= t.decisions
  }

  lemma {:induction false} AnswerLater(s: Shared, t: Shared, root: NodeId, negativeTtl: nat, key: SensorKey,
                                       answer: Result<bool, AuthError>, source: Source)
    requires AnswerOk(s, root, negativeTtl, key, answer, source) && Later(s, t)
    ensures AnswerOk(t, root, negativeTtl, key, answer, source)
  {
    hide LookupGives;
    assert forall d | d in s.decisions :: d in t.decisions;
  }

  lemma {:induction false} QueryLater(s: Shared, t: Shared, root: NodeId, negativeTtl: nat, q: Query)
    requires QueryOk(s, root, negativeTtl, q) && Later(s, t)
    ensures QueryOk(t, root, negativeTtl, q)
  {
    hide AnswerOk, LookupGives;
    if q.progress.Answered? {
      AnswerLater(s, t, root, negativeTtl, q.key, q.progress.answer, q.progress.source);
    }
  }

  /** Whatever one call does, what the others hold stays backed. */
  lemma {:induction false} CallsLater(s: Shared, t: Shared, root: NodeId, negativeTtl: nat, id: nat)
    requires CallsOk(root, negativeTtl, s) && Later(s, t)
    requires forall i | i in t.queries && i != id :: i in s.queries && t.queries[i] == s.queries[i]
    requires id in t.queries ==> QueryOk(t, root, negativeTtl, t.queries[id])
    requires forall o | o in t.outcomes :: o in s.outcomes || OutcomeOk(t, root, negativeTtl, o)
    ensures CallsOk(root, negativeTtl, t)
  {
    hide QueryOk, AnswerOk;
    forall i | i in t.queries && i != id ensures QueryOk(t, root, negativeTtl, t.queries[i]) {
      QueryLater(s, t, root, negativeTtl, t.queries[i]);
    }
    forall o | o in t.outcomes ensures OutcomeOk(t, root, negativeTtl, o) {
      if o in s.outcomes && o.end.Some? {
        AnswerLater(s, t, root, negativeTtl, o.key, o.end.value.0, o.end.value.1);
      }
    }
  }

  lemma {:induction false} DoKeeps(root: NodeId, capacity: nat, negativeTtl: nat, s: Shared, p: Part)
    requires PolicyOk(root, capacity, negativeTtl, s)
    ensures PolicyOk(root, capacity, negativeTtl, Do(root, capacity, negativeTtl, s, p))
    ensures s.decisions <= Do(root, capacity, negativeTtl, s, p).decisions
  {
    match p
    case Asking(key, now) => AskKeeps(root, capacity, negativeTtl, s, p);
    case Beginning(id, key, now) => AskKeeps(root, capacity, negativeTtl, s, p);
    case Looking(id, chain, r) => LookKeeps(root, capacity, negativeTtl, s, p);
    case TimingOut(id, reached) => LookKeeps(root, capacity, negativeTtl, s, p);
    case Storing(id, now) => StoringKeeps(root, capacity, negativeTtl, s, p);
    case Collecting(id) => EndKeeps(root, capacity, negativeTtl, s, p);
    case Dying(id, key) => EndKeeps(root, capacity, negativeTtl, s, p);
  }

  lemma {:induction false} AskKeeps(root: NodeId, capacity: nat, negativeTtl: nat, s: Shared, p: Part)
    requires PolicyOk(root, capacity, negativeTtl, s) && (p.Asking? || p.Beginning?)
    ensures PolicyOk(root, capacity, negativeTtl, Do(root, capacity, negativeTtl, s, p))
    ensures s.decisions <= Do(root, capacity, negativeTtl, s, p).decisions
  {
    hide CacheOk, CallsOk, Consult, LookupGives, Rests, LiveDenial;
    var t := Do(root, capacity, negativeTtl, s, p);
    if s.clock <= p.now && (p.Beginning? ==> p.id !in s.queries) {
      ConsultKeeps(capacity, negativeTtl, s, p.key, p.now);
      ConsultSound(capacity, negativeTtl, s, p.key, p.now);
      CacheOnly(capacity, negativeTtl, s.(cache := Consult(s.cache, p.key, p.now).1, clock := p.now), t);
      if p.Asking? {
        CallsSame(s, t, root, negativeTtl);
      } else {
        CallsLater(s, t, root, negativeTtl, p.id);
      }
    }
  }

  lemma {:induction false} LookKeeps(root: NodeId, capacity: nat, negativeTtl: nat, s: Shared, p: Part)
    requires PolicyOk(root, capacity, negativeTtl, s) && (p.Looking? || p.TimingOut?)
    ensures PolicyOk(root, capacity, negativeTtl, Do(root, capacity, negativeTtl, s, p))
    ensures s.decisions <= Do(root, capacity, negativeTtl, s, p).decisions
  {
    hide CacheOk, CallsOk, LookupGives, BelowRoot, OutsideRoot;
    var t := Do(root, capacity, negativeTtl, s, p);
    CacheOnly(capacity, negativeTtl, s, t);
    if t != s {
      if p.Looking? {
        LookupSound(p.chain, s.queries[p.id].key, root, s.verified, p.result);
      }
      CallsLater(s, t, root, negativeTtl, p.id);
    }
  }

  lemma {:induction false} StoringKeeps(root: NodeId, capacity: nat, negativeTtl: nat, s: Shared, p: Part)
    requires PolicyOk(root, capacity, negativeTtl, s) && p.Storing?
    ensures PolicyOk(root, capacity, negativeTtl, Do(root, capacity, negativeTtl, s, p))
    ensures s.decisions <= Do(root, capacity, negativeTtl, s, p).decisions
  {
    var id, now := p.id, p.now;
    if s.clock <= now && id in s.queries && s.queries[id].progress.Looked? {
      var q := s.queries[id];
      assert QueryOk(s, root, negativeTtl, q);
      hide CacheOk, CallsOk, LookupGives, BelowRoot, OutsideRoot, Put;
      var d := Decision(q.key, q.progress.allowed, now, q.progress.chain, root);
      LookupSound(q.progress.chain, q.key, root, q.progress.verified, Ok(q.progress.allowed));
      StoreKeeps(capacity, negativeTtl, s, d);
      var t := Do(root, capacity, negativeTtl, s, p);
      CacheOnly(capacity, negativeTtl, Stored(capacity, negativeTtl, s, d), t);
      assert t.decisions[|s.decisions|] == d;
      CallsLater(s, t, root, negativeTtl, id);
    }
  }

  lemma {:induction false} EndKeeps(root: NodeId, capacity: nat, negativeTtl: nat, s: Shared, p: Part)
    requires PolicyOk(root, capacity, negativeTtl, s) && (p.Collecting? || p.Dying?)
    ensures PolicyOk(root, capacity, negativeTtl, Do(root, capacity, negativeTtl, s, p))
    ensures s.decisions <= Do(root, capacity, negativeTtl, s, p).decisions
  {
    var t := Do(root, capacity, negativeTtl, s, p);
    if t != s {
      if p.Collecting? {
        assert QueryOk(s, root, negativeTtl, s.queries[p.id]);
        AnswerLater(s, t, root, negativeTtl, s.queries[p.id].key, s.queries[p.id].progress.answer,
                    s.queries[p.id].progress.source);
      }
      hide CacheOk, CallsOk, AnswerOk;
      CacheOnly(capacity, negativeTtl, s, t);
      CallsLater(s, t, root, negativeTtl, p.id);
    }
  }

  lemma {:induction false} CallsSame(s: Shared, t: Shared, root: NodeId, negativeTtl: nat)
    requires CallsOk(root, negativeTtl, s)
    requires s.verified == t.verified && s.decisions == t.decisions
    requires s.queries == t.queries && s.outcomes == t.outcomes
    ensures CallsOk(root, negativeTtl, t)
  {
    hide LookupGives, Rests, LiveDenial;
  }

  lemma {:induction false} CacheOnly(capacity: nat, negativeTtl: nat, s: Shared, t: Shared)
    requires CacheOk(capacity, negativeTtl, s) && s.cache == t.cache && s.decisions == t.decisions && s.clock == t.clock
    requires s.verified ==> t.verified
    ensures CacheOk(capacity, negativeTtl, t)
  {
    hide Justified, AllGrounded, DistinctKeys;
  }

  /**
   * However the parts of concurrent calls interleave: keys are distinct and within capacity, every
   * cached answer and every answer of a call rests on a decision, and every decision on the chain.
   */
  lemma {:induction false} InterleavedSound(root: NodeId, capacity: nat, negativeTtl: nat, parts: seq<Part>)
    requires capacity >= 1
    ensures PolicyOk(root, capacity, negativeTtl, DoAll(root, capacity, negativeTtl, NEW_POLICY, parts))
  {
    hide PolicyOk, Do;
    if parts == [] {
      NewPolicyOk(root, capacity, negativeTtl);
    } else {
      InterleavedSound(root, capacity, negativeTtl, parts[..|parts| - 1]);
      DoKeeps(root, capacity, negativeTtl, DoAll(root, capacity, negativeTtl, NEW_POLICY, parts[..|parts| - 1]),
              parts[|parts| - 1]);
    }
  }

  lemma {:induction false} NewPolicyOk(root: NodeId, capacity: nat, negativeTtl: nat)
    requires capacity >= 1
    ensures PolicyOk(root, capacity, negativeTtl, NEW_POLICY)
  {
  }

  /** Over every interleaving, what the cache serves was decided after verification, a denial recently. */
  lemma {:induction false} ServedSound(root: NodeId, capacity: nat, negativeTtl: nat, parts: seq<Part>, key: SensorKey,
                                       now: nat)
    requires capacity >= 1
    ensures var s := DoAll(root, capacity, negativeTtl, NEW_POLICY, parts);
            var known := Consult(s.cache, key, now).0;
            && |s.cache| <= capacity
            && (known.Some? ==> s.verified && Rests(s.decisions, key, known.value))
            && (known == Some(false) ==> LiveDenial(s.decisions, key, now, negativeTtl))
            && (forall d | d in s.decisions :: d.root == root && Grounded(d))
  {
    InterleavedSound(root, capacity, negativeTtl, parts);
    hide DoAll, Consult, Grounded, Justified, DistinctKeys;
    ConsultSound(capacity, negativeTtl, DoAll(root, capacity, negativeTtl, NEW_POLICY, parts), key, now);
  }

  /* ---------- the policy ---------- */

  ghost predicate SourcePinned(pinned: Chain -> bool, source: Source) {
    source.Read? ==> pinned(source.chain)
  }

  ghost predicate ProgressPinned(pinned: Chain -> bool, p: Progress) {
    match p
    case Missed => true
    case Looked(_, chain, _) => pinned(chain)
    case Answered(_, source) => SourcePinned(pinned, source)
  }

  /** Decisions made and answers given come from readings of the chain that really happened. */
  ghost predicate AllPinned(pinned: Chain -> bool, s: Shared) {
    && (forall d | d in s.decisions :: pinned(d.chain))
    && (forall id | id in s.queries :: ProgressPinned(pinned, s.queries[id].progress))
    && (forall o | o in s.outcomes && o.end.Some? :: SourcePinned(pinned, o.end.value.1))
  }

  lemma {:induction false} PinnedStored(pinned: Chain -> bool, s: Shared, root: NodeId, capacity: nat, negativeTtl: nat,
                                        id: nat, now: nat)
    requires AllPinned(pinned, s) && id in s.queries && s.queries[id].progress.Looked?
    ensures pinned(s.queries[id].progress.chain)
    ensures AllPinned(pinned, Do(root, capacity, negativeTtl, s, Storing(id, now)))
  {
    hide Put;
    assert ProgressPinned(pinned, s.queries[id].progress);
  }

  class Policy {
    const root: NodeId
    /** Which readings the chain reader really gives. */
    ghost const pinned: Chain -> bool
    const capacity: nat
    const negativeTtl: nat
    var verified: bool
    var cache: Lru
    /** Calls of `authorize` in progress. */
    var queries: map<nat, Query>
    /** The latest clock reading, and what was decided and answered so far. */
    var clock: nat
    ghost var decisions: seq<Decision>
    ghost var outcomes: seq<Outcome>

    ghost function View(): Shared
      reads this
    {
      Shared(cache, verified, clock, queries, decisions, outcomes)
    }

    ghost predicate Valid()
      reads this
    {
      PolicyOk(root, capacity, negativeTtl, View()) && AllPinned(pinned, View())
    }

    constructor (root: NodeId, capacity: nat, negativeTtl: nat, ghost pinned: Chain -> bool)
      requires capacity >= 1
      ensures Valid() && View() == NEW_POLICY
      ensures this.root == root && this.capacity == capacity && this.negativeTtl == negativeTtl
      ensures this.pinned == pinned
    {
      this.pinned := pinned;
      this.root, this.capacity, this.negativeTtl := root, capacity, negativeTtl;
      verified, cache, clock, queries, decisions, outcomes := false, [], 0, map[], [], [];
    }

    /**
     * The decision if it is known without I/O. An allow was decided by an earlier lookup after
     * verification; a denial by one less than `negativeTtl` ago.
     */
    method TryAuthorize(key: SensorKey, now: nat) returns (r: Option<bool>)
      requires Valid() && clock <= now
      modifies `cache, `clock
      ensures Valid() && View() == Do(root, capacity, negativeTtl, old(View()), Asking(key, now))
      ensures r == Consult(old(cache), key, now).0
      ensures r.Some? ==> verified && Rests(decisions, key, r.value)
      ensures r == Some(false) ==> LiveDenial(decisions, key, now, negativeTtl)
    {
      DoKeeps(root, capacity, negativeTtl, View(), Asking(key, now));
      ConsultSound(capacity, negativeTtl, View(), key, now);
      hide PolicyOk, Rests, LiveDenial;
      clock := now;
      var found := Find(cache, key);
      if found.None? {
        return None;
      }
      if Expired(found.value, now) {
        cache := Without(cache, key);
        return None;
      }
      cache := Without(cache, key) + [Slot(key, found.value)];
      r := Some(found.value.allowed);
    }

    /** First part of a call: ask the cache. */
    method Begin(id: nat, key: SensorKey, now: nat)
      requires Valid() && clock <= now && id !in queries
      modifies `cache, `clock, `queries
      ensures Valid() && View() == Do(root, capacity, negativeTtl, old(View()), Beginning(id, key, now))
    {
      DoKeeps(root, capacity, negativeTtl, View(), Beginning(id, key, now));
      hide PolicyOk;
      var known := TryAuthorize(key, now);
      queries := queries[id := Query(key, if known.Some? then Answered(Ok(known.value), FromCache(now)) else Missed)];
    }

    /** What the chain answers, whatever the cache holds. */
    method Lookup(chain: Chain, key: SensorKey) returns (r: Result<bool, AuthError>)
      modifies `verified
      ensures verified == (old(verified) || chain.verify.Ok?)
      ensures LookupGives(chain, key, root, old(verified), r)
    {
      if !verified {
        if chain.verify.Err? {
          return Err(Reader(chain.verify.error));
        }
        verified := true;
      }
      var bound := chain.bound(key);
      if bound.Err? {
        return Err(Reader(bound.error));
      }
      if bound.value.None? {
        return Ok(false);
      }
      r := Walk(chain.tree, root, bound.value.value);
    }

    /** Second part: after a miss, the lookup within its timeout. An error ends the call and stores nothing. */
    method Look(id: nat, chain: Chain, timeout: bool)
      requires Valid() && id in queries && queries[id].progress.Missed? && pinned(chain)
      modifies `verified, `queries
      ensures Valid() && (old(verified) ==> verified)
      ensures timeout ==> queries == old(queries)[id := Query(old(queries)[id].key, Answered(Err(TimedOut), Late))]
      ensures !timeout ==> exists r :: LookupGives(chain, old(queries)[id].key, root, old(verified), r)
                                       && View() == Do(root, capacity, negativeTtl, old(View()), Looking(id, chain, r))
      ensures queries.Keys == old(queries).Keys
      ensures !queries[id].progress.Missed? && queries[id].key == old(queries)[id].key
      ensures forall i | i in queries && i != id :: queries[i] == old(queries)[i]
    {
      ghost var before := View();
      var key := queries[id].key;
      if timeout {
        var reached := *;
        DoKeeps(root, capacity, negativeTtl, before, TimingOut(id, reached && chain.verify.Ok?));
        hide PolicyOk;
        verified := verified || (reached && chain.verify.Ok?);
        queries := queries[id := Query(key, Answered(Err(TimedOut), Late))];
        assert View() == Do(root, capacity, negativeTtl, before, TimingOut(id, reached && chain.verify.Ok?));
      } else {
        var was := verified;
        var r := Lookup(chain, key);
        DoKeeps(root, capacity, negativeTtl, before, Looking(id, chain, r));
        hide PolicyOk, LookupGives;
        var progress := if r.Ok? then Looked(r.value, chain, was) else Answered(r, Read(chain, was));
        queries := queries[id := Query(key, progress)];
        assert View() == Do(root, capacity, negativeTtl, before, Looking(id, chain, r));
      }
    }

    /** Last part: the decision enters the cache, at the expense of the stalest key when there is no room. */
    method Remember(id: nat, now: nat)
      requires Valid() && clock <= now && id in queries && queries[id].progress.Looked?
      modifies `cache, `clock, `decisions, `queries
      ensures Valid() && View() == Do(root, capacity, negativeTtl, old(View()), Storing(id, now))
      ensures var q := old(queries)[id];
              var d := Decision(q.key, q.progress.allowed, now, q.progress.chain, root);
              decisions == old(decisions) + [d] && Grounded(d) && pinned(d.chain)
    {
      DoKeeps(root, capacity, negativeTtl, View(), Storing(id, now));
      var q := queries[id];
      ghost var d := Decision(q.key, q.progress.allowed, now, q.progress.chain, root);
      assert QueryOk(View(), root, negativeTtl, q);
      LookupSound(q.progress.chain, q.key, root, q.progress.verified, Ok(q.progress.allowed));
      assert Grounded(d);
      PinnedStored(pinned, View(), root, capacity, negativeTtl, id, now);
      hide PolicyOk, AllPinned, Grounded, LookupGives;
      cache := Put(cache, capacity, q.key, EntryFor(q.progress.allowed, now, negativeTtl));
      clock := now;
      decisions := decisions + [d];
      var source := Read(q.progress.chain, q.progress.verified);
      queries := queries[id := Query(q.key, Answered(Ok(q.progress.allowed), source))];
    }

    /** Hand over the answer of a finished call. */
    method Collect(id: nat) returns (r: Result<bool, AuthError>)
      requires Valid() && id in queries && queries[id].progress.Answered?
      modifies `queries, `outcomes
      ensures Valid() && View() == Do(root, capacity, negativeTtl, old(View()), Collecting(id))
      ensures r == old(queries)[id].progress.answer
      ensures r.Ok? ==> verified && Rests(decisions, old(queries)[id].key, r.value)
      ensures outcomes == old(outcomes) + [Outcome(old(queries)[id].key, Some((r, old(queries)[id].progress.source)))]
    {
      DoKeeps(root, capacity, negativeTtl, View(), Collecting(id));
      var q := queries[id];
      assert QueryOk(View(), root, negativeTtl, q);
      hide PolicyOk, LookupGives, Rests, LiveDenial;
      r := q.progress.answer;
      queries := queries - {id};
      outcomes := outcomes + [Outcome(q.key, Some((r, q.progress.source)))];
    }

    /** The task of a call dies before it has an answer. */
    method Die(id: nat, key: SensorKey)
      requires Valid() && (id in queries ==> queries[id].key == key && !queries[id].progress.Answered?)
      modifies `queries, `outcomes
      ensures Valid() && View() == Do(root, capacity, negativeTtl, old(View()), Dying(id, key))
      ensures outcomes == old(outcomes) + [Outcome(key, None)] && queries == old(queries) - {id}
    {
      DoKeeps(root, capacity, negativeTtl, View(), Dying(id, key));
      hide PolicyOk;
      queries := queries - {id};
      outcomes := outcomes + [Outcome(key, None)];
    }

    /** The next part of a call: begin it, look up, or store. An answered call waits to be collected. */
    method Advance(id: nat, key: SensorKey, view: nat -> Chain, now: nat)
      requires Valid() && clock <= now && forall t :: pinned(view(t))
      modifies this
      ensures Valid() && Grew(old(View()), View()) && clock <= now
      ensures |decisions| > |old(decisions)| ==> pinned(decisions[|old(decisions)|].chain)
      ensures queries.Keys == old(queries).Keys + {id}
      ensures queries[id].key == if id in old(queries) then old(queries)[id].key else key
      ensures Remaining(queries, id) < Remaining(old(queries), id) || Remaining(queries, id) == 0
      ensures forall i | i in old(queries) && i != id :: queries[i] == old(queries)[i]
    {
      hide PolicyOk, AllPinned, Grounded, Consult, Put;
      var timeout := *;
      if id !in queries {
        Begin(id, key, now);
      } else {
        match queries[id].progress {
          case Missed => Look(id, view(now), timeout);
          case Looked(_, _, _) => Remember(id, now);
          case Answered(_, _) =>
        }
      }
    }

    /** Other calls make progress: any number of parts, in any order. */
    method Interfere(mine: nat, view: nat -> Chain)
      requires Valid() && forall t :: pinned(view(t))
      modifies this
      ensures Valid() && old(decisions) <= decisions && (old(verified) ==> verified)
      ensures (mine in queries <==> mine in old(queries)) && (mine in queries ==> queries[mine] == old(queries)[mine])
    {
      hide PolicyOk, AllPinned, Grounded;
      var steps := Any();
      while steps > 0
        invariant Valid() && old(decisions) <= decisions && (old(verified) ==> verified)
        invariant mine in queries <==> mine in old(queries)
        invariant mine in queries ==> queries[mine] == old(queries)[mine]
        decreases steps
      {
        steps := steps - 1;
        var id := Any();
        var key := Any();
        var elapsed := Any();
        var ended := *;
        if id != mine {
          if ended && id in queries && queries[id].progress.Answered? {
            var _ := Collect(id);
          } else {
            Advance(id, key, view, clock + elapsed);
          }
        }
      }
    }

    /** One call from beginning to end, with others going on all the while. */
    method Authorize(id: nat, key: SensorKey, view: nat -> Chain) returns (r: Result<bool, AuthError>)
      requires Valid() && id !in queries && forall t :: pinned(view(t))
      modifies this
      ensures Valid() && id !in queries && old(decisions) <= decisions
      ensures r.Ok? ==> verified && Rests(decisions, key, r.value)
      ensures outcomes != [] && exists source :: outcomes[|outcomes| - 1] == Outcome(key, Some((r, source)))
    {
      hide PolicyOk, AllPinned, Grounded, Rests;
      Interfere(id, view);
      var elapsed := Any();
      Advance(id, key, view, clock + elapsed);
      while !queries[id].progress.Answered?
        invariant Valid() && id in queries && queries[id].key == key && old(decisions) <= decisions
        decreases Remaining(queries, id)
      {
        Interfere(id, view);
        var more := Any();
        Advance(id, key, view, clock + more);
      }
      Interfere(id, view);
      r := Collect(id);
    }
  }

  /** How many parts of a call are still to come. */
  function Remaining(queries: map<nat, Query>, id: nat): nat {
    if id !in queries then 3
    else
      match queries[id].progress
      case Missed => 2
      case Looked(_, _, _) => 1
      case Answered(_, _) => 0
  }

  /** At most one decision was added, and it is grounded; time and verification only go forward. */
  ghost predicate Grew(s: Shared, t: Shared) {
    && s.clock <= t.clock && (s.verified ==> t.verified) && s.outcomes == t.outcomes
    && (t.decisions == s.decisions
        || (|t.decisions| == |s.decisions| + 1 && t.decisions[..|s.decisions|] == s.decisions
            && Grounded(t.decisions[|s.decisions|])))
  }

  /* ---------- how long a decision stays cached ---------- */

  /** The atomic cache accesses: consulting, and remembering a decision. */
  datatype Access = Consulting(key: SensorKey, now: nat) | Remembering(key: SensorKey, allowed: bool, now: nat)

  ghost function AccessOnce(c: Lru, capacity: nat, negativeTtl: nat, a: Access): Lru {
    match a
    case Consulting(key, now) => Consult(c, key, now).1
    case Remembering(key, allowed, now) => Put(c, capacity, key, EntryFor(allowed, now, negativeTtl))
  }

  ghost function AccessAll(c: Lru, capacity: nat, negativeTtl: nat, accesses: seq<Access>): Lru {
    if accesses == [] then c
    else
      AccessOnce(AccessAll(c, capacity, negativeTtl, accesses[..|accesses| - 1]), capacity, negativeTtl,
                 accesses[|accesses| - 1])
  }

  /** An access uses a key if it remembers it or hits it; a miss uses nothing. */
  ghost predicate Uses(c: Lru, a: Access) {
    a.Consulting? ==> Consult(c, a.key, a.now).0.Some?
  }

  ghost function Used(c: Lru, capacity: nat, negativeTtl: nat, accesses: seq<Access>): set<SensorKey> {
    if accesses == [] then {}
    else
      var front, last := accesses[..|accesses| - 1], accesses[|accesses| - 1];
      Used(c, capacity, negativeTtl, front)
      + if Uses(AccessAll(c, capacity, negativeTtl, front), last) then {last.key} else {}
  }

  ghost predicate Newer(c: Lru, i: int, used: set<SensorKey>) {
    forall j | i < j < |c| :: 0 <= j && c[j].key in used
  }

  /** The slot is at index `i` and everything after it was used since. */
  ghost predicate Retained(c: Lru, slot: Slot, i: int, used: set<SensorKey>) {
    0 <= i < |c| && c[i] == slot && Newer(c, i, used)
  }

  lemma {:induction false} WithoutRetains(c: Lru, slot: Slot, other: SensorKey, i: int, used: set<SensorKey>)
    returns (k: int)
    requires DistinctKeys(c) && Retained(c, slot, i, used) && other != slot.key
    ensures Retained(Without(c, other), slot, k, used)
  {
    if c[0].key == other {
      assert Retained(c[1..], slot, i - 1, used);
      k := WithoutRetains(c[1..], slot, other, i - 1, used);
    } else if i == 0 {
      WithoutContents(c[1..], other);
      k := 0;
      var rest := Without(c[1..], other);
      forall j | 0 < j < |Without(c, other)| ensures Without(c, other)[j].key in used {
        assert Without(c, other)[j] == rest[j - 1];
        assert rest[j - 1] in c[1..];
        var m :| 0 <= m < |c[1..]| && c[1..][m] == rest[j - 1];
        assert c[m + 1].key in used;
      }
    } else {
      k := WithoutRetains(c[1..], slot, other, i - 1, used);
      k := k + 1;
    }
  }

  /** No more slots are newer than the one at `i` than keys were used since. */
  lemma {:induction false} NotInFront(c: Lru, i: int, used: set<SensorKey>)
    requires DistinctKeys(c) && 0 <= i < |c| && Newer(c, i, used)
    ensures |c| - 1 - i <= |used|
  {
    var newer := set j | i < j < |c| :: c[j].key;
    NewerCount(c, i);
    assert newer <= used;
    SubsetSize(newer, used);
  }

  lemma {:induction false} NewerCount(c: Lru, i: int)
    requires DistinctKeys(c) && 0 <= i < |c|
    ensures |set j | i < j < |c| :: c[j].key| == |c| - 1 - i
    decreases |c| - i
  {
    var newer := set j | i < j < |c| :: c[j].key;
    if i + 1 < |c| {
      NewerCount(c, i + 1);
      var rest := set j | i + 1 < j < |c| :: c[j].key;
      assert newer == rest + {c[i + 1].key};
      assert c[i + 1].key !in rest;
    } else {
      assert newer == {};
    }
  }

  lemma {:induction false} SubsetSize<T>(a: set<T>, b: set<T>)
    requires a <= b
    ensures |a| <= |b|
  {
    if a != {} {
      var x :| x in a;
      SubsetSize(a - {x}, b - {x});
    }
  }

  lemma {:induction false} AccessRetains(c: Lru, capacity: nat, negativeTtl: nat, a: Access, slot: Slot, i: int,
                                         used: set<SensorKey>) returns (k: int)
    requires DistinctKeys(c) && |c| <= capacity && capacity >= 1 && Retained(c, slot, i, used) && a.key != slot.key
    requires |used + (if Uses(c, a) then {a.key} else {})| < capacity
    ensures Retained(AccessOnce(c, capacity, negativeTtl, a), slot, k, used + if Uses(c, a) then {a.key} else {})
  {
    var used' := used + if Uses(c, a) then {a.key} else {};
    var found := Find(c, a.key);
    if found.Some? {
      k := WithoutRetains(c, slot, a.key, i, used);
    } else if a.Remembering? && |c| >= capacity {
      forall j | i < j < |c| ensures c[j].key in used' - {a.key} {
        assert c[j] in c;
      }
      NotInFront(c, i, used' - {a.key});
      assert |used' - {a.key}| == |used'| - 1;
      k := i - 1;
    } else {
      k := i;
    }
  }

  lemma {:induction false} AccessKeepsShape(c: Lru, capacity: nat, negativeTtl: nat, a: Access)
    requires DistinctKeys(c) && |c| <= capacity && capacity >= 1
    ensures var c' := AccessOnce(c, capacity, negativeTtl, a); DistinctKeys(c') && |c'| <= capacity
  {
    WithoutContents(c, a.key);
    if a.Remembering? {
      PutContents(c, capacity, a.key, EntryFor(a.allowed, a.now, negativeTtl));
    }
  }

  /** The cache never exceeds its capacity. */
  lemma {:induction false} AccessAllKeepsShape(c: Lru, capacity: nat, negativeTtl: nat, accesses: seq<Access>)
    requires DistinctKeys(c) && |c| <= capacity && capacity >= 1
    ensures var c' := AccessAll(c, capacity, negativeTtl, accesses); DistinctKeys(c') && |c'| <= capacity
  {
    if accesses != [] {
      AccessAllKeepsShape(c, capacity, negativeTtl, accesses[..|accesses| - 1]);
      AccessKeepsShape(AccessAll(c, capacity, negativeTtl, accesses[..|accesses| - 1]), capacity, negativeTtl,
                       accesses[|accesses| - 1]);
    }
  }

  lemma {:induction false} AllRetain(c: Lru, capacity: nat, negativeTtl: nat, accesses: seq<Access>, slot: Slot)
    returns (k: int)
    requires DistinctKeys(c) && |c| <= capacity && capacity >= 1
    requires c != [] && c[|c| - 1] == slot
    requires forall a | a in accesses :: a.key != slot.key
    requires |Used(c, capacity, negativeTtl, accesses)| < capacity
    ensures Retained(AccessAll(c, capacity, negativeTtl, accesses), slot, k, Used(c, capacity, negativeTtl, accesses))
  {
    if accesses == [] {
      k := |c| - 1;
    } else {
      var front, last := accesses[..|accesses| - 1], accesses[|accesses| - 1];
      var before := AccessAll(c, capacity, negativeTtl, front);
      var used := Used(c, capacity, negativeTtl, front);
      SubsetSize(used, Used(c, capacity, negativeTtl, accesses));
      k := AllRetain(c, capacity, negativeTtl, front, slot);
      AccessAllKeepsShape(c, capacity, negativeTtl, front);
      k := AccessRetains(before, capacity, negativeTtl, last, slot, k, used);
    }
  }

  /** The cache accesses that a part makes. */
  ghost function AccessesOf(s: Shared, p: Part): seq<Access> {
    match p
    case Asking(key, now) => if now < s.clock then [] else [Consulting(key, now)]
    case Beginning(id, key, now) => if now < s.clock || id in s.queries then [] else [Consulting(key, now)]
    case Storing(id, now) =>
      if now < s.clock || id !in s.queries || !s.queries[id].progress.Looked? then []
      else [Remembering(s.queries[id].key, s.queries[id].progress.allowed, now)]
    case _ => []
  }

  ghost function AccessesIn(root: NodeId, capacity: nat, negativeTtl: nat, s: Shared, parts: seq<Part>): seq<Access> {
    if parts == [] then []
    else
      var front := parts[..|parts| - 1];
      AccessesIn(root, capacity, negativeTtl, s, front)
      + AccessesOf(DoAll(root, capacity, negativeTtl, s, front), parts[|parts| - 1])
  }

  lemma {:induction false} PartAccesses(root: NodeId, capacity: nat, negativeTtl: nat, s: Shared, p: Part)
    ensures var accesses, t := AccessesOf(s, p), Do(root, capacity, negativeTtl, s, p);
            && |accesses| <= 1
            && (accesses == [] ==> t.cache == s.cache)
            && (accesses != [] ==> t.cache == AccessOnce(s.cache, capacity, negativeTtl, accesses[0]))
  {
    hide Consult, Put, LookupGives;
  }

  lemma {:induction false} AccessMore(c: Lru, capacity: nat, negativeTtl: nat, before: seq<Access>, more: seq<Access>)
    requires |more| <= 1
    ensures AccessAll(c, capacity, negativeTtl, before + more)
         == if more == [] then AccessAll(c, capacity, negativeTtl, before)
            else AccessOnce(AccessAll(c, capacity, negativeTtl, before), capacity, negativeTtl, more[0])
  {
    hide AccessOnce;
    if more == [] {
      assert before + more == before;
    } else {
      assert (before + more)[..|before + more| - 1] == before;
    }
  }

  lemma {:induction false} CacheIsAccessed(root: NodeId, capacity: nat, negativeTtl: nat, s: Shared, parts: seq<Part>)
    ensures DoAll(root, capacity, negativeTtl, s, parts).cache
         == AccessAll(s.cache, capacity, negativeTtl, AccessesIn(root, capacity, negativeTtl, s, parts))
  {
    hide Do, AccessesOf, AccessOnce;
    if parts != [] {
      var front, p := parts[..|parts| - 1], parts[|parts| - 1];
      CacheIsAccessed(root, capacity, negativeTtl, s, front);
      var t := DoAll(root, capacity, negativeTtl, s, front);
      PartAccesses(root, capacity, negativeTtl, t, p);
      AccessMore(s.cache, capacity, negativeTtl, AccessesIn(root, capacity, negativeTtl, s, front), AccessesOf(t, p));
    }
  }

  /** The slot used last stays where accesses use fewer than `capacity` other keys. */
  lemma {:induction false} LastSlotStays(root: NodeId, capacity: nat, negativeTtl: nat, s: Shared, parts: seq<Part>,
                                         slot: Slot)
    requires DistinctKeys(s.cache) && |s.cache| <= capacity && capacity >= 1
    requires s.cache != [] && s.cache[|s.cache| - 1] == slot
    requires FewOthers(root, capacity, negativeTtl, s, parts, slot.key)
    ensures Find(DoAll(root, capacity, negativeTtl, s, parts).cache, slot.key) == Some(slot.entry)
  {
    hide Used, AccessAll, AccessesIn, DoAll;
    var accesses := AccessesIn(root, capacity, negativeTtl, s, parts);
    CacheIsAccessed(root, capacity, negativeTtl, s, parts);
    var k := AllRetain(s.cache, capacity, negativeTtl, accesses, slot);
    AccessAllKeepsShape(s.cache, capacity, negativeTtl, accesses);
    FindDistinct(AccessAll(s.cache, capacity, negativeTtl, accesses), k);
  }

  /** The parts leave `key` alone and use fewer than `capacity` distinct other keys. */
  ghost predicate FewOthers(root: NodeId, capacity: nat, negativeTtl: nat, s: Shared, parts: seq<Part>,
                            key: SensorKey)
  {
    var accesses := AccessesIn(root, capacity, negativeTtl, s, parts);
    (forall a | a in accesses :: a.key != key) && |Used(s.cache, capacity, negativeTtl, accesses)| < capacity
  }

  /** The part is answered from the cache with this decision about `key`, or stores it. */
  ghost predicate IsUse(s: Shared, p: Part, key: SensorKey, allowed: bool) {
    match p
    case Asking(k, now) => k == key && s.clock <= now && Consult(s.cache, key, now).0 == Some(allowed)
    case Beginning(id, k, now) =>
      k == key && s.clock <= now && id !in s.queries && Consult(s.cache, key, now).0 == Some(allowed)
    case Storing(id, now) =>
      && s.clock <= now && id in s.queries && s.queries[id].key == key
      && s.queries[id].progress.Looked? && s.queries[id].progress.allowed == allowed
    case _ => false
  }

  /** The decision that a use served or stored: a denial is a live one, a stored one is the newest. */
  ghost predicate Served(s: Shared, p: Part, t: Shared, key: SensorKey, allowed: bool, negativeTtl: nat, d: Decision) {
    && d in t.decisions && d.key == key && d.allowed == allowed
    && (p.Storing? ==> d.at == p.now && t.decisions == s.decisions + [d])
    && ((p.Asking? || p.Beginning?) && !allowed ==> p.now < d.at + negativeTtl)
  }

  /** A use makes the slot of its key the newest. */
  lemma {:induction false} UseIsLast(root: NodeId, capacity: nat, negativeTtl: nat, s: Shared, use: Part,
                                     key: SensorKey, allowed: bool) returns (d: Decision)
    requires CacheOk(capacity, negativeTtl, s) && IsUse(s, use, key, allowed)
    ensures var t := Do(root, capacity, negativeTtl, s, use);
            && Served(s, use, t, key, allowed, negativeTtl, d)
            && t.cache != []
            && t.cache[|t.cache| - 1] == Slot(key, Cached(allowed, if allowed then None else Some(d.at + negativeTtl)))
            && DistinctKeys(t.cache) && |t.cache| <= capacity
  {
    hide AllGrounded;
    var t := Do(root, capacity, negativeTtl, s, use);
    if use.Storing? {
      d := t.decisions[|s.decisions|];
      PutContents(s.cache, capacity, key, EntryFor(allowed, use.now, negativeTtl));
    } else {
      WithoutContents(s.cache, key);
      var e := Find(s.cache, key).value;
      assert Slot(key, e) in s.cache;
      d :| d in s.decisions && d.key == key && d.allowed == allowed
           && (!allowed ==> e.expires == Some(d.at + negativeTtl));
    }
  }

  /**
   * However calls interleave, a decision that was just served or stored stays in the cache as long as
   * fewer than `capacity` distinct other keys are used after it: an allow whatever time passes, a
   * denial exactly until `negativeTtl` after it was decided.
   */
  lemma {:induction false} UsedStays(root: NodeId, capacity: nat, negativeTtl: nat, s: Shared, use: Part,
                                     parts: seq<Part>, key: SensorKey, allowed: bool) returns (d: Decision)
    requires PolicyOk(root, capacity, negativeTtl, s) && IsUse(s, use, key, allowed)
    requires FewOthers(root, capacity, negativeTtl, Do(root, capacity, negativeTtl, s, use), parts, key)
    ensures var t := Do(root, capacity, negativeTtl, s, use);
            && Served(s, use, t, key, allowed, negativeTtl, d)
            && forall now: nat :: Consult(DoAll(root, capacity, negativeTtl, t, parts).cache, key, now).0
                 == if allowed || now < d.at + negativeTtl then Some(allowed) else None
  {
    hide CacheOk, CallsOk, Do, DoAll, IsUse, FewOthers, Served;
    d := UseIsLast(root, capacity, negativeTtl, s, use, key, allowed);
    var t := Do(root, capacity, negativeTtl, s, use);
    LastSlotStays(root, capacity, negativeTtl, t, parts, t.cache[|t.cache| - 1]);
  }

  /** The same from any reachable state for an allow: it stays a hit. */
  lemma {:induction false} AllowStays(root: NodeId, capacity: nat, negativeTtl: nat, before: seq<Part>, use: Part,
                                      parts: seq<Part>, key: SensorKey, now: nat)
    requires capacity >= 1 && IsUse(DoAll(root, capacity, negativeTtl, NEW_POLICY, before), use, key, true)
    requires var s := DoAll(root, capacity, negativeTtl, NEW_POLICY, before);
             FewOthers(root, capacity, negativeTtl, Do(root, capacity, negativeTtl, s, use), parts, key)
    ensures var s := DoAll(root, capacity, negativeTtl, NEW_POLICY, before);
            var t := Do(root, capacity, negativeTtl, s, use);
            Consult(DoAll(root, capacity, negativeTtl, t, parts).cache, key, now).0 == Some(true)
  {
    hide Do, DoAll, IsUse, FewOthers, PolicyOk, Served, Consult;
    InterleavedSound(root, capacity, negativeTtl, before);
    var _ := UsedStays(root, capacity, negativeTtl, DoAll(root, capacity, negativeTtl, NEW_POLICY, before), use, parts,
                       key, true);
  }

  lemma {:induction false} FindDistinct(c: Lru, i: int)
    requires DistinctKeys(c) && 0 <= i < |c|
    ensures Find(c, c[i].key) == Some(c[i].entry)
  {
    if i > 0 {
      assert c[0].key != c[i].key;
      FindDistinct(c[1..], i - 1);
    }
  }
}
