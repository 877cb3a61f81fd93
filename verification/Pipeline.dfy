/**
 * From the ingress channel to the sinks. The event loop drives the
 * authorization stage, the `cps` policy, the deduplication cache and the durable sink; ghost
 * history records what became of every message.
 */
module Pipeline {
  import opened Prelude
  import opened Wire
  import opened AuthStage
  import opened CpsAuth
  import opened EndToEnd
  import opened Backend
  import D = Dedup

  /* ---------- history ---------- */

  datatype Sink = Sink(required: bool)

  /** One delivery to one sink, with the message handed over. */
  datatype Attempt = Attempt(sink: nat, accepted: Accepted, ok: bool)

  /** One fan-out: when it was admitted, every delivery attempt, and whether it was complete. */
  datatype Publication = Publication(accepted: Accepted, at: nat, attempts: seq<Attempt>, complete: bool)

  datatype Fate = Malformed | NotAllowed | Undecided | Duplicate | Published(complete: bool) | Interrupted

  /** A message's fate and when it was settled. */
  datatype Settled = Settled(message: Ingress, fate: Fate, at: nat)

  /**
   * Signature verification, the content id of received bytes, how long ids and denials are
   * remembered, the sinks, and which one is durable.
   */
  datatype Setting = Setting(
    verify: Ingress -> Option<SensorId>, hash: seq<byte> -> D.EnvelopeId, ttl: nat, negativeTtl: nat,
    sinks: seq<Sink>, durable: nat)

  /** What was received, what became of it, the lookups that ended, what is in hand, and when this began. */
  datatype History = History(received: seq<Ingress>, settled: seq<Settled>, publications: seq<Publication>,
                             resolutions: seq<Resolution>, held: multiset<Ingress>, since: nat)

  ghost function Plain(vs: seq<Verified>): seq<Ingress> {
    seq(|vs|, i requires 0 <= i < |vs| => vs[i].message)
  }

  ghost function InHand(vs: seq<Verified>): multiset<Ingress> {
    multiset(Plain(vs))
  }

  ghost function Fated(settled: seq<Settled>): seq<Ingress> {
    seq(|settled|, i requires 0 <= i < |settled| => settled[i].message)
  }

  /** Every received message has one fate, is parked once, or is in hand. */
  ghost predicate Accounted(h: History, waiting: seq<Verified>) {
    multiset(h.received) == multiset(Fated(h.settled)) + InHand(waiting) + h.held
  }

  ghost predicate Signed(verify: Ingress -> Option<SensorId>, vs: seq<Verified>) {
    forall v | v in vs :: verify(v.message) == Some(v.sensor)
  }

  /** Properly signed, allowed by a decision for its sensor, and named by its bytes. */
  ghost predicate Entitled(s: Setting, decisions: seq<Decision>, a: Accepted) {
    Backed(s.verify, decisions, a) && a.id == s.hash(a.message.raw)
  }

  ghost function Tally(attempts: seq<Attempt>, a: Accepted, k: nat, ok: bool): nat {
    multiset(attempts)[Attempt(k, a, ok)]
  }

  /**
   * All attempts hand over `a`. Every sink is tried and none accepts twice; an optional one is tried
   * once; complete means each required one accepted.
   */
  ghost predicate Faithful(sinks: seq<Sink>, a: Accepted, attempts: seq<Attempt>, complete: bool) {
    && (forall x | x in attempts :: x.sink < |sinks| && x.accepted == a)
    && (forall k: nat | k < |sinks| :: Tally(attempts, a, k, true) <= 1)
    && (forall k: nat | k < |sinks| :: Tally(attempts, a, k, true) + Tally(attempts, a, k, false) >= 1)
    && (forall k: nat | k < |sinks| && !sinks[k].required ::
          Tally(attempts, a, k, true) + Tally(attempts, a, k, false) == 1)
    && (complete <==> forall k: nat | k < |sinks| && sinks[k].required :: Tally(attempts, a, k, true) == 1)
  }

  ghost predicate AllFaithful(s: Setting, decisions: seq<Decision>, ps: seq<Publication>) {
    forall p | p in ps :: Entitled(s, decisions, p.accepted) && Faithful(s.sinks, p.accepted, p.attempts, p.complete)
  }

  /** The fates of publication, in order. */
  ghost function Outcomes(settled: seq<Settled>): seq<(Ingress, bool)> {
    if settled == [] then []
    else
      var last := settled[|settled| - 1];
      Outcomes(settled[..|settled| - 1]) + if last.fate.Published? then [(last.message, last.fate.complete)] else []
  }

  ghost function OutcomesOf(ps: seq<Publication>): seq<(Ingress, bool)> {
    seq(|ps|, i requires 0 <= i < |ps| => (ps[i].accepted.message, ps[i].complete))
  }

  /** A lookup of its sensor that the message waited for ended so; `None` stands for an error. */
  ghost predicate LookedUp(rs: seq<Resolution>, m: Ingress, sensor: SensorId, answer: Option<bool>) {
    exists r :: r in rs && r.sensor == sensor && Verified(m, sensor) in r.messages
                && answer == if r.decision.Ok? then Some(r.decision.value) else None
  }

  /** A message with this content id was completely published less than `ttl` before `at`. */
  ghost predicate Copied(ps: seq<Publication>, id: D.EnvelopeId, at: nat, ttl: nat) {
    exists p :: p in ps && p.complete && p.accepted.id == id && at < p.at + ttl
  }

  /**
   * Why a message met its fate. A denial is one that is still live, or the answer of the lookup the
   * message waited for; a missing decision is an error of that lookup; a duplicate was completely
   * published within the time to live. Only a shutdown interrupts or leaves a fan-out incomplete.
   */
  ghost predicate Reason(x: Settled, s: Setting, h: History, decisions: seq<Decision>, stopping: bool) {
    match s.verify(x.message)
    case None => x.fate.Malformed?
    case Some(sensor) =>
      match x.fate
      case Malformed => false
      case NotAllowed =>
        || LookedUp(h.resolutions, x.message, sensor, Some(false))
        || LiveDenial(decisions, sensor, x.at, s.negativeTtl)
      case Undecided => LookedUp(h.resolutions, x.message, sensor, None)
      case Duplicate => Rests(decisions, sensor, true) && Copied(h.publications, s.hash(x.message.raw), x.at, s.ttl)
      case Published(complete) => Rests(decisions, sensor, true) && (complete || stopping)
      case Interrupted => stopping
  }

  /** Every fate has its reason, and they are settled one after another. */
  ghost predicate Reasoned(s: Setting, h: History, decisions: seq<Decision>, stopping: bool, clock: nat) {
    && (forall x | x in h.settled :: h.since <= x.at <= clock && Reason(x, s, h, decisions, stopping))
    && (forall i, j | 0 <= i < j < |h.settled| :: h.settled[i].at <= h.settled[j].at)
  }

  /** Nothing is lost or handled twice, every fate has its reason, and only entitled messages were published. */
  ghost predicate Books(s: Setting, h: History, waiting: seq<Verified>, decisions: seq<Decision>, stopping: bool,
                        clock: nat) {
    && h.since <= clock
    && Accounted(h, waiting)
    && Signed(s.verify, waiting)
    && AllFaithful(s, decisions, h.publications)
    && Outcomes(h.settled) == OutcomesOf(h.publications)
    && Reasoned(s, h, decisions, stopping, clock)
  }

  /* ---------- what keeps the books ---------- */

  lemma {:induction false} PlainSplit(vs: seq<Verified>, s: SensorId)
    ensures InHand(Of(vs, s)) + InHand(Except(vs, s)) == InHand(vs)
  {
    hide InHand;
    if vs == [] {
      assert Of(vs, s) == Except(vs, s) == vs;
      NothingInHand(vs);
    } else {
      var head, rest := vs[0], vs[1..];
      PlainSplit(rest, s);
      OneMoreInHand(head, rest);
      assert vs == [head] + rest;
      if head.sensor == s {
        OneMoreInHand(head, Of(rest, s));
        assert Of(vs, s) == [head] + Of(rest, s) && Except(vs, s) == Except(rest, s);
      } else {
        OneMoreInHand(head, Except(rest, s));
        assert Of(vs, s) == Of(rest, s) && Except(vs, s) == [head] + Except(rest, s);
      }
    }
  }

  lemma {:induction false} OneMoreInHand(v: Verified, vs: seq<Verified>)
    ensures InHand([v] + vs) == multiset{v.message} + InHand(vs)
  {
    assert Plain([v] + vs) == [v.message] + Plain(vs);
  }

  lemma {:induction false} LastInHand(vs: seq<Verified>, v: Verified)
    ensures InHand(vs + [v]) == InHand(vs) + multiset{v.message}
  {
    assert Plain(vs + [v]) == Plain(vs) + [v.message];
  }

  lemma {:induction false} NothingInHand(vs: seq<Verified>)
    ensures InHand(vs[|vs|..]) == multiset{} && InHand(vs[0..]) == InHand(vs)
  {
    assert vs[0..] == vs;
  }

  lemma {:induction false} SignedParts(verify: Ingress -> Option<SensorId>, vs: seq<Verified>, s: SensorId)
    requires Signed(verify, vs)
    ensures Signed(verify, Of(vs, s)) && Signed(verify, Except(vs, s))
  {
    if vs != [] {
      assert vs == [vs[0]] + vs[1..];
      SignedParts(verify, vs[1..], s);
    }
  }

  /** Decisions are never taken back. */
  lemma {:induction false} MoreDecisions(a: seq<Decision>, b: seq<Decision>, s: SensorId, allowed: bool)
    requires a <= b && Rests(a, s, allowed)
    ensures Rests(b, s, allowed)
  {
    var d :| d in a && d.key == s && d.allowed == allowed;
    assert d in b;
  }

  /** Histories and decisions only grow. */
  ghost predicate Grows(h: History, g: History, a: seq<Decision>, b: seq<Decision>, was: bool, stopping: bool) {
    && h.publications <= g.publications && h.resolutions <= g.resolutions
    && a <= b && (was ==> stopping)
  }

  lemma {:induction false} ReasonLater(x: Settled, s: Setting, h: History, g: History, a: seq<Decision>,
                                       b: seq<Decision>, was: bool, stopping: bool)
    requires Reason(x, s, h, a, was) && Grows(h, g, a, b, was, stopping)
    ensures Reason(x, s, g, b, stopping)
  {
    assert forall d | d in a :: d in b;
    assert forall p | p in h.publications :: p in g.publications;
    assert forall r | r in h.resolutions :: r in g.resolutions;
  }

  lemma {:induction false} ReasonedLater(s: Setting, h: History, g: History, a: seq<Decision>, b: seq<Decision>,
                                         was: bool, stopping: bool, clock: nat, now: nat)
    requires Reasoned(s, h, a, was, clock) && Grows(h, g, a, b, was, stopping) && clock <= now
    requires h.settled == g.settled && h.since == g.since
    ensures Reasoned(s, g, b, stopping, now)
  {
    hide Reason;
    forall x | x in g.settled ensures Reason(x, s, g, b, stopping) {
      ReasonLater(x, s, h, g, a, b, was, stopping);
    }
  }

  lemma {:induction false} ReasonedSnoc(s: Setting, h: History, decisions: seq<Decision>, stopping: bool, clock: nat,
                                        x: Settled)
    requires Reasoned(s, h, decisions, stopping, clock) && x.at == clock && h.since <= clock
    requires Reason(x, s, h, decisions, stopping)
    ensures Reasoned(s, h.(settled := h.settled + [x]), decisions, stopping, clock)
  {
    hide Reason;
    var g := h.(settled := h.settled + [x]);
    forall y | y in g.settled ensures Reason(y, s, g, decisions, stopping) {
      ReasonLater(y, s, h, g, decisions, decisions, stopping, stopping);
    }
  }

  lemma {:induction false} ReasonedSame(s: Setting, h: History, g: History, decisions: seq<Decision>, stopping: bool,
                                        clock: nat)
    requires Reasoned(s, h, decisions, stopping, clock)
    requires h.settled == g.settled && h.since == g.since
    requires h.publications == g.publications && h.resolutions == g.resolutions
    ensures Reasoned(s, g, decisions, stopping, clock)
  {
    ReasonedLater(s, h, g, decisions, decisions, stopping, stopping, clock, clock);
  }

  /** The books stay in order as more is decided, time passes, or shutdown is signalled. */
  lemma {:induction false} BooksLater(s: Setting, h: History, waiting: seq<Verified>, a: seq<Decision>,
                                      b: seq<Decision>, was: bool, stopping: bool, clock: nat, now: nat)
    requires Books(s, h, waiting, a, was, clock) && a <= b && (was ==> stopping) && clock <= now
    ensures Books(s, h, waiting, b, stopping, now)
  {
    hide Accounted, Signed, Outcomes, OutcomesOf, Reasoned, Faithful, Rests;
    ReasonedLater(s, h, h, a, b, was, stopping, clock, now);
    forall p | p in h.publications ensures Entitled(s, b, p.accepted) {
      MoreDecisions(a, b, p.accepted.sensor, true);
    }
  }

  lemma {:induction false} AccountedSame(h: History, g: History, waiting: seq<Verified>)
    requires Accounted(h, waiting) && h.received == g.received && h.settled == g.settled && h.held == g.held
    ensures Accounted(g, waiting)
  {
  }

  /** The message is in hand. */
  ghost function Receiving(h: History, m: Ingress): History {
    h.(received := h.received + [m], held := h.held + multiset{m})
  }

  lemma {:induction false} BooksReceive(s: Setting, h: History, waiting: seq<Verified>, decisions: seq<Decision>,
                                        stopping: bool, clock: nat, m: Ingress)
    requires Books(s, h, waiting, decisions, stopping, clock)
    ensures Books(s, Receiving(h, m), waiting, decisions, stopping, clock)
  {
    hide Signed, Outcomes, OutcomesOf, Reasoned, AllFaithful, Fated, InHand;
    ReasonedSame(s, h, Receiving(h, m), decisions, stopping, clock);
  }

  lemma {:induction false} BooksPark(s: Setting, h: History, waiting: seq<Verified>, decisions: seq<Decision>,
                                     stopping: bool, clock: nat, v: Verified)
    requires Books(s, h, waiting, decisions, stopping,
                   clock) && v.message in h.held && s.verify(v.message) == Some(v.sensor)
    ensures Books(s, h.(held := h.held - multiset{v.message}), waiting + [v], decisions, stopping, clock)
  {
    LastInHand(waiting, v);
    hide Outcomes, OutcomesOf, Reasoned, AllFaithful, Fated, InHand;
    ReasonedSame(s, h, h.(held := h.held - multiset{v.message}), decisions, stopping, clock);
  }

  /** The books after a lookup ended: its messages are in hand, and the lookup is on record. */
  ghost function Taking(h: History, r: Resolution): History {
    h.(held := h.held + InHand(r.messages), resolutions := h.resolutions + [r])
  }

  lemma {:induction false} BooksCollect(s: Setting, h: History, waiting: seq<Verified>, decisions: seq<Decision>,
                                        stopping: bool, clock: nat, r: Resolution)
    requires Books(s, h, waiting, decisions, stopping, clock) && r.messages == Of(waiting, r.sensor)
    ensures Books(s, Taking(h, r), Except(waiting, r.sensor), decisions, stopping, clock)
    ensures Signed(s.verify, r.messages)
  {
    PlainSplit(waiting, r.sensor);
    SignedParts(s.verify, waiting, r.sensor);
    hide Outcomes, OutcomesOf, Reasoned, AllFaithful, Fated, InHand, Of, Except, Signed;
    ReasonedLater(s, h, Taking(h, r), decisions, decisions, stopping, stopping, clock, clock);
  }

  lemma {:induction false} SettleAccounts(h: History, waiting: seq<Verified>, x: Settled)
    requires Accounted(h, waiting) && x.message in h.held
    ensures Accounted(h.(settled := h.settled + [x], held := h.held - multiset{x.message}), waiting)
  {
    assert Fated(h.settled + [x]) == Fated(h.settled) + [x.message];
    hide InHand;
  }

  lemma {:induction false} OutcomesSnoc(settled: seq<Settled>, x: Settled)
    ensures Outcomes(settled + [x])
         == Outcomes(settled) + if x.fate.Published? then [(x.message, x.fate.complete)] else []
  {
    assert (settled + [x])[..|settled|] == settled;
  }

  ghost function Settling(h: History, x: Settled): History {
    h.(settled := h.settled + [x], held := h.held - multiset{x.message})
  }

  /** A message in hand meets its fate without being published. */
  lemma {:induction false} BooksSettle(s: Setting, h: History, waiting: seq<Verified>, decisions: seq<Decision>,
                                       stopping: bool, clock: nat, x: Settled)
    requires Books(s, h, waiting, decisions, stopping, clock) && x.message in h.held && !x.fate.Published?
    requires Reason(x, s, h, decisions, stopping) && x.at == clock
    ensures Books(s, Settling(h, x), waiting, decisions, stopping, clock)
  {
    hide Accounted, Signed, Outcomes, OutcomesOf, Reason, Reasoned, AllFaithful;
    SettleAccounts(h, waiting, x);
    OutcomesSnoc(h.settled, x);
    assert Outcomes(h.settled) + [] == Outcomes(h.settled);
    ReasonedSnoc(s, h, decisions, stopping, clock, x);
    ReasonedSame(s, h.(settled := h.settled + [x]), Settling(h, x), decisions, stopping, clock);
  }

  ghost function Publishing(h: History, p: Publication, now: nat): History {
    Settling(h, Settled(p.accepted.message, Published(p.complete), now)).(publications := h.publications + [p])
  }

  /** A message in hand is published. */
  lemma {:induction false} BooksPublish(s: Setting, h: History, waiting: seq<Verified>, decisions: seq<Decision>,
                                        stopping: bool, clock: nat, p: Publication)
    requires Books(s, h, waiting, decisions, stopping, clock) && p.accepted.message in h.held
    requires Entitled(s, decisions, p.accepted) && Faithful(s.sinks, p.accepted, p.attempts, p.complete)
    requires !p.complete ==> stopping
    ensures Books(s, Publishing(h, p, clock), waiting, decisions, stopping, clock)
  {
    hide Accounted, Signed, Outcomes, OutcomesOf, Rests, Faithful, Reasoned;
    var x := Settled(p.accepted.message, Published(p.complete), clock);
    SettleAccounts(h, waiting, x);
    AccountedSame(Settling(h, x), Publishing(h, p, clock), waiting);
    OutcomesSnoc(h.settled, x);
    OutcomesOfSnoc(h.publications, p);
    var g := h.(settled := h.settled + [x]);
    ReasonedSnoc(s, h, decisions, stopping, clock, x);
    ReasonedLater(s, g, Publishing(h, p, clock), decisions, decisions, stopping, stopping, clock, clock);
  }

  lemma {:induction false} OutcomesOfSnoc(ps: seq<Publication>, p: Publication)
    ensures OutcomesOf(ps + [p]) == OutcomesOf(ps) + [(p.accepted.message, p.complete)]
  {
  }

  lemma {:induction false} BooksOpen(s: Setting, since: nat)
    ensures Books(s, History([], [], [], [], multiset{}, since), [], [], false, since)
  {
    assert Fated([]) == [] && Plain([]) == [] && OutcomesOf([]) == [];
  }

  /* ---------- nothing is lost ---------- */

  /** A publication was complete and, with a required durable sink, left its message in the store. */
  ghost predicate Safe(s: Setting, ps: seq<Publication>, id: D.EnvelopeId, stored: seq<Accepted>) {
    exists p :: p in ps && p.complete && p.accepted.id == id
                && (s.durable < |s.sinks| && s.sinks[s.durable].required ==> p.accepted in stored)
  }

  /** The message was settled by a denial of its sensor that was live at that moment. */
  ghost predicate DeniedAtOnce(s: Setting, h: History, decisions: seq<Decision>, m: Ingress, sensor: SensorId) {
    exists x :: x in h.settled && x.message == m && x.fate.NotAllowed?
                && LiveDenial(decisions, sensor, x.at, s.negativeTtl)
  }

  /** A properly signed message was denied, or its lookup failed, or its content is safe. */
  ghost predicate Handled(s: Setting, h: History, decisions: seq<Decision>, stored: seq<Accepted>, m: Ingress,
                          sensor: SensorId) {
    || LookedUp(h.resolutions, m, sensor, Some(false))
    || LookedUp(h.resolutions, m, sensor, None)
    || DeniedAtOnce(s, h, decisions, m, sensor)
    || Safe(s, h.publications, s.hash(m.raw), stored)
  }

  lemma {:induction false} CompleteIsSafe(s: Setting, decisions: seq<Decision>, ps: seq<Publication>, p: Publication)
    requires AllFaithful(s, decisions, ps) && p in ps && p.complete
    ensures Safe(s, ps, p.accepted.id, StoredOf(ps, s.durable))
  {
    assert Faithful(s.sinks, p.accepted, p.attempts, p.complete);
    hide AllFaithful, Faithful, StoredOf;
    if s.durable < |s.sinks| && s.sinks[s.durable].required {
      assert Tally(p.attempts, p.accepted, s.durable, true) == 1;
      StoredHas(ps, p, s.durable);
    }
  }

  lemma {:induction false} StoredHas(ps: seq<Publication>, p: Publication, durable: nat)
    requires p in ps && Tally(p.attempts, p.accepted, durable, true) == 1
    ensures p.accepted in StoredOf(ps, durable)
  {
    hide Tally;
    var front, last := ps[..|ps| - 1], ps[|ps| - 1];
    if p != last {
      assert ps == front + [last] && p in front;
      StoredHas(front, p, durable);
    }
  }

  lemma {:induction false} SettledIsHandled(s: Setting, h: History, decisions: seq<Decision>, clock: nat, x: Settled,
                                            sensor: SensorId)
    requires x in h.settled && Reason(x, s, h, decisions, false) && s.verify(x.message) == Some(sensor)
    requires AllFaithful(s, decisions, h.publications)
    requires x.fate.Published? ==>
               exists p :: p in h.publications && p.accepted.message == x.message && p.complete == x.fate.complete
    ensures Handled(s, h, decisions, StoredOf(h.publications, s.durable), x.message, sensor)
  {
    hide StoredOf, Faithful, LookedUp, Safe;
    match x.fate
    case Duplicate =>
      var p :| p in h.publications && p.complete && p.accepted.id == s.hash(x.message.raw);
      CompleteIsSafe(s, decisions, h.publications, p);
    case Published(_) =>
      var p :| p in h.publications && p.accepted.message == x.message && p.complete == x.fate.complete;
      assert Entitled(s, decisions, p.accepted);
      CompleteIsSafe(s, decisions, h.publications, p);
    case _ =>
  }

  lemma {:induction false} OutcomeHasPublication(settled: seq<Settled>, ps: seq<Publication>, x: Settled)
    requires Outcomes(settled) == OutcomesOf(ps) && x in settled && x.fate.Published?
    ensures exists p :: p in ps && p.accepted.message == x.message && p.complete == x.fate.complete
  {
    OutcomeListed(settled, x);
    var i :| 0 <= i < |OutcomesOf(ps)| && OutcomesOf(ps)[i] == (x.message, x.fate.complete);
    assert ps[i] in ps;
  }

  lemma {:induction false} OutcomeListed(settled: seq<Settled>, x: Settled)
    requires x in settled && x.fate.Published?
    ensures (x.message, x.fate.complete) in Outcomes(settled)
  {
    var front, last := settled[..|settled| - 1], settled[|settled| - 1];
    if x != last {
      assert settled == front + [last] && x in front;
      OutcomeListed(front, x);
    }
  }

  /**
   * Without a shutdown no properly signed message is lost: once nothing is parked or in hand, each
   * was denied, or its lookup failed, or its content was completely published and stored.
   */
  lemma {:induction false} NothingLost(s: Setting, h: History, decisions: seq<Decision>, clock: nat, m: Ingress,
                                       sensor: SensorId)
    requires Books(s, h, [], decisions, false, clock) && h.held == multiset{}
    requires m in h.received && s.verify(m) == Some(sensor)
    ensures Handled(s, h, decisions, StoredOf(h.publications, s.durable), m, sensor)
  {
    hide StoredOf, AllFaithful, Outcomes, OutcomesOf, Reason, Handled;
    assert multiset(h.received)[m] > 0 && Plain([]) == [];
    assert m in Fated(h.settled);
    var i :| 0 <= i < |Fated(h.settled)| && Fated(h.settled)[i] == m;
    var x := h.settled[i];
    if x.fate.Published? {
      OutcomeHasPublication(h.settled, h.publications, x);
    }
    SettledIsHandled(s, h, decisions, clock, x, sensor);
  }

  /* ---------- publications, the cache and the store ---------- */

  ghost function MarksOf(ps: seq<Publication>, ttl: nat): seq<D.Mark> {
    seq(|ps|, i requires 0 <= i < |ps| => D.Mark(D.Entry(ps[i].accepted.id, ps[i].at + ttl), ps[i].complete))
  }

  /** The cache is what the publications so far, complete or forgotten, leave in it. */
  ghost predicate Recalls(order: seq<D.Entry>, ps: seq<Publication>, ttl: nat, capacity: nat, clock: nat) {
    D.Tracks(order, MarksOf(ps, ttl), clock, ttl, capacity)
  }

  lemma {:induction false} MarksSnoc(ps: seq<Publication>, p: Publication, ttl: nat)
    ensures MarksOf(ps + [p], ttl) == MarksOf(ps, ttl) + [D.Mark(D.Entry(p.accepted.id, p.at + ttl), p.complete)]
  {
  }

  /** A publication is recorded, and its id forgotten again if it was not complete. */
  lemma {:induction false} RecallsPublish(order: seq<D.Entry>, ps: seq<Publication>, ttl: nat, capacity: nat,
                                          clock: nat, p: Publication)
    requires Recalls(order, ps, ttl, capacity, clock) && capacity >= 1 && clock <= p.at
    requires D.Accept(order, p.accepted.id, p.at, ttl, capacity).0
    ensures Recalls(D.Settle(D.Accept(order, p.accepted.id, p.at, ttl, capacity).1, p.accepted.id, p.complete),
                    ps + [p], ttl, capacity, p.at)
  {
    hide D.Tracks, D.Accept, D.Settle;
    MarksSnoc(ps, p, ttl);
    D.VisitNew(order, MarksOf(ps, ttl), clock, ttl, capacity, D.Visit(p.accepted.id, p.at, p.complete));
  }

  /** What the cache calls a duplicate was completely published within the time to live. */
  lemma {:induction false} RecallsRepeat(order: seq<D.Entry>, ps: seq<Publication>, ttl: nat, capacity: nat, clock: nat,
                                         id: D.EnvelopeId, now: nat)
    requires Recalls(order, ps, ttl, capacity, clock) && clock <= now && !D.Accept(order, id, now, ttl, capacity).0
    ensures Recalls(D.Accept(order, id, now, ttl, capacity).1, ps, ttl, capacity, now)
    ensures Copied(ps, id, now, ttl)
  {
    hide D.Tracks, D.Accept, D.KeptOf;
    var marks := MarksOf(ps, ttl);
    D.VisitRepeat(order, marks, clock, ttl, capacity, id, now);
    D.VisitExact(order, marks, clock, ttl, capacity, id, now);
    var i :| 0 <= i < |marks| && marks[i].keep && marks[i].entry.id == id && marks[i].entry.expiry > now;
    assert ps[i] in ps;
  }

  /** What a fan-out left in the store. */
  ghost function Kept(attempts: seq<Attempt>, a: Accepted, durable: nat): seq<Accepted> {
    if Tally(attempts, a, durable, true) == 1 then [a] else []
  }

  /** What the publications left in the store, in order. */
  ghost function StoredOf(ps: seq<Publication>, durable: nat): seq<Accepted> {
    if ps == [] then []
    else
      var p := ps[|ps| - 1];
      StoredOf(ps[..|ps| - 1], durable) + Kept(p.attempts, p.accepted, durable)
  }

  lemma {:induction false} StoredOfSnoc(ps: seq<Publication>, p: Publication, durable: nat)
    ensures StoredOf(ps + [p], durable) == StoredOf(ps, durable) + Kept(p.attempts, p.accepted, durable)
  {
    assert (ps + [p])[..|ps|] == ps;
  }

  /* ---------- fan-out ---------- */

  /** Sinks before `k` are dealt with, the others not yet tried. */
  ghost predicate FaithfulUpTo(sinks: seq<Sink>, a: Accepted, attempts: seq<Attempt>, complete: bool, k: nat) {
    k <= |sinks| && Faithful(sinks[..k], a, attempts, complete)
  }

  /** All attempts concern sink `k`, which accepts at most once. */
  ghost predicate OneSink(sinks: seq<Sink>, a: Accepted, attempts: seq<Attempt>, accepted: bool, k: nat) {
    && k < |sinks|
    && (forall x | x in attempts :: x.sink == k && x.accepted == a)
    && Tally(attempts, a, k, true) == (if accepted then 1 else 0)
    && attempts != [] && (!sinks[k].required ==> |attempts| == 1)
  }

  lemma {:induction false} NextSink(sinks: seq<Sink>, a: Accepted, before: seq<Attempt>, complete: bool, k: nat,
                                    more: seq<Attempt>, accepted: bool)
    requires FaithfulUpTo(sinks, a, before, complete, k) && OneSink(sinks, a, more, accepted, k)
    ensures FaithfulUpTo(sinks, a, before + more, complete && (accepted || !sinks[k].required), k + 1)
  {
    var all := before + more;
    assert Attempt(k, a, true) !in before && Attempt(k, a, false) !in before;
    forall j: nat, ok | j < k ensures Tally(all, a, j, ok) == Tally(before, a, j, ok) {
      assert Attempt(j, a, ok) !in more;
    }
    assert forall ok :: Tally(all, a, k, ok) == Tally(more, a, k, ok);
    assert more[0] in more && (more[0] == Attempt(k, a, true) || more[0] == Attempt(k, a, false));
    if !sinks[k].required {
      assert more == [more[0]];
    }
    assert forall j: nat | j < k :: sinks[..k + 1][j] == sinks[..k][j];
    assert sinks[..k + 1][k] == sinks[k];
    assert forall x | x in all :: x in before || x in more;
  }

  /** Only the durable sink adds to the store, and it does so once. */
  lemma {:induction false} NextKept(sinks: seq<Sink>, a: Accepted, before: seq<Attempt>, complete: bool, k: nat,
                                    more: seq<Attempt>, accepted: bool, durable: nat)
    requires FaithfulUpTo(sinks, a, before, complete, k) && OneSink(sinks, a, more, accepted, k)
    ensures Kept(before + more, a, durable)
         == Kept(before, a, durable) + if k == durable && accepted then [a] else []
  {
    if k == durable {
      assert Attempt(durable, a, true) !in before;
    } else {
      assert Attempt(durable, a, true) !in more;
    }
    assert multiset(before + more) == multiset(before) + multiset(more);
  }

  lemma {:induction false} AllFailures(attempts: seq<Attempt>, a: Accepted, k: nat)
    requires forall x | x in attempts :: x == Attempt(k, a, false)
    ensures Tally(attempts, a, k, true) == 0 && Tally(attempts + [Attempt(k, a, true)], a, k, true) == 1
  {
    assert Attempt(k, a, true) !in attempts;
  }

  /* ---------- back-off of required sinks, in milliseconds ---------- */

  const REQUIRED_RETRY_INITIAL := 100
  const REQUIRED_RETRY_MAX := 5000

  function NextDelay(delay: nat): nat {
    Min(2 * delay, REQUIRED_RETRY_MAX)
  }

  /** The closed form of repeated doubling under the cap. */
  ghost function Backoff(i: nat): nat {
    Min(REQUIRED_RETRY_INITIAL * Pow2(i), REQUIRED_RETRY_MAX)
  }

  lemma {:induction false} BackoffNext(i: nat)
    ensures NextDelay(Backoff(i)) == Backoff(i + 1)
    ensures Backoff(0) == REQUIRED_RETRY_INITIAL
  {
    assert Pow2(i + 1) == 2 * Pow2(i);
  }

  /** The delays in milliseconds. */
  lemma {:induction false} BackoffExact(i: nat)
    ensures Backoff(i) == if i < 6 then [100, 200, 400, 800, 1600, 3200][i] else 5000
  {
    assert Pow2(1) == 2 && Pow2(2) == 4 && Pow2(3) == 8 && Pow2(4) == 16 && Pow2(5) == 32 && Pow2(6) == 64;
    if i >= 6 {
      Pow2Monotone(6, i);
    }
  }

  /** Delays never decrease and stay within the maximum. */
  lemma {:induction false} BackoffMonotone(i: nat, j: nat)
    requires i <= j
    ensures REQUIRED_RETRY_INITIAL <= Backoff(i) <= Backoff(j) <= REQUIRED_RETRY_MAX
  {
    Pow2Monotone(i, j);
  }

  /* ---------- the pipeline ---------- */

  /** Exactly one message in hand was settled, with this fate. */
  ghost predicate OneSettled(h: History, g: History, m: Ingress, fate: Fate) {
    && g.received == h.received && g.resolutions == h.resolutions && g.held == h.held - multiset{m}
    && |g.settled| == |h.settled| + 1 && h.settled <= g.settled
    && g.settled[|h.settled|].message == m && g.settled[|h.settled|].fate == fate
  }

  /** The settled messages that were decided about, in order. */
  ghost function Judged(settled: seq<Settled>): seq<Ingress> {
    if settled == [] then []
    else
      var last := settled[|settled| - 1];
      Judged(settled[..|settled| - 1]) + if last.fate.Malformed? || last.fate.Interrupted? then [] else [last.message]
  }

  /** What was decided meanwhile was settled meanwhile, in the same order. */
  ghost predicate KeptUp(was: seq<Settled>, before: seq<Verified>, now: seq<Settled>, after: seq<Verified>) {
    before <= after && Judged(now) == Judged(was) + Plain(after[|before|..])
  }

  lemma {:induction false} KeptUpAgain(a: seq<Settled>, x: seq<Verified>, b: seq<Settled>, y: seq<Verified>,
                                       c: seq<Settled>, z: seq<Verified>)
    requires KeptUp(a, x, b, y) && KeptUp(b, y, c, z)
    ensures KeptUp(a, x, c, z)
  {
    assert z[|x|..] == y[|x|..] + z[|y|..];
    PlainAppend(y[|x|..], z[|y|..]);
  }

  lemma {:induction false} PlainAppend(a: seq<Verified>, b: seq<Verified>)
    ensures Plain(a + b) == Plain(a) + Plain(b)
  {
  }

  lemma {:induction false} NextJudged(was: seq<Settled>, h: History, g: History, vs: seq<Verified>, i: nat, fate: Fate)
    requires i < |vs| && Judged(h.settled) == Judged(was) + Plain(vs[..i])
    requires OneSettled(h, g, vs[i].message, fate) && !fate.Malformed? && !fate.Interrupted?
    ensures Judged(g.settled) == Judged(was) + Plain(vs[..i + 1])
  {
    OneJudged(h, g, vs[i], fate, []);
    assert Plain(vs[..i + 1]) == Plain(vs[..i]) + [vs[i].message];
  }

  lemma {:induction false} PlainWhole(vs: seq<Verified>)
    ensures Plain(vs[..0]) == [] && vs[..|vs|] == vs
  {
  }

  /** Nothing was decided, and nothing but an undecided message settled. */
  lemma {:induction false} NoneDecided(settled: seq<Settled>, decided: seq<Verified>)
    ensures KeptUp(settled, decided, settled, decided)
    ensures forall x: Settled | x.fate.Malformed? || x.fate.Interrupted? ::
              KeptUp(settled, decided, settled + [x], decided)
  {
    assert Plain([]) == [];
    forall x: Settled ensures (settled + [x])[..|settled|] == settled {
    }
  }

  lemma {:induction false} OneJudged(h: History, g: History, v: Verified, fate: Fate, decided: seq<Verified>)
    requires OneSettled(h, g, v.message, fate)
    ensures Judged(g.settled)
         == Judged(h.settled) + if fate.Malformed? || fate.Interrupted? then [] else [v.message]
    ensures KeptUp(h.settled, decided, g.settled,
                   decided + if fate.Malformed? || fate.Interrupted? then [] else [v])
  {
    var x := g.settled[|h.settled|];
    assert g.settled[..|g.settled| - 1] == h.settled;
    assert Plain([v]) == [v.message] && Plain([]) == [];
    assert (decided + [v])[|decided|..] == [v];
  }

  /** Exactly one message in hand was settled as the decision about its sensor has it. */
  ghost predicate SettledBy(h: History, g: History, m: Ingress, allowed: bool) {
    exists fate :: OneSettled(h, g, m, fate) && FateFits(fate, allowed)
  }

  /** The fates are those that the answer of a lookup calls for. */
  ghost predicate AllFit(settled: seq<Settled>, answer: Result<bool, LookupError>) {
    forall x | x in settled :: if answer.Ok? then FateFits(x.fate, answer.value) else x.fate.Undecided?
  }

  lemma {:induction false} NoneFit(settled: seq<Settled>, answer: Result<bool, LookupError>)
    ensures AllFit(settled[|settled|..], answer)
  {
  }

  lemma {:induction false} NextFits(was: seq<Settled>, h: History, g: History, m: Ingress, fate: Fate,
                                    answer: Result<bool, LookupError>)
    requires was <= h.settled && AllFit(h.settled[|was|..], answer) && OneSettled(h, g, m, fate)
    requires if answer.Ok? then FateFits(fate, answer.value) else fate.Undecided?
    ensures was <= g.settled && AllFit(g.settled[|was|..], answer)
  {
    var x := g.settled[|h.settled|];
    assert g.settled[|was|..] == h.settled[|was|..] + [x];
  }

  ghost predicate FateFits(fate: Fate, allowed: bool) {
    if allowed then fate.Duplicate? || fate.Published? else fate.NotAllowed?
  }

  /** Each call of the policy in progress is the task of a running lookup. */
  ghost predicate OwnTasks(queries: map<nat, Query>, running: map<TaskId, SensorId>) {
    forall t | t in queries :: t in running && queries[t].key == running[t]
  }

  /** How a delivery to one sink ended, or that it had not ended when it was last looked at. */
  datatype Delivery = Taken | Refused | GivenUp | Unfinished

  datatype Ending = Drained | ShutDown | Cut

  /** What the stage reports of a call that is over. */
  ghost function Reported(o: CpsAuth.Outcome): Result<bool, LookupError> {
    match o.end
    case None => Err(TaskFailed)
    case Some((Ok(allowed), _)) => Ok(allowed)
    case Some((Err(e), _)) => Err(PolicyFailed(e))
  }

  ghost function MessagesOf(rs: seq<Resolution>): seq<Verified> {
    if rs == [] then [] else MessagesOf(rs[..|rs| - 1]) + rs[|rs| - 1].messages
  }

  /** The lookups on record are the policy's calls, one for one, with exactly what the stage gave back. */
  ghost predicate OnRecord(rs: seq<Resolution>, outcomes: seq<CpsAuth.Outcome>, returned: seq<Verified>) {
    && |rs| == |outcomes| && MessagesOf(rs) == returned
    && forall i | 0 <= i < |rs| :: rs[i].sensor == outcomes[i].key && rs[i].decision == Reported(outcomes[i])
  }

  lemma {:induction false} OnRecordSnoc(rs: seq<Resolution>, outcomes: seq<CpsAuth.Outcome>, returned: seq<Verified>,
                                        r: Resolution, o: CpsAuth.Outcome)
    requires OnRecord(rs, outcomes, returned) && r.sensor == o.key && r.decision == Reported(o)
    ensures OnRecord(rs + [r], outcomes + [o], returned + r.messages)
  {
    hide Reported;
    assert (rs + [r])[..|rs|] == rs;
  }

  /** Stage, policy and durable half are in order, and so are the books. */
  ghost predicate Sound(p: Acceptor)
    reads p`h, p`clock, p`stopping, p.stage, p.policy, p.backend, p.backend.anchor, p.backend.anchor.store
  {
    && p.stage.Valid() && p.policy.Valid() && p.backend.Valid()
    && p.backend.outside.verify == p.s.verify && p.policy.pinned == p.backend.outside.pinned
    && (forall t :: p.policy.pinned(p.view(t)))
    && p.policy.clock <= p.clock
    && OwnTasks(p.policy.queries, p.stage.running)
    && p.backend.decisions == p.earlier + p.policy.decisions
    && p.policy.negativeTtl == p.s.negativeTtl
    && OnRecord(p.h.resolutions, p.policy.outcomes, p.stage.Returned())
    && Books(p.s, p.h, p.stage.waiting, p.policy.decisions, p.stopping, p.clock)
  }

  /** The cache recalls the publications, and the store holds what they left there. */
  ghost predicate Current(p: Acceptor)
    reads p`h, p`clock, p.dedup, p.backend`stored
  {
    && p.dedup.Valid() && p.dedup.clock <= p.clock
    && p.dedup.ttl == p.s.ttl
    && Recalls(p.dedup.order, p.h.publications, p.s.ttl, p.dedup.capacity, p.dedup.clock)
    && p.backend.stored == p.before + StoredOf(p.h.publications, p.s.durable)
  }

  class Acceptor {
    const s: Setting
    const stage: Stage
    const dedup: D.DedupCache
    const policy: Policy
    const backend: Durable
    /** What the chain reader answers at a time. */
    const view: nat -> Chain
    /** Whether shutdown was signalled, and the monotonic clock. */
    var stopping: bool
    var clock: nat
    ghost var h: History
    /** Decisions and stored messages of former sessions. */
    ghost const earlier: seq<Decision>
    ghost const before: seq<Accepted>

    ghost predicate Valid()
      reads this, stage, dedup, policy, backend, backend.anchor, backend.anchor.store
    {
      Sound(this) && Current(this)
    }

    constructor (s: Setting, stage: Stage, dedup: D.DedupCache, policy: Policy, backend: Durable,
                 view: nat -> Chain)
      requires stage.Valid() && stage.waiting == [] && stage.past == []
      requires dedup.Valid() && dedup.order == [] && dedup.clock == 0 && dedup.ttl == s.ttl
      requires policy.Valid() && policy.View() == NEW_POLICY && policy.negativeTtl == s.negativeTtl
      requires backend.Valid() && backend.outside.verify == s.verify
      requires policy.pinned == backend.outside.pinned && forall t :: policy.pinned(view(t))
      ensures Valid() && h == History([], [], [], [], multiset{}, policy.clock) && !stopping
      ensures this.s == s && this.stage == stage && this.dedup == dedup
      ensures this.policy == policy && this.backend == backend
      ensures this.view == view && this.earlier == backend.decisions && this.before == backend.stored
    {
      hide PolicyOk, AllPinned, StageOk, InStep, D.QueueOk, Books, D.Tracks;
      this.s, this.stage, this.dedup, this.policy, this.backend, this.view := s, stage, dedup, policy, backend, view;
      this.earlier, this.before := backend.decisions, backend.stored;
      stopping, clock := false, policy.clock;
      h := History([], [], [], [], multiset{}, policy.clock);
      new;
      BooksOpen(s, policy.clock);
      assert MarksOf([], dedup.ttl) == [];
      dedup.CapacityPositive();
      D.NothingTracked(dedup.ttl, dedup.capacity);
      assert stage.Returned() == [];
    }

    /* ---------- the other tasks ---------- */

    /** The task of a running lookup does its next part. */
    method AdvanceTask(task: TaskId)
      requires Sound(this) && task in stage.running
      modifies `clock, policy, backend`past, backend`decisions
      ensures Sound(this) && clock >= old(clock) && old(policy.decisions) <= policy.decisions
      ensures task in policy.queries && Remaining(policy.queries, task) <= Remaining(old(policy.queries), task)
      ensures || Remaining(policy.queries, task) == 0
              || Remaining(policy.queries, task) < Remaining(old(policy.queries), task)
    {
      hide Books, PolicyOk, AllPinned, StageOk, InStep, Grounded, Remaining;
      var elapsed := Any();
      clock := clock + elapsed;
      ghost var known := policy.decisions;
      policy.Advance(task, stage.running[task], view, clock);
      BooksLater(s, h, stage.waiting, known, policy.decisions, stopping, stopping, old(clock), clock);
      if |policy.decisions| > |known| {
        ghost var d := policy.decisions[|known|];
        assert policy.decisions == known + [d];
        backend.Note(d);
        assert earlier + known + [d] == earlier + policy.decisions;
      }
    }

    /** Time passes: lookups, batcher and anchor go on, and shutdown may be signalled. */
    method Wait()
      requires Sound(this)
      modifies `stopping, `clock, policy, backend, backend.anchor, backend.anchor.store
      ensures Sound(this) && (old(stopping) ==> stopping) && clock >= old(clock)
      ensures old(policy.decisions) <= policy.decisions && backend.stored == old(backend.stored)
    {
      hide Sound;
      Lookups();
      var fired := *;
      if fired {
        Stop();
      }
      TickOthers();
    }

    method TickOthers()
      requires Sound(this)
      modifies `clock, backend, backend.anchor, backend.anchor.store
      ensures Sound(this) && clock >= old(clock) && backend.stored == old(backend.stored)
    {
      hide Books, PolicyOk, AllPinned, StageOk, InStep;
      var elapsed := Any();
      BooksLater(s, h, stage.waiting, policy.decisions, policy.decisions, stopping, stopping, clock, clock + elapsed);
      clock := clock + elapsed;
      backend.Others();
    }

    method Pass()
      requires Valid()
      modifies `stopping, `clock, policy, backend, backend.anchor, backend.anchor.store
      ensures Valid() && (old(stopping) ==> stopping)
    {
      hide Sound, Recalls, StoredOf, D.QueueOk;
      Wait();
    }

    method Busy() returns (busy: bool)
      requires Sound(this)
      ensures busy <==> stage.waiting != []
      ensures busy ==> stage.running != map[]
    {
      hide Books, PolicyOk, AllPinned, StageOk, InStep;
      busy := stage.IsBusy();
    }

    method Lookups()
      requires Sound(this)
      modifies `clock, policy, backend`past, backend`decisions
      ensures Sound(this) && clock >= old(clock) && old(policy.decisions) <= policy.decisions
    {
      hide Sound;
      var steps := Any();
      while steps > 0
        invariant Sound(this) && clock >= old(clock) && old(policy.decisions) <= policy.decisions
        decreases steps
      {
        var task := Any();
        if task in stage.running {
          AdvanceTask(task);
        }
        steps := steps - 1;
      }
    }

    /** Wait until a running task is done: its call has an answer, or it is about to panic. */
    method AwaitOne() returns (task: TaskId, panics: bool)
      requires Sound(this) && stage.running != map[]
      modifies `clock, policy, backend`past, backend`decisions
      ensures Sound(this) && clock >= old(clock) && old(policy.decisions) <= policy.decisions
      ensures task in stage.running
      ensures panics ==> task in policy.queries ==> !policy.queries[task].progress.Answered?
      ensures !panics ==> task in policy.queries && policy.queries[task].progress.Answered?
    {
      hide Sound;
      Lookups();
      task :| task in stage.running;
      panics := *;
      if panics && (task !in policy.queries || !policy.queries[task].progress.Answered?) {
        return;
      }
      panics := false;
      if task !in policy.queries {
        AdvanceTask(task);
      }
      while !policy.queries[task].progress.Answered?
        invariant Sound(this) && clock >= old(clock) && old(policy.decisions) <= policy.decisions
        invariant task in policy.queries
        decreases Remaining(policy.queries, task)
      {
        AdvanceTask(task);
      }
    }

    /** End the call of a task: hand over its answer, or note that it died. */
    method EndCall(task: TaskId, panics: bool) returns (f: Finished)
      requires Sound(this) && task in stage.running
      requires panics ==> task in policy.queries ==> !policy.queries[task].progress.Answered?
      requires !panics ==> task in policy.queries && policy.queries[task].progress.Answered?
      modifies policy`queries, policy`outcomes
      ensures policy.Valid() && policy.queries == old(policy.queries) - {task} && f.task == task
      ensures |policy.outcomes| == |old(policy.outcomes)| + 1 && old(policy.outcomes) <= policy.outcomes
      ensures var o := policy.outcomes[|old(policy.outcomes)|];
              o.key == stage.running[task] && Answer(f) == Reported(o)
      ensures Answer(f).Ok? ==> Rests(policy.decisions, stage.running[task], Answer(f).value)
    {
      hide Books, PolicyOk, AllPinned, StageOk, InStep, Grounded, Rests, LookupGives;
      if panics {
        policy.Die(task, stage.running[task]);
        f := Finished(task, None);
      } else {
        var answer := policy.Collect(task);
        f := Finished(task, Some(if answer.Ok? then Ok(answer.value) else Err(PolicyFailed(answer.error))));
      }
    }

    /** Collect a finished lookup with the messages that waited for it. */
    method Collect() returns (r: Resolution)
      requires Valid() && stage.running != map[]
      modifies `clock, `h, stage, policy, backend`past, backend`decisions
      ensures Valid() && old(policy.decisions) <= policy.decisions
      ensures h == Taking(old(h), r) && |stage.waiting| < |old(stage.waiting)| && old(stage.past) <= stage.past
      ensures stage.DecidedSoFar() == old(stage.DecidedSoFar()) + r.messages
      ensures Signed(s.verify, r.messages) && forall v | v in r.messages :: v.sensor == r.sensor
      ensures r.decision.Ok? ==> Rests(policy.decisions, r.sensor, r.decision.value)
    {
      hide Sound, Recalls, D.QueueOk, StoredOf, Rests, Signed, InHand;
      var task, panics := AwaitOne();
      r := CollectTask(task, panics);
    }

    method CollectTask(task: TaskId, panics: bool) returns (r: Resolution)
      requires Sound(this) && task in stage.running
      requires panics ==> task in policy.queries ==> !policy.queries[task].progress.Answered?
      requires !panics ==> task in policy.queries && policy.queries[task].progress.Answered?
      modifies `h, stage, policy`queries, policy`outcomes
      ensures Sound(this) && h == Taking(old(h), r) && |stage.waiting| < |old(stage.waiting)|
      ensures old(stage.past) <= stage.past && stage.DecidedSoFar() == old(stage.DecidedSoFar()) + r.messages
      ensures Signed(s.verify, r.messages) && forall v | v in r.messages :: v.sensor == r.sensor
      ensures r.decision.Ok? ==> Rests(policy.decisions, r.sensor, r.decision.value)
    {
      hide Books, PolicyOk, AllPinned, StageOk, InStep, Grounded, Rests, InHand, Of, Except, Finish, Signed, OnRecord,
        Reported, From;
      ghost var was, returned := policy.outcomes, stage.Returned();
      var finished := EndCall(task, panics);
      ghost var o := policy.outcomes[|was|];
      assert policy.outcomes == was + [o];
      ghost var waiting := stage.waiting;
      var got := stage.NextResolution(Some(finished));
      r := got.value;
      BooksCollect(s, h, waiting, policy.decisions, stopping, clock, r);
      OnRecordSnoc(h.resolutions, was, returned, r, o);
      h := Taking(h, r);
    }

    /* ---------- fan-out ---------- */

    /**
     * Hand a message to sink `k`. An optional sink gets one chance; a required one gets another after
     * each pause, unless shutdown intervenes, and is given up on here after `budget` more failures. A
     * sink that `works` takes the message at once.
     */
    method DeliverTo(k: nat, a: Accepted, budget: nat, works: bool)
      returns (d: Delivery, attempts: seq<Attempt>, delays: seq<nat>)
      requires Sound(this) && k < |s.sinks| && Backed(s.verify, policy.decisions, a)
      modifies `stopping, `clock, policy, backend, backend.anchor, backend.anchor.store
      ensures Sound(this) && (old(stopping) ==> stopping) && clock >= old(clock)
      ensures old(policy.decisions) <= policy.decisions
      ensures OneSink(s.sinks, a, attempts, d.Taken?, k)
      ensures backend.stored == old(backend.stored) + if k == s.durable && d.Taken? then [a] else []
      ensures works && (k == s.durable ==> old(backend.HasRoom())) ==>
                d.Taken? && |attempts| == 1 && (k != s.durable ==> backend.HasRoom() == old(backend.HasRoom()))
      ensures d.Refused? ==> !s.sinks[k].required
      ensures d.GivenUp? ==> s.sinks[k].required && stopping
      ensures d.Unfinished? ==> s.sinks[k].required && |attempts| == budget + 1
      ensures |delays| == |attempts| - 1 && forall i | 0 <= i < |delays| :: delays[i] == Backoff(i)
    {
      hide Sound, Tally, Backoff, Rests;
      attempts, delays := [], [];
      var delay, left := REQUIRED_RETRY_INITIAL, budget;
      BackoffNext(0);
      while true
        invariant Sound(this) && (old(stopping) ==> stopping) && clock >= old(clock)
        invariant old(policy.decisions) <= policy.decisions && backend.stored == old(backend.stored)
        invariant forall x | x in attempts :: x == Attempt(k, a, false)
        invariant |delays| == |attempts| == budget - left && (!s.sinks[k].required ==> attempts == [])
        invariant works && (k == s.durable ==> old(backend.HasRoom())) ==>
                    attempts == [] && backend.HasRoom() == old(backend.HasRoom())
        invariant delay == Backoff(|delays|) && forall i | 0 <= i < |delays| :: delays[i] == Backoff(i)
        decreases left
      {
        AllFailures(attempts, a, k);
        var answer := *;
        var ok := TryOnce(k, a, works || answer, old(policy.decisions));
        if ok {
          return Taken, attempts + [Attempt(k, a, true)], delays;
        }
        attempts := attempts + [Attempt(k, a, false)];
        AllFailures(attempts, a, k);
        if !s.sinks[k].required {
          return Refused, attempts, delays;
        }
        Wait();
        var interrupted := *;
        if stopping && interrupted {
          return GivenUp, attempts, delays;
        }
        if left == 0 {
          return Unfinished, attempts, delays;
        }
        delays := delays + [delay];
        BackoffNext(|delays| - 1);
        delay := NextDelay(delay);
        left := left - 1;
      }
    }

    /** One delivery, to which the sink answers `answer`; the durable one pushes the received bytes. */
    method TryOnce(k: nat, a: Accepted, answer: bool, ghost known: seq<Decision>) returns (ok: bool)
      requires Sound(this) && Backed(s.verify, known, a) && known <= policy.decisions
      modifies backend, backend.anchor, backend.anchor.store
      ensures Sound(this)
      ensures backend.stored == old(backend.stored) + if k == s.durable && ok then [a] else []
      ensures ok <==> answer && (k == s.durable ==> old(backend.HasRoom()))
      ensures k != s.durable ==> backend.HasRoom() == old(backend.HasRoom())
    {
      hide Books, PolicyOk, AllPinned, StageOk, InStep, Rests;
      if k == s.durable {
        MoreDecisions(known, policy.decisions, a.sensor, true);
        EarlierDecisions(earlier, policy.decisions, a.sensor);
        ok := backend.Deliver(a, answer);
      } else {
        ok := answer;
      }
    }

    /**
     * Deliver to every sink; true exactly if every required one accepted, once. Covers calls that
     * return. Where all sinks work, one attempt each is enough.
     */
    method FanOut(a: Accepted, works: bool) returns (complete: bool, attempts: seq<Attempt>)
      requires Sound(this) && Backed(s.verify, policy.decisions, a)
      modifies `stopping, `clock, policy, backend, backend.anchor, backend.anchor.store
      ensures Sound(this) && (old(stopping) ==> stopping) && clock >= old(clock)
      ensures old(policy.decisions) <= policy.decisions
      ensures Faithful(s.sinks, a, attempts, complete)
      ensures backend.stored == old(backend.stored) + Kept(attempts, a, s.durable)
      ensures !complete ==> stopping
      ensures works && old(backend.HasRoom()) ==> complete && |attempts| == |s.sinks|
    {
      hide Sound, Rests, OneSink, Kept, Faithful;
      complete, attempts := true, [];
      NoneYet(s.sinks, a, s.durable);
      for k := 0 to |s.sinks|
        invariant Sound(this) && (old(stopping) ==> stopping) && clock >= old(clock)
        invariant old(policy.decisions) <= policy.decisions
        invariant FaithfulUpTo(s.sinks, a, attempts, complete, k)
        invariant backend.stored == old(backend.stored) + Kept(attempts, a, s.durable)
        invariant !complete ==> stopping
        invariant works && old(backend.HasRoom()) ==>
                    complete && |attempts| == k && (k <= s.durable ==> backend.HasRoom())
      {
        MoreDecisions(old(policy.decisions), policy.decisions, a.sensor, true);
        var patience := Any();
        var d, more, _ := DeliverTo(k, a, patience, works);
        if d.Unfinished? {
          Stop();
        }
        NextSink(s.sinks, a, attempts, complete, k, more, d.Taken?);
        NextKept(s.sinks, a, attempts, complete, k, more, d.Taken?, s.durable);
        attempts := attempts + more;
        complete := complete && (d.Taken? || !s.sinks[k].required);
      }
      assert s.sinks[..|s.sinks|] == s.sinks;
    }

    /** Shutdown is signalled. */
    method Stop()
      requires Sound(this)
      modifies `stopping
      ensures Sound(this) && stopping
    {
      hide Books, PolicyOk, AllPinned, StageOk, InStep;
      BooksLater(s, h, stage.waiting, policy.decisions, policy.decisions, stopping, true, clock, clock);
      stopping := true;
    }

    /* ---------- decisions ---------- */

    /**
     * Ask the cache about an allowed message, and fan it out if it is new. If a required sink did not accept it,
     * its id is unknown to the cache again.
     */
    method AcceptMessage(v: Verified) returns (fate: Fate, at: nat)
      requires Valid() && v.message in h.held
      requires s.verify(v.message) == Some(v.sensor) && Rests(policy.decisions, v.sensor, true)
      modifies this, dedup, policy, backend, backend.anchor, backend.anchor.store
      ensures Valid() && OneSettled(old(h), h, v.message, fate) && (old(stopping) ==> stopping)
      ensures old(policy.decisions) <= policy.decisions
      ensures fate == if D.Accept(old(dedup.order), s.hash(v.message.raw), at, dedup.ttl, dedup.capacity).0
                      then Published(s.hash(v.message.raw) in dedup.seen) else Duplicate
    {
      hide Sound, D.Accept, D.Without, Recalls, StoredOf, Kept, Faithful, Rests, D.IdsOf, D.Distinct,
          D.SortedByExpiry, Copied;
      Wait();
      at := clock;
      var id := s.hash(v.message.raw);
      ghost var was, ps := dedup.order, h.publications;
      ghost var earlierClock := dedup.clock;
      var isNew := dedup.InsertIfNew(id, at);
      MoreDecisions(old(policy.decisions), policy.decisions, v.sensor, true);
      if !isNew {
        RecallsRepeat(was, ps, s.ttl, dedup.capacity, earlierClock, id, at);
        fate := Duplicate;
        Settle(v.message, fate);
      } else {
        var a := Accepted(v.message, v.sensor, id);
        var works := *;
        var complete, attempts := FanOut(a, works);
        MoreDecisions(old(policy.decisions), policy.decisions, v.sensor, true);
        ghost var p := Publication(a, at, attempts, complete);
        RecallsPublish(was, ps, s.ttl, dedup.capacity, earlierClock, p);
        if !complete {
          dedup.Forget(id);
        }
        fate := Published(complete);
        StoredOfSnoc(ps, p, s.durable);
        Publish(p);
      }
    }

    /** Enter the fate of a message in hand that is not published. */
    ghost method Settle(m: Ingress, fate: Fate)
      requires Sound(this) && m in h.held && !fate.Published?
      requires Reason(Settled(m, fate, clock), s, h, policy.decisions, stopping)
      modifies `h
      ensures Sound(this) && h == Settling(old(h), Settled(m, fate, clock))
    {
      hide Books, PolicyOk, AllPinned, StageOk, InStep, OnRecord, Reason;
      BooksSettle(s, h, stage.waiting, policy.decisions, stopping, clock, Settled(m, fate, clock));
      h := Settling(h, Settled(m, fate, clock));
    }

    /** Enter the publication of a message in hand. */
    ghost method Publish(p: Publication)
      requires Sound(this) && p.accepted.message in h.held
      requires Faithful(s.sinks, p.accepted, p.attempts, p.complete) && (!p.complete ==> stopping)
      requires s.verify(p.accepted.message) == Some(p.accepted.sensor)
      requires Rests(policy.decisions, p.accepted.sensor, true)
      requires p.accepted.id == s.hash(p.accepted.message.raw)
      modifies `h
      ensures Sound(this) && h == Publishing(old(h), p, clock)
    {
      hide Books, PolicyOk, AllPinned, StageOk, InStep, OnRecord, Faithful, Rests;
      BooksPublish(s, h, stage.waiting, policy.decisions, stopping, clock, p);
      h := Publishing(h, p, clock);
    }

    /** An allowed message is accepted, a denied one is settled. */
    method Decide(allowed: bool, v: Verified) returns (fate: Fate)
      requires Valid() && v.message in h.held && s.verify(v.message) == Some(v.sensor)
      requires allowed ==> Rests(policy.decisions, v.sensor, true)
      requires !allowed ==> || LookedUp(h.resolutions, v.message, v.sensor, Some(false))
                            || LiveDenial(policy.decisions, v.sensor, clock, s.negativeTtl)
      modifies this, dedup, policy, backend, backend.anchor, backend.anchor.store
      ensures Valid() && OneSettled(old(h), h, v.message, fate) && (old(stopping) ==> stopping)
      ensures old(policy.decisions) <= policy.decisions
      ensures if allowed then fate.Duplicate? || fate.Published? else fate.NotAllowed?
    {
      hide Sound, Rests, Recalls, StoredOf, D.QueueOk, LookedUp, LiveDenial;
      if allowed {
        var at: nat;
        fate, at := AcceptMessage(v);
      } else {
        fate := NotAllowed;
        Settle(v.message, fate);
      }
    }

    /** Settle one of the messages that a lookup held up. */
    method ResolveOne(r: Resolution, v: Verified) returns (fate: Fate)
      requires Valid() && v.message in h.held && s.verify(v.message) == Some(v.sensor)
      requires r in h.resolutions && v in r.messages && v.sensor == r.sensor
      requires r.decision.Ok? ==> Rests(policy.decisions, v.sensor, r.decision.value)
      modifies this, dedup, policy, backend, backend.anchor, backend.anchor.store
      ensures Valid() && OneSettled(old(h), h, v.message, fate) && (old(stopping) ==> stopping)
      ensures old(policy.decisions) <= policy.decisions
      ensures r.decision == Ok(true) <==> fate.Duplicate? || fate.Published?
      ensures r.decision == Ok(false) <==> fate.NotAllowed?
      ensures r.decision.Err? <==> fate.Undecided?
    {
      hide Sound, Rests, Recalls, StoredOf, D.QueueOk;
      assert v == Verified(v.message, v.sensor);
      if r.decision.Ok? {
        fate := Decide(r.decision.value, v);
      } else {
        fate := Undecided;
        Settle(v.message, fate);
      }
    }

    /** Settle all the messages that a lookup held up, in order. */
    method Resolve(r: Resolution)
      requires Valid() && r in h.resolutions && InHand(r.messages) <= h.held
      requires Signed(s.verify, r.messages) && forall v | v in r.messages :: v.sensor == r.sensor
      requires r.decision.Ok? ==> Rests(policy.decisions, r.sensor, r.decision.value)
      modifies this, dedup, policy, backend, backend.anchor, backend.anchor.store
      ensures Valid() && (old(stopping) ==> stopping)
      ensures h.received == old(h).received && h.held == old(h).held - InHand(r.messages)
      ensures Judged(h.settled) == Judged(old(h.settled)) + Plain(r.messages)
      ensures old(h.settled) <= h.settled && AllFit(h.settled[|old(h.settled)|..], r.decision)
    {
      hide Sound, Current, Rests, InHand, Judged, Plain, KeptUp, AllFit;
      ghost var rest := h.held - InHand(r.messages);
      NothingInHand(r.messages);
      NoneFit(h.settled, r.decision);
      PlainWhole(r.messages);
      for i := 0 to |r.messages|
        invariant Valid() && (old(stopping) ==> stopping) && old(policy.decisions) <= policy.decisions
        invariant h.received == old(h).received && r in h.resolutions && h.held == rest + InHand(r.messages[i..])
        invariant Judged(h.settled) == Judged(old(h.settled)) + Plain(r.messages[..i])
        invariant old(h.settled) <= h.settled && AllFit(h.settled[|old(h.settled)|..], r.decision)
      {
        ghost var was := h;
        var v := r.messages[i];
        assert r.messages[i..] == [v] + r.messages[i + 1..];
        OneMoreInHand(v, r.messages[i + 1..]);
        if r.decision.Ok? {
          MoreDecisions(old(policy.decisions), policy.decisions, r.sensor, r.decision.value);
        }
        var fate := ResolveOne(r, v);
        NextFits(old(h.settled), was, h, v.message, fate, r.decision);
        NextJudged(old(h.settled), was, h, r.messages, i, fate);
      }
    }

    /** Something waits, so a lookup is running: take its result and apply it. */
    method CollectAndResolve()
      requires Valid() && stage.waiting != []
      modifies this, stage, dedup, policy, backend, backend.anchor, backend.anchor.store
      ensures Valid() && (old(stopping) ==> stopping)
      ensures h.received == old(h).received && h.held == old(h).held
      ensures |stage.waiting| < |old(stage.waiting)| && old(stage.past) <= stage.past
      ensures KeptUp(old(h.settled), old(stage.DecidedSoFar()), h.settled, stage.DecidedSoFar())
    {
      hide Sound, Current, Rests, InHand, Signed, Judged, From;
      var _ := Busy();
      var resolution := Collect();
      Resolve(resolution);
    }

    /** What the policy's cache says about a sensor at this moment. */
    ghost function Known(sensor: SensorId): Option<bool>
      reads this, policy
    {
      Consult(policy.cache, sensor, clock).0
    }

    /**
     * Offer a message in hand to the stage. A known decision settles it there and then; otherwise it
     * is parked, or handed back by a full stage.
     */
    method Offer(v: Verified) returns (taken: bool)
      requires Valid() && h.held == multiset{v.message} && s.verify(v.message) == Some(v.sensor)
      modifies this, stage, dedup, policy, backend, backend.anchor, backend.anchor.store
      ensures Valid() && h.received == old(h).received && (old(stopping) ==> stopping)
      ensures taken <==> old(Known(v.sensor)).Some? || |old(stage.waiting)| < stage.limits.maxPending
      ensures stage.past == old(stage.past) + [Offered(v, old(Known(v.sensor)))]
      ensures old(Known(v.sensor)).Some? ==>
                && SettledBy(old(h), h, v.message, old(Known(v.sensor)).value)
                && h.held == multiset{} && stage.waiting == old(stage.waiting)
      ensures old(Known(v.sensor)).None? && taken ==>
                h == old(h).(held := multiset{}) && stage.waiting == old(stage.waiting) + [v]
      ensures !taken ==> h == old(h) && stage.waiting == old(stage.waiting)
      ensures !taken ==> |stage.waiting| == stage.limits.maxPending
      ensures KeptUp(old(h.settled), old(stage.DecidedSoFar()), h.settled, stage.DecidedSoFar())
    {
      hide Sound, Recalls, StoredOf, D.QueueOk, Rests, Consult, KeptUp, Judged, From;
      var admission := AdmitOne(v);
      assert old(stage.DecidedSoFar()) + [] == old(stage.DecidedSoFar());
      NoneDecided(h.settled, old(stage.DecidedSoFar()));
      match admission {
        case Decided(allowed, message) =>
          var fate := Decide(allowed, message);
          assert FateFits(fate, allowed);
          OneJudged(old(h), h, v, fate, old(stage.DecidedSoFar()));
        case Parked =>
        case Overflow(_) => return false;
      }
      taken := true;
    }

    /** Ask the cache about the sender, and the stage about the message. */
    method AdmitOne(v: Verified) returns (r: Admission)
      requires Valid() && h.held == multiset{v.message} && s.verify(v.message) == Some(v.sensor)
      modifies `h, stage, policy
      ensures Valid() && h == if r.Parked? then old(h).(held := multiset{}) else old(h)
      ensures stage.waiting == old(stage.waiting) + if r.Parked? then [v] else []
      ensures stage.past == old(stage.past) + [Offered(v, old(Known(v.sensor)))]
      ensures stage.DecidedSoFar() == old(stage.DecidedSoFar()) + if r.Decided? then [v] else []
      ensures r.Decided? <==> old(Known(v.sensor)).Some?
      ensures r.Decided? ==> r == Decided(old(Known(v.sensor)).value, v) && Rests(policy.decisions, v.sensor, r.allowed)
      ensures r.Decided? && !r.allowed ==> LiveDenial(policy.decisions, v.sensor, clock, s.negativeTtl)
      ensures r.Overflow? <==> old(Known(v.sensor)).None? && |old(stage.waiting)| >= stage.limits.maxPending
      ensures r.Overflow? ==> |stage.waiting| == stage.limits.maxPending
    {
      hide Books, PolicyOk, AllPinned, StageOk, InStep, Rests, LiveDenial, Consult, Park, OnRecord, From, Recalls,
        StoredOf, D.QueueOk;
      var known := policy.TryAuthorize(v.sensor, clock);
      BooksPark(s, h, stage.waiting, policy.decisions, stopping, clock, v);
      r := stage.Admit(v, known);
      if r.Parked? {
        h := h.(held := h.held - multiset{v.message});
      }
    }

    /**
     * Verify a message and authorize it, at once or through the stage. Where the cache knows about
     * its sensor, the message is settled accordingly and never waits, however full the stage is; where
     * not, it is parked, and a full stage holds it back for one finished lookup at most.
     */
    method Process(m: Ingress) returns (waits: nat)
      requires Valid() && h.held == multiset{}
      modifies this, stage, dedup, policy, backend, backend.anchor, backend.anchor.store
      ensures Valid() && h.held == multiset{} && h.received == old(h).received + [m] && (old(stopping) ==> stopping)
      ensures waits <= 1 && |stage.waiting| <= |old(stage.waiting)| + 1
      ensures s.verify(m).None? ==>
                && waits == 0 && stage.waiting == old(stage.waiting) && stage.past == old(stage.past)
                && OneSettled(Receiving(old(h), m), h, m, Malformed)
      ensures s.verify(m).Some? ==> HandledAtOnce(Verified(m, s.verify(m).value), old(Known(s.verify(m).value)),
                                                  Receiving(old(h), m), old(stage.waiting), old(stage.past), waits)
      ensures KeptUp(old(h.settled), old(stage.DecidedSoFar()), h.settled, stage.DecidedSoFar())
    {
      hide Sound, Current, KeptUp, From;
      waits := 0;
      NoneDecided(h.settled, stage.DecidedSoFar());
      Receive(m);
      var sensor := s.verify(m);
      if sensor.None? {
        Drop(m, Malformed);
      } else {
        waits := OfferUntilTaken(Verified(m, sensor.value));
      }
    }

    /** What the first offer of a message comes to, given what the cache knew about its sensor. */
    ghost predicate HandledAtOnce(v: Verified, known: Option<bool>, was: History, waiting: seq<Verified>,
                                  past: seq<Event>, waits: nat)
      reads this, stage
    {
      && past + [Offered(v, known)] <= stage.past
      && (known.Some? ==>
            && waits == 0 && SettledBy(was, h, v.message, known.value)
            && stage.waiting == waiting && stage.past == past + [Offered(v, known)])
      && (known.None? && |waiting| < stage.limits.maxPending ==>
            && waits == 0 && h == was.(held := multiset{})
            && stage.waiting == waiting + [v] && stage.past == past + [Offered(v, known)])
      && (known.None? && |waiting| >= stage.limits.maxPending ==>
            waits == 1 || (stopping && OneSettled(was, h, v.message, Interrupted)))
    }

    /** A message in hand meets its end without reaching the cache. */
    ghost method Drop(m: Ingress, fate: Fate)
      requires Valid() && m in h.held && !fate.Published?
      requires Reason(Settled(m, fate, clock), s, h, policy.decisions, stopping)
      modifies `h
      ensures Valid() && h == Settling(old(h), Settled(m, fate, clock))
    {
      hide Sound, Recalls, StoredOf, D.QueueOk, Reason;
      Settle(m, fate);
    }

    ghost method Receive(m: Ingress)
      requires Valid()
      modifies `h
      ensures Valid() && h == Receiving(old(h), m)
    {
      hide Books, PolicyOk, AllPinned, StageOk, InStep, Recalls, StoredOf, D.QueueOk;
      BooksReceive(s, h, stage.waiting, policy.decisions, stopping, clock, m);
      h := Receiving(h, m);
    }

    method OfferUntilTaken(v: Verified) returns (waits: nat)
      requires Valid() && h.held == multiset{v.message} && s.verify(v.message) == Some(v.sensor)
      modifies this, stage, dedup, policy, backend, backend.anchor, backend.anchor.store
      ensures Valid() && h.held == multiset{} && h.received == old(h).received && (old(stopping) ==> stopping)
      ensures waits <= 1 && |stage.waiting| <= |old(stage.waiting)| + 1
      ensures HandledAtOnce(v, old(Known(v.sensor)), old(h), old(stage.waiting), old(stage.past), waits)
      ensures KeptUp(old(h.settled), old(stage.DecidedSoFar()), h.settled, stage.DecidedSoFar())
    {
      hide Sound, Current, Consult, KeptUp, Judged, From;
      NoneDecided(h.settled, stage.DecidedSoFar());
      waits := 0;
      ghost var first := Offered(v, Known(v.sensor));
      while true
        invariant Valid() && h.held == multiset{v.message} && h.received == old(h).received
        invariant old(stopping) ==> stopping
        invariant |stage.waiting| <= |old(stage.waiting)|
        invariant waits == 0 ==> && h == old(h) && Known(v.sensor) == old(Known(v.sensor))
                                 && stage.waiting == old(stage.waiting) && stage.past == old(stage.past)
        invariant waits == 1 ==> && |stage.waiting| < stage.limits.maxPending <= |old(stage.waiting)|
                                 && old(Known(v.sensor)).None? && old(stage.past) + [first] <= stage.past
        invariant waits <= 1
        invariant KeptUp(old(h.settled), old(stage.DecidedSoFar()), h.settled, stage.DecidedSoFar())
        decreases |stage.waiting|
      {
        ghost var settled, decided := h.settled, stage.DecidedSoFar();
        var taken := Offer(v);
        KeptUpAgain(old(h.settled), old(stage.DecidedSoFar()), settled, decided, h.settled, stage.DecidedSoFar());
        if taken {
          return;
        }
        Pass();
        var stop := *;
        settled, decided := h.settled, stage.DecidedSoFar();
        if stopping && stop {
          NoneDecided(settled, decided);
          Drop(v.message, Interrupted);
          KeptUpAgain(old(h.settled), old(stage.DecidedSoFar()), settled, decided, h.settled, stage.DecidedSoFar());
          return;
        }
        SomethingWaits();
        CollectAndResolve();
        KeptUpAgain(old(h.settled), old(stage.DecidedSoFar()), settled, decided, h.settled, stage.DecidedSoFar());
        Pass();
        waits := waits + 1;
      }
    }

    lemma {:induction false} SomethingWaits()
      requires Sound(this) && |stage.waiting| == stage.limits.maxPending
      ensures stage.waiting != []
    {
      hide Books, PolicyOk, AllPinned, StageOk, InStep;
      stage.LimitsPositive();
    }

    /* ---------- the event loop ---------- */

    /**
     * Drain the ingress until it is closed and nothing is parked, or shutdown is signalled.
     * `budget` bounds how many events are observed; two for each message and one more are enough
     * to see the end.
     */
    method Run(ingress: seq<Ingress>, budget: nat) returns (end: Ending)
      requires Valid() && h.held == multiset{} && h.received == []
      modifies this, stage, dedup, policy, backend, backend.anchor, backend.anchor.store
      ensures Valid() && h.received <= ingress
      ensures multiset(h.received) == multiset(Fated(h.settled)) + InHand(stage.waiting)
      ensures end.Drained? ==> h.received == ingress && multiset(ingress) == multiset(Fated(h.settled))
      ensures end.ShutDown? ==> stopping
      ensures budget > 2 * |ingress| + |old(stage.waiting)| ==> !end.Cut?
      ensures Reasoned(s, h, policy.decisions, stopping, clock) && Outcomes(h.settled) == OutcomesOf(h.publications)
      ensures end.Drained? && !stopping ==>
                forall m | m in ingress && s.verify(m).Some? ::
                  Handled(s, h, policy.decisions, StoredOf(h.publications, s.durable), m, s.verify(m).value)
      ensures OnRecord(h.resolutions, policy.outcomes, stage.Returned())
      ensures AllFaithful(s, policy.decisions, h.publications)
      ensures D.Apart(MarksOf(h.publications, s.ttl), s.ttl, dedup.capacity)
      ensures backend.stored == before + StoredOf(h.publications, s.durable)
      ensures After(backend.anchor.f, backend.outside, backend.past).stored == backend.stored
      ensures Conserved(From(stage.limits, Empty(), stage.past))
      ensures KeptUp(old(h.settled), old(stage.DecidedSoFar()), h.settled, stage.DecidedSoFar())
      ensures AllDistinct(From(stage.limits, Empty(), stage.past).taken) ==>
                forall x :: InOrder(From(stage.limits, Empty(), stage.past), x) <==>
                            NeverJumps(stage.limits, stage.past, x)
    {
      end := RunLoop(ingress, budget);
      hide Sound, Current, Recalls, StoredOf, Reasoned, AllFaithful, Outcomes, OutcomesOf, After, From, Conserved,
          InHand,
        OnRecord, D.Apart, Handled, InOrder, NeverJumps, AllDistinct, KeptUp;
      BooksReport();
      CacheReport();
      StoreReport();
      ParkedInOrder();
      OrderReport();
      if end.Drained? {
        NothingInHand(stage.waiting);
        if !stopping {
          LossReport();
        }
      }
    }

    lemma {:induction false} BooksReport()
      requires Sound(this) && h.held == multiset{}
      ensures multiset(h.received) == multiset(Fated(h.settled)) + InHand(stage.waiting)
      ensures Reasoned(s, h, policy.decisions, stopping, clock) && Outcomes(h.settled) == OutcomesOf(h.publications)
      ensures AllFaithful(s, policy.decisions, h.publications)
      ensures OnRecord(h.resolutions, policy.outcomes, stage.Returned())
    {
      hide PolicyOk, StageOk, InStep, Reasoned, AllFaithful, Outcomes, OutcomesOf, InHand, Signed, OnRecord;
    }

    lemma {:induction false} LossReport()
      requires Sound(this) && h.held == multiset{} && stage.waiting == [] && !stopping
      ensures forall m | m in h.received && s.verify(m).Some? ::
                Handled(s, h, policy.decisions, StoredOf(h.publications, s.durable), m, s.verify(m).value)
    {
      hide Books, PolicyOk, AllPinned, StageOk, InStep, OnRecord, Handled, StoredOf;
      forall m | m in h.received && s.verify(m).Some?
        ensures Handled(s, h, policy.decisions, StoredOf(h.publications, s.durable), m, s.verify(m).value)
      {
        NothingLost(s, h, policy.decisions, clock, m, s.verify(m).value);
      }
    }

    lemma {:induction false} CacheReport()
      requires Current(this)
      ensures D.Apart(MarksOf(h.publications, s.ttl), s.ttl, dedup.capacity)
      ensures backend.stored == before + StoredOf(h.publications, s.durable)
    {
      hide StoredOf, D.QueueOk, D.IsTail, D.Apart;
    }

    lemma {:induction false} StoreReport()
      requires Sound(this)
      ensures After(backend.anchor.f, backend.outside, backend.past).stored == backend.stored
    {
      hide Books, PolicyOk, StageOk, After;
    }

    lemma {:induction false} ParkedInOrder()
      requires Sound(this)
      ensures Conserved(From(stage.limits, Empty(), stage.past))
    {
      hide Books, PolicyOk, AllPinned, StageOk, InStep, From, Conserved;
      stage.LimitsPositive();
      ParkedComeBackInOrder(stage.limits, stage.past);
    }

    lemma {:induction false} OrderReport()
      requires Sound(this)
      ensures AllDistinct(From(stage.limits, Empty(), stage.past).taken) ==>
                forall x :: InOrder(From(stage.limits, Empty(), stage.past), x) <==>
                            NeverJumps(stage.limits, stage.past, x)
    {
      hide Books, PolicyOk, AllPinned, StageOk, InStep, From, InOrder, NeverJumps, AllDistinct;
      stage.LimitsPositive();
      if AllDistinct(From(stage.limits, Empty(), stage.past).taken) {
        forall x ensures InOrder(From(stage.limits, Empty(), stage.past), x) <==>
                         NeverJumps(stage.limits, stage.past, x) {
          InOrderExactly(stage.limits, stage.past, x);
        }
      }
    }

    method RunLoop(ingress: seq<Ingress>, budget: nat) returns (end: Ending)
      requires Valid() && h.held == multiset{} && h.received == []
      modifies this, stage, dedup, policy, backend, backend.anchor, backend.anchor.store
      ensures Valid() && h.held == multiset{} && h.received <= ingress
      ensures end.Drained? ==> h.received == ingress && stage.waiting == []
      ensures end.ShutDown? ==> stopping
      ensures budget > 2 * |ingress| + |old(stage.waiting)| ==> !end.Cut?
      ensures KeptUp(old(h.settled), old(stage.DecidedSoFar()), h.settled, stage.DecidedSoFar())
    {
      hide Sound, Current, KeptUp, From;
      NoneDecided(h.settled, stage.DecidedSoFar());
      var open, left, next := true, budget, 0;
      var busy := Busy();
      while open || busy
        invariant Valid() && h.held == multiset{} && left >= 0
        invariant 0 <= next <= |ingress| && h.received == ingress[..next]
        invariant !open ==> next == |ingress|
        invariant busy <==> stage.waiting != []
        invariant budget > 2 * |ingress| + |old(stage.waiting)| ==>
                    left >= 2 * (|ingress| - next) + |stage.waiting| + (if open then 1 else 0)
        invariant KeptUp(old(h.settled), old(stage.DecidedSoFar()), h.settled, stage.DecidedSoFar())
        decreases left
      {
        if left == 0 {
          return Cut;
        }
        left := left - 1;
        ghost var settled, decided := h.settled, stage.DecidedSoFar();
        NoneDecided(settled, decided);
        Pass();
        var stop, collect := *, *;
        if stopping && stop {
          return ShutDown;
        } else if busy && (collect || !open) {
          CollectAndResolve();
        } else if next < |ingress| {
          var _ := Process(ingress[next]);
          next := next + 1;
        } else {
          open := false;
        }
        KeptUpAgain(old(h.settled), old(stage.DecidedSoFar()), settled, decided, h.settled, stage.DecidedSoFar());
        busy := Busy();
      }
      end := Drained;
    }
  }

  lemma {:induction false} EarlierDecisions(earlier: seq<Decision>, decisions: seq<Decision>, s: SensorId)
    requires Rests(decisions, s, true)
    ensures Rests(earlier + decisions, s, true)
  {
    var d :| d in decisions && d.key == s && d.allowed;
    assert d in earlier + decisions;
  }

  lemma {:induction false} NoneYet(sinks: seq<Sink>, a: Accepted, durable: nat)
    ensures FaithfulUpTo(sinks, a, [], true, 0) && Kept([], a, durable) == []
  {
  }

  /** All parts of a call but the last: its answer is stored, not collected. */
  method FillCache(policy: Policy, task: TaskId, sensor: SensorId, chain: Chain, now: nat)
    requires policy.Valid() && policy.cache == [] && policy.queries == map[] && !policy.verified && policy.clock <= now
    requires chain.verify.Ok? && BelowRoot(chain, sensor, policy.root) && policy.pinned(chain)
    modifies policy
    ensures policy.Valid() && policy.cache == [Slot(sensor, Cached(true, None))] && policy.clock <= now
  {
    hide PolicyOk, BelowRoot, OutsideRoot, Grounded, Rests, LookupGives;
    policy.Begin(task, sensor, now);
    ghost var begun := policy.View();
    policy.Look(task, chain, false);
    ghost var r :| LookupGives(chain, sensor, policy.root, begun.verified, r)
                   && policy.View() == Do(policy.root, policy.capacity, policy.negativeTtl, begun,
                                          Looking(task, chain, r));
    LookupSound(chain, sensor, policy.root, begun.verified, r);
    assert policy.queries[task].progress == Looked(true, chain, false);
    policy.Remember(task, now);
  }

  /**
   * Overtaking as the code produces it: a lookup fills the cache before its result is collected,
   * so a later message of the sensor is decided at once while the first still waits.
   */
  method Overtake(stage: Stage, policy: Policy, a: Verified, b: Verified, chain: Chain, now: nat)
    returns (first: Admission, second: Admission)
    requires stage.Valid() && stage.waiting == [] && policy.Valid() && policy.View() == NEW_POLICY
    requires a.sensor == b.sensor
    requires chain.verify.Ok? && BelowRoot(chain, a.sensor, policy.root) && policy.pinned(chain)
    modifies stage, policy
    ensures first == Parked && second == Decided(true, b) && stage.waiting == [a]
  {
    hide PolicyOk, StageOk, Park, BelowRoot, OutsideRoot, Grounded, Rests, LookupGives;
    var known := policy.TryAuthorize(a.sensor, now);
    assert known == None;
    stage.LimitsPositive();
    first := stage.Admit(a, known);
    var busy := stage.IsBusy();
    assert stage.waiting == [a] && busy;
    var task :| task in stage.running;
    FillCache(policy, task, a.sensor, chain, now);
    known := policy.TryAuthorize(b.sensor, now);
    assert known == Some(true);
    second := stage.Admit(b, known);
  }
}
