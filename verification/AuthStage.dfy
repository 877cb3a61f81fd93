/** The bounded authorization stage: singleflight lookups over parked messages. */
module AuthStage {
  import opened Prelude
  import opened Wire
  import opened Ancestry

  type SensorId = nat

  /** A message as received; `serial` tells apart messages with the same bytes. */
  datatype Ingress = Ingress(serial: nat, raw: seq<byte>, receivedAt: u64)

  /** A message with the sensor identity its signature proved. */
  datatype Verified = Verified(message: Ingress, sensor: SensorId)

  datatype Limits = Limits(maxConcurrent: nat, maxPending: nat)

  /** Why a lookup gave no decision: its task died, or the policy could not decide. */
  datatype LookupError = TaskFailed | PolicyFailed(cause: AuthError)

  datatype Admission = Decided(allowed: bool, message: Verified) | Parked | Overflow(message: Verified)

  datatype Resolution = Resolution(sensor: SensorId, decision: Result<bool, LookupError>, messages: seq<Verified>)

  /* ---------- the simple scheduler: one list in arrival order ---------- */

  /** Waiting messages in arrival order, the sensors being looked up, and those whose turn is to come. */
  datatype Line = Line(waiting: seq<Verified>, running: set<SensorId>, queued: seq<SensorId>)

  ghost function Of(ms: seq<Verified>, s: SensorId): (r: seq<Verified>)
    ensures forall m | m in r :: m.sensor == s
  {
    if ms == [] then []
    else (if ms[0].sensor == s then [ms[0]] else []) + Of(ms[1..], s)
  }

  ghost function Except(ms: seq<Verified>, s: SensorId): seq<Verified> {
    if ms == [] then []
    else (if ms[0].sensor == s then [] else [ms[0]]) + Except(ms[1..], s)
  }

  ghost function Sensors(ms: seq<Verified>): set<SensorId> {
    set m | m in ms :: m.sensor
  }

  /** Begin lookups from the head of the queue while there is room. */
  ghost function Start(l: Line, max: nat): Line
    decreases |l.queued|
  {
    if |l.running| >= max || l.queued == [] then l
    else Start(Line(l.waiting, l.running + {l.queued[0]}, l.queued[1..]), max)
  }

  /** A message joins the lookup of its sensor, or queues a new one. */
  ghost function Park(l: Line, limits: Limits, m: Verified): Line {
    if m.sensor in Sensors(l.waiting) then Line(l.waiting + [m], l.running, l.queued)
    else Start(Line(l.waiting + [m], l.running, l.queued + [m.sensor]), limits.maxConcurrent)
  }

  /** A lookup ends: its messages leave, and the queue moves up. */
  ghost function Finish(l: Line, limits: Limits, s: SensorId): Line {
    Start(Line(Except(l.waiting, s), l.running - {s}, l.queued), limits.maxConcurrent)
  }

  ghost predicate NoRepeats(q: seq<SensorId>) {
    forall i, j | 0 <= i < j < |q| :: q[i] != q[j]
  }

  /** Every waiting sensor has exactly one place: in the queue, once, or running. */
  ghost predicate OnePlace(l: Line) {
    && NoRepeats(l.queued)
    && (forall s | s in l.queued :: s !in l.running)
    && (forall s :: s in Sensors(l.waiting) <==> s in l.queued || s in l.running)
  }

  /** Within bounds, and no lookup waits for a free slot. */
  ghost predicate Bounded(l: Line, limits: Limits) {
    && |l.waiting| <= limits.maxPending
    && |l.running| <= limits.maxConcurrent
    && (l.queued != [] ==> |l.running| == limits.maxConcurrent)
  }

  ghost predicate Orderly(l: Line, limits: Limits) {
    OnePlace(l) && Bounded(l, limits)
  }

  /* ---------- facts about the list ---------- */

  lemma {:induction false} SplitCount(ms: seq<Verified>, s: SensorId)
    ensures |Of(ms, s)| + |Except(ms, s)| == |ms|
    ensures Of(ms, s) != [] <==> s in Sensors(ms)
  {
    if ms != [] {
      SplitCount(ms[1..], s);
      SensorsCons(ms);
      hide Sensors;
    }
  }

  lemma {:induction false} SensorsCons(ms: seq<Verified>)
    requires ms != []
    ensures Sensors(ms) == {ms[0].sensor} + Sensors(ms[1..])
  {
    assert ms == [ms[0]] + ms[1..];
  }

  lemma {:induction false} SplitMultiset(ms: seq<Verified>, s: SensorId)
    ensures multiset(Of(ms, s)) + multiset(Except(ms, s)) == multiset(ms)
  {
    if ms != [] {
      SplitMultiset(ms[1..], s);
      var head, rest := ms[0], ms[1..];
      assert ms == [head] + rest;
      assert multiset(ms) == multiset{head} + multiset(rest);
      if head.sensor == s {
        assert Of(ms, s) == [head] + Of(rest, s) && Except(ms, s) == Except(rest, s);
      } else {
        assert Of(ms, s) == Of(rest, s) && Except(ms, s) == [head] + Except(rest, s);
      }
    }
  }

  lemma {:induction false} OfAppend(a: seq<Verified>, b: seq<Verified>, s: SensorId)
    ensures Of(a + b, s) == Of(a, s) + Of(b, s)
  {
    if a == [] {
      assert a + b == b;
    } else {
      assert (a + b)[1..] == a[1..] + b;
      OfAppend(a[1..], b, s);
    }
  }

  lemma {:induction false} OfSnoc(a: seq<Verified>, m: Verified, s: SensorId)
    ensures Of(a + [m], s) == if m.sensor == s then Of(a, s) + [m] else Of(a, s)
  {
    OfAppend(a, [m], s);
    assert [m][1..] == [];
  }

  lemma {:induction false} OfExcept(ms: seq<Verified>, s: SensorId, other: SensorId)
    ensures Of(Except(ms, s), other) == if other == s then [] else Of(ms, other)
  {
    if ms != [] {
      OfExcept(ms[1..], s, other);
      if ms[0].sensor != s {
        assert ([ms[0]] + Except(ms[1..], s))[1..] == Except(ms[1..], s);
      } else {
        assert Except(ms, s) == Except(ms[1..], s);
      }
    }
  }

  lemma {:induction false} OfOf(ms: seq<Verified>, s: SensorId, other: SensorId)
    ensures Of(Of(ms, s), other) == if other == s then Of(ms, s) else []
  {
    if ms != [] {
      OfOf(ms[1..], s, other);
      if ms[0].sensor == s {
        assert ([ms[0]] + Of(ms[1..], s))[1..] == Of(ms[1..], s);
      } else {
        assert Of(ms, s) == Of(ms[1..], s);
      }
    }
  }

  lemma {:induction false} SensorsExcept(ms: seq<Verified>, s: SensorId)
    ensures Sensors(Except(ms, s)) == Sensors(ms) - {s}
  {
    forall x ensures x in Sensors(Except(ms, s)) <==> x in Sensors(ms) - {s} {
      OfExcept(ms, s, x);
      SplitCount(Except(ms, s), x);
      SplitCount(ms, x);
    }
  }

  lemma {:induction false} SensorsSnoc(ms: seq<Verified>, m: Verified)
    ensures Sensors(ms + [m]) == Sensors(ms) + {m.sensor}
  {
    assert m in ms + [m];
  }

  /* ---------- steps of the scheduler ---------- */

  /** Parking: at once into a lookup if a slot is free, else at the end of the queue. */
  lemma {:induction false} ParkShape(l: Line, limits: Limits, m: Verified)
    requires Orderly(l, limits) && limits.maxConcurrent >= 1
    ensures var l' := Park(l, limits, m);
            && l'.waiting == l.waiting + [m]
            && (m.sensor in Sensors(l.waiting) ==> l'.running == l.running && l'.queued == l.queued)
            && (m.sensor !in Sensors(l.waiting) && |l.running| < limits.maxConcurrent ==>
                  l.queued == [] && l'.queued == [] && l'.running == l.running + {m.sensor})
            && (m.sensor !in Sensors(l.waiting) && |l.running| == limits.maxConcurrent ==>
                  l'.queued == l.queued + [m.sensor] && l'.running == l.running)
  {
    var x := Line(l.waiting + [m], l.running, l.queued + [m.sensor]);
    if |l.running| < limits.maxConcurrent {
      assert x.queued == [m.sensor];
      var y := Line(x.waiting, x.running + {m.sensor}, x.queued[1..]);
      assert Start(x, limits.maxConcurrent) == Start(y, limits.maxConcurrent) == y;
    }
  }

  /** Finishing: exactly the head of the queue starts, if there is one. */
  lemma {:induction false} FinishShape(l: Line, limits: Limits, s: SensorId)
    requires Orderly(l, limits) && s in l.running
    ensures var l' := Finish(l, limits, s);
            && l'.waiting == Except(l.waiting, s)
            && (l.queued == [] ==> l'.queued == [] && l'.running == l.running - {s})
            && (l.queued != [] ==> l'.queued == l.queued[1..] && l'.running == l.running - {s} + {l.queued[0]})
  {
    var x := Line(Except(l.waiting, s), l.running - {s}, l.queued);
    if l.queued != [] {
      var y := Line(x.waiting, x.running + {x.queued[0]}, x.queued[1..]);
      assert |y.running| == limits.maxConcurrent;
      assert Start(x, limits.maxConcurrent) == Start(y, limits.maxConcurrent) == y;
    }
  }

  lemma {:induction false} ParkKeeps(l: Line, limits: Limits, m: Verified)
    requires Orderly(l, limits) && limits.maxConcurrent >= 1 && |l.waiting| < limits.maxPending
    ensures Orderly(Park(l, limits, m), limits)
  {
    ParkShape(l, limits, m);
    SensorsSnoc(l.waiting, m);
    hide Park, Sensors;
    if m.sensor !in Sensors(l.waiting) && |l.running| == limits.maxConcurrent {
      assert Park(l, limits, m).queued == l.queued + [m.sensor];
    }
  }

  lemma {:induction false} FinishKeepsBounds(l: Line, limits: Limits, s: SensorId)
    requires Orderly(l, limits) && s in l.running
    ensures Bounded(Finish(l, limits, s), limits)
    ensures |Finish(l, limits, s).waiting| < |l.waiting|
  {
    hide Finish, Sensors, Of, Except, NoRepeats;
    FinishShape(l, limits, s);
    SplitCount(l.waiting, s);
    assert |l.running - {s}| == |l.running| - 1;
    if l.queued != [] {
      assert l.queued[0] in l.queued && l.queued[0] !in l.running - {s};
    }
  }

  lemma {:induction false} FinishKeepsPlaces(l: Line, limits: Limits, s: SensorId)
    requires Orderly(l, limits) && s in l.running
    ensures OnePlace(Finish(l, limits, s))
  {
    hide Finish, Sensors, Except, Bounded;
    FinishShape(l, limits, s);
    SensorsExcept(l.waiting, s);
    if l.queued != [] {
      assert l.queued == [l.queued[0]] + l.queued[1..];
      assert l.queued[0] !in l.queued[1..];
    }
  }

  lemma {:induction false} FinishKeeps(l: Line, limits: Limits, s: SensorId)
    requires Orderly(l, limits) && s in l.running
    ensures Orderly(Finish(l, limits, s), limits)
    ensures |Finish(l, limits, s).waiting| < |l.waiting|
  {
    FinishKeepsBounds(l, limits, s);
    FinishKeepsPlaces(l, limits, s);
    hide Finish, OnePlace, Bounded;
  }

  /** Whenever something waits, a lookup is running. */
  lemma {:induction false} BusyMeansRunning(l: Line, limits: Limits)
    requires Orderly(l, limits) && limits.maxConcurrent >= 1 && l.waiting != []
    ensures l.running != {}
  {
    assert l.waiting[0].sensor in Sensors(l.waiting);
  }

  /* ---------- whole runs ---------- */

  /** A message is offered (with what the policy knows without I/O), or a lookup ends. */
  datatype Event = Offered(m: Verified, known: Option<bool>) | Ended(sensor: SensorId)

  /**
   * What has happened: the messages taken over, in order; those parked; those that came back from
   * lookups; and all that were decided, at once or after a lookup.
   */
  datatype Trace = Trace(line: Line, taken: seq<Verified>, parked: seq<Verified>,
                         returned: seq<Verified>, decided: seq<Verified>)

  ghost function Happen(limits: Limits, t: Trace, e: Event): Trace {
    match e
    case Offered(m, Some(_)) => t.(taken := t.taken + [m], decided := t.decided + [m])
    case Offered(m, None) =>
      if |t.line.waiting| >= limits.maxPending then t
      else t.(line := Park(t.line, limits, m), taken := t.taken + [m], parked := t.parked + [m])
    case Ended(s) =>
      if s !in t.line.running then t
      else
        var back := Of(t.line.waiting, s);
        t.(line := Finish(t.line, limits, s), returned := t.returned + back, decided := t.decided + back)
  }

  ghost function From(limits: Limits, t: Trace, events: seq<Event>): Trace {
    if events == [] then t else Happen(limits, From(limits, t, events[..|events| - 1]), events[|events| - 1])
  }

  ghost function Empty(): Trace {
    Trace(Line([], {}, []), [], [], [], [])
  }

  ghost predicate AtLeastOne(limits: Limits) {
    limits.maxConcurrent >= 1 && limits.maxPending >= 1
  }

  lemma {:induction false} HappenKeeps(limits: Limits, t: Trace, e: Event)
    requires AtLeastOne(limits) && Orderly(t.line, limits)
    ensures Orderly(Happen(limits, t, e).line, limits)
  {
    hide Orderly, Park, Finish, Of;
    match e
    case Offered(m, Some(_)) =>
    case Offered(m, None) =>
      if |t.line.waiting| < limits.maxPending {
        ParkKeeps(t.line, limits, m);
      }
    case Ended(s) =>
      if s in t.line.running {
        FinishKeeps(t.line, limits, s);
      }
  }

  lemma {:induction false} RunKeeps(limits: Limits, t: Trace, events: seq<Event>)
    requires AtLeastOne(limits) && Orderly(t.line, limits)
    ensures Orderly(From(limits, t, events).line, limits)
  {
    hide Orderly, Happen;
    if events != [] {
      RunKeeps(limits, t, events[..|events| - 1]);
      HappenKeeps(limits, From(limits, t, events[..|events| - 1]), events[|events| - 1]);
    }
  }

  /** Every reachable stage is orderly, and busy only while a lookup is running. */
  lemma {:induction false} EveryRunOrderly(limits: Limits, events: seq<Event>)
    requires AtLeastOne(limits)
    ensures var l := From(limits, Empty(), events).line;
            Orderly(l, limits) && (l.waiting != [] ==> l.running != {})
  {
    RunKeeps(limits, Empty(), events);
    var l := From(limits, Empty(), events).line;
    if l.waiting != [] {
      BusyMeansRunning(l, limits);
    }
  }

  /** What was parked is what came back and what still waits, sensor by sensor and in order. */
  ghost predicate Conserved(t: Trace) {
    && multiset(t.parked) == multiset(t.returned) + multiset(t.line.waiting)
    && forall s :: Of(t.parked, s) == Of(t.returned, s) + Of(t.line.waiting, s)
  }

  lemma {:induction false} ParkConserves(limits: Limits, t: Trace, m: Verified)
    requires AtLeastOne(limits) && Orderly(t.line, limits) && Conserved(t)
    ensures Conserved(t.(line := Park(t.line, limits, m), parked := t.parked + [m]))
  {
    hide Park, Of, Orderly, Sensors;
    ParkShape(t.line, limits, m);
    assert multiset(t.parked + [m]) == multiset(t.returned) + multiset(t.line.waiting + [m]);
    forall s ensures Of(t.parked + [m], s) == Of(t.returned, s) + Of(t.line.waiting + [m], s) {
      OfSnoc(t.parked, m, s);
      OfSnoc(t.line.waiting, m, s);
    }
  }

  lemma {:induction false} FinishConserves(limits: Limits, t: Trace, s: SensorId)
    requires Orderly(t.line, limits) && Conserved(t) && s in t.line.running
    ensures Conserved(t.(line := Finish(t.line, limits, s), returned := t.returned + Of(t.line.waiting, s)))
  {
    hide Finish, Of, Except, Orderly, Sensors;
    FinishShape(t.line, limits, s);
    SplitMultiset(t.line.waiting, s);
    var back, rest := Of(t.line.waiting, s), Except(t.line.waiting, s);
    forall x ensures Of(t.parked, x) == Of(t.returned + back, x) + Of(rest, x) {
      OfAppend(t.returned, back, x);
      OfOf(t.line.waiting, s, x);
      OfExcept(t.line.waiting, s, x);
    }
  }

  /**
   * Over every run each parked message comes back exactly once or still waits, and those of one
   * sensor come back in the order they were parked.
   */
  lemma {:induction false} ParkedComeBackInOrder(limits: Limits, events: seq<Event>)
    requires AtLeastOne(limits)
    ensures Conserved(From(limits, Empty(), events))
  {
    hide Orderly, Conserved, Park, Finish, Of;
    if events == [] {
      NothingConserved();
    } else {
      var front, e := events[..|events| - 1], events[|events| - 1];
      ParkedComeBackInOrder(limits, front);
      EveryRunOrderly(limits, front);
      var t := From(limits, Empty(), front);
      match e
      case Offered(m, Some(_)) =>
        ConservedSame(t, Happen(limits, t, e));
      case Offered(m, None) =>
        if |t.line.waiting| < limits.maxPending {
          ParkConserves(limits, t, m);
          ConservedSame(t.(line := Park(t.line, limits, m), parked := t.parked + [m]), Happen(limits, t, e));
        }
      case Ended(s) =>
        if s in t.line.running {
          FinishConserves(limits, t, s);
          ConservedSame(t.(line := Finish(t.line, limits, s), returned := t.returned + Of(t.line.waiting, s)),
                        Happen(limits, t, e));
        }
    }
  }

  lemma {:induction false} NothingConserved()
    ensures Conserved(Empty())
  {
  }

  lemma {:induction false} ConservedSame(a: Trace, b: Trace)
    requires Conserved(a) && a.line == b.line && a.parked == b.parked && a.returned == b.returned
    ensures Conserved(b)
  {
  }

  /* ---------- how long a queued sensor waits ---------- */

  /** How many lookups ended in the run. */
  ghost function Endings(limits: Limits, t: Trace, events: seq<Event>): nat {
    if events == [] then 0
    else
      var front, e := events[..|events| - 1], events[|events| - 1];
      Endings(limits, t, front) + if e.Ended? && e.sensor in From(limits, t, front).line.running then 1 else 0
  }

  /** An offer leaves the queue as it is, or lengthens it at the end, while it is not empty. */
  lemma {:induction false} OfferKeepsQueue(limits: Limits, t: Trace, m: Verified, known: Option<bool>)
    requires AtLeastOne(limits) && Orderly(t.line, limits) && t.line.queued != []
    ensures var l := Happen(limits, t, Offered(m, known)).line;
            t.line.queued <= l.queued && l.running == t.line.running
  {
    ParkShape(t.line, limits, m);
    hide Park, Sensors;
  }

  /**
   * A sensor at index `i` of the queue moves up one place with every ended lookup and starts its
   * own with the one numbered `i + 1`, whatever else is offered in between.
   */
  lemma {:induction false} StartsInTurn(limits: Limits, t: Trace, events: seq<Event>, i: nat)
    requires AtLeastOne(limits) && Orderly(t.line, limits) && i < |t.line.queued|
    ensures var k := Endings(limits, t, events);
            var l := From(limits, t, events).line;
            k <= i ==> i - k < |l.queued| && l.queued[i - k] == t.line.queued[i] && t.line.queued[i] !in l.running
    ensures events != [] ==>
              var front := events[..|events| - 1];
              Endings(limits, t, front) == i && Endings(limits, t, events) == i + 1 ==>
                t.line.queued[i] in From(limits, t, events).line.running
  {
    hide Happen, Bounded;
    if events != [] {
      var front, e := events[..|events| - 1], events[|events| - 1];
      StartsInTurn(limits, t, front, i);
      RunKeeps(limits, t, front);
      RunKeeps(limits, t, events);
      var b := From(limits, t, front);
      if Endings(limits, t, front) <= i {
        match e
        case Offered(m, known) => OfferKeepsQueue(limits, b, m, known);
        case Ended(s) => EndMovesQueue(limits, b, s);
      }
    }
  }

  lemma {:induction false} EndMovesQueue(limits: Limits, t: Trace, s: SensorId)
    requires Orderly(t.line, limits) && t.line.queued != []
    ensures var l := Happen(limits, t, Ended(s)).line;
            if s in t.line.running then l.queued == t.line.queued[1..] && t.line.queued[0] in l.running else l == t.line
  {
    if s in t.line.running {
      FinishShape(t.line, limits, s);
    }
    hide Finish;
  }

  /* ---------- overtaking ---------- */

  /** The sensor's messages are decided in the order in which they were taken over. */
  ghost predicate InOrder(t: Trace, s: SensorId) {
    Of(t.taken, s) == Of(t.decided, s) + Of(t.line.waiting, s)
  }

  /** Some decision on the sensor's messages came out of turn. */
  ghost predicate OutOfTurn(t: Trace, s: SensorId) {
    var taken, decided := Of(t.taken, s), Of(t.decided, s);
    exists i | 0 <= i < |decided| :: i < |taken| && decided[i] != taken[i]
  }

  ghost predicate AllDistinct(ms: seq<Verified>) {
    forall i, j | 0 <= i < j < |ms| :: ms[i] != ms[j]
  }

  /** A message whose decision is known is offered while others of its sensor wait. */
  ghost predicate Jumps(t: Trace, e: Event, s: SensorId) {
    e.Offered? && e.known.Some? && e.m.sensor == s && s in Sensors(t.line.waiting)
  }

  lemma {:induction false} OfSubset(ms: seq<Verified>, s: SensorId)
    ensures forall m | m in Of(ms, s) :: m in ms
  {
    if ms != [] {
      OfSubset(ms[1..], s);
      assert ms == [ms[0]] + ms[1..];
    }
  }

  /** The property in question is lost for good once a decision came out of turn. */
  lemma {:induction false} OutOfTurnIsNotInOrder(t: Trace, s: SensorId)
    requires OutOfTurn(t, s)
    ensures !InOrder(t, s)
  {
  }

  /** Logs only grow. */
  lemma {:induction false} LogsGrow(limits: Limits, t: Trace, e: Event)
    ensures t.taken <= Happen(limits, t, e).taken && t.decided <= Happen(limits, t, e).decided
  {
  }

  lemma {:induction false} StaysOutOfTurn(limits: Limits, t: Trace, e: Event, s: SensorId)
    requires OutOfTurn(t, s)
    ensures OutOfTurn(Happen(limits, t, e), s)
  {
    LogsGrow(limits, t, e);
    var t' := Happen(limits, t, e);
    hide Happen, Of;
    assert t'.taken == t.taken + t'.taken[|t.taken|..];
    assert t'.decided == t.decided + t'.decided[|t.decided|..];
    OfAppend(t.taken, t'.taken[|t.taken|..], s);
    OfAppend(t.decided, t'.decided[|t.decided|..], s);
    var i :| 0 <= i < |Of(t.decided, s)| && i < |Of(t.taken, s)| && Of(t.decided, s)[i] != Of(t.taken, s)[i];
    assert Of(t'.decided, s)[i] != Of(t'.taken, s)[i];
  }

  lemma {:induction false} JumpIsOutOfTurn(limits: Limits, t: Trace, e: Event, s: SensorId)
    requires InOrder(t, s) && Jumps(t, e, s) && AllDistinct(t.taken + [e.m])
    ensures OutOfTurn(Happen(limits, t, e), s)
  {
    var m := e.m;
    var t' := Happen(limits, t, e);
    assert t'.taken == t.taken + [m] && t'.decided == t.decided + [m];
    OfSnoc(t.taken, m, s);
    OfSnoc(t.decided, m, s);
    SplitCount(t.line.waiting, s);
    OfSubset(t.taken, s);
    hide Of, Happen, Sensors;
    forall k | 0 <= k < |t.taken| ensures t.taken[k] != m {
      assert (t.taken + [m])[k] != (t.taken + [m])[|t.taken|];
    }
    assert m !in t.taken;
    var i := |Of(t.decided, s)|;
    assert Of(t'.decided, s)[i] == m;
    assert Of(t'.taken, s)[i] == Of(t.taken, s)[i];
  }

  lemma {:induction false} TurnKeepsOrder(limits: Limits, t: Trace, e: Event, s: SensorId)
    requires AtLeastOne(limits) && Orderly(t.line, limits) && InOrder(t, s) && !Jumps(t, e, s)
    ensures InOrder(Happen(limits, t, e), s)
  {
    hide Orderly, Park, Finish, Of, Sensors;
    match e
    case Offered(m, known) =>
      OfSnoc(t.taken, m, s);
      OfSnoc(t.decided, m, s);
      OfSnoc(t.line.waiting, m, s);
      ParkShape(t.line, limits, m);
      SplitCount(t.line.waiting, s);
    case Ended(x) =>
      if x in t.line.running {
        FinishShape(t.line, limits, x);
        OfAppend(t.decided, Of(t.line.waiting, x), s);
        OfOf(t.line.waiting, x, s);
        OfExcept(t.line.waiting, x, s);
      }
  }

  ghost predicate NeverJumps(limits: Limits, events: seq<Event>, s: SensorId) {
    forall k | 0 <= k < |events| :: !Jumps(From(limits, Empty(), events[..k]), events[k], s)
  }

  lemma {:induction false} NeverJumpsSnoc(limits: Limits, events: seq<Event>, s: SensorId)
    requires events != []
    ensures var front := events[..|events| - 1];
            NeverJumps(limits, events, s) <==>
            NeverJumps(limits, front, s) && !Jumps(From(limits, Empty(), front), events[|events| - 1], s)
  {
    hide Jumps, From;
    var front := events[..|events| - 1];
    assert forall k | 0 <= k < |front| :: events[..k] == front[..k] && events[k] == front[k];
    if NeverJumps(limits, front, s) && !Jumps(From(limits, Empty(), front), events[|events| - 1], s) {
      forall k | 0 <= k < |events| ensures !Jumps(From(limits, Empty(), events[..k]), events[k], s) {
        if k < |front| {
          assert !Jumps(From(limits, Empty(), front[..k]), front[k], s);
        }
      }
    }
    if NeverJumps(limits, events, s) {
      forall k | 0 <= k < |front| ensures !Jumps(From(limits, Empty(), front[..k]), front[k], s) {
        assert !Jumps(From(limits, Empty(), events[..k]), events[k], s);
      }
    }
  }

  lemma {:induction false} OrderOrOutOfTurn(limits: Limits, events: seq<Event>, s: SensorId)
    requires AtLeastOne(limits) && AllDistinct(From(limits, Empty(), events).taken)
    ensures var t := From(limits, Empty(), events);
            if NeverJumps(limits, events, s) then InOrder(t, s) else OutOfTurn(t, s)
  {
    hide InOrder, OutOfTurn, Jumps, Orderly;
    if events == [] {
      assert InOrder(Empty(), s) by { NothingInOrder(s); }
    } else {
      var front, e := events[..|events| - 1], events[|events| - 1];
      var t := From(limits, Empty(), front);
      LogsGrow(limits, t, e);
      OrderOrOutOfTurn(limits, front, s);
      NeverJumpsSnoc(limits, events, s);
      EveryRunOrderly(limits, front);
      OrderStep(limits, t, e, s, NeverJumps(limits, front, s));
    }
  }

  lemma {:induction false} OrderStep(limits: Limits, t: Trace, e: Event, s: SensorId, sofar: bool)
    requires AtLeastOne(limits) && Orderly(t.line, limits) && AllDistinct(Happen(limits, t, e).taken)
    requires if sofar then InOrder(t, s) else OutOfTurn(t, s)
    ensures if sofar && !Jumps(t, e, s) then InOrder(Happen(limits, t, e), s) else OutOfTurn(Happen(limits, t, e), s)
  {
    hide InOrder, OutOfTurn, Orderly, Sensors;
    if !sofar {
      StaysOutOfTurn(limits, t, e, s);
    } else if Jumps(t, e, s) {
      JumpIsOutOfTurn(limits, t, e, s);
    } else {
      TurnKeepsOrder(limits, t, e, s);
    }
  }

  lemma {:induction false} NothingInOrder(s: SensorId)
    ensures InOrder(Empty(), s)
  {
  }

  /**
   * The messages of a sensor are decided in arrival order exactly if none of them is offered
   * with a known decision while others of that sensor are parked.
   */
  lemma {:induction false} InOrderExactly(limits: Limits, events: seq<Event>, s: SensorId)
    requires AtLeastOne(limits) && AllDistinct(From(limits, Empty(), events).taken)
    ensures InOrder(From(limits, Empty(), events), s) <==> NeverJumps(limits, events, s)
  {
    OrderOrOutOfTurn(limits, events, s);
    hide From, NeverJumps, InOrder, OutOfTurn;
    if !NeverJumps(limits, events, s) {
      OutOfTurnIsNotInOrder(From(limits, Empty(), events), s);
    }
  }

  /** It does happen: the second message of a sensor is decided while the first still waits. */
  lemma {:induction false} Overtaken(limits: Limits, a: Verified, b: Verified)
    requires AtLeastOne(limits) && a.sensor == b.sensor && a != b
    ensures var t := From(limits, Empty(), [Offered(a, None), Offered(b, Some(true))]);
            t.taken == [a, b] && t.decided == [b] && t.line.waiting == [a]
  {
    var events := [Offered(a, None), Offered(b, Some(true))];
    assert events[..1] == [Offered(a, None)] && events[..1][..0] == [];
    var one := From(limits, Empty(), events[..1]);
    assert From(limits, Empty(), []) == Empty();
    assert one == Happen(limits, Empty(), Offered(a, None));
    ParkShape(Empty().line, limits, a);
    assert From(limits, Empty(), events) == Happen(limits, one, events[1]);
  }

  /* ---------- the counters of the stage ---------- */

  /** The sum of the lengths of the parked lists. */
  ghost function Total(parked: map<SensorId, seq<Verified>>): nat {
    if parked == map[] then 0
    else
      var s :| s in parked;
      |parked[s]| + Total(parked - {s})
  }

  ghost predicate Groups(parked: map<SensorId, seq<Verified>>, waiting: seq<Verified>) {
    && parked.Keys == Sensors(waiting)
    && forall s | s in parked :: parked[s] == Of(waiting, s) && parked[s] != []
  }

  lemma {:induction false} GroupsTotal(parked: map<SensorId, seq<Verified>>, waiting: seq<Verified>)
    requires Groups(parked, waiting)
    ensures Total(parked) == |waiting|
    decreases |waiting|
  {
    hide Of, Except, Sensors;
    if parked == map[] {
      if waiting != [] {
        SplitCount(waiting, waiting[0].sensor);
        OfOneself(waiting);
      }
    } else {
      var s :| s in parked && Total(parked) == |parked[s]| + Total(parked - {s});
      SplitCount(waiting, s);
      RemoveGroup(parked, waiting, s);
      GroupsTotal(parked - {s}, Except(waiting, s));
    }
  }

  lemma {:induction false} OfOneself(ms: seq<Verified>)
    requires ms != []
    ensures ms[0].sensor in Sensors(ms)
  {
  }

  lemma {:induction false} RemoveGroup(parked: map<SensorId, seq<Verified>>, waiting: seq<Verified>, s: SensorId)
    requires Groups(parked, waiting)
    ensures Groups(parked - {s}, Except(waiting, s))
  {
    SensorsExcept(waiting, s);
    hide Of, Except, Sensors;
    forall x | x in parked - {s} ensures (parked - {s})[x] == Of(Except(waiting, s), x) {
      OfExcept(waiting, s, x);
    }
  }

  lemma {:induction false} AddToGroup(parked: map<SensorId, seq<Verified>>, waiting: seq<Verified>, m: Verified)
    requires Groups(parked, waiting)
    ensures var list := (if m.sensor in parked then parked[m.sensor] else []) + [m];
            Groups(parked[m.sensor := list], waiting + [m])
  {
    SensorsSnoc(waiting, m);
    SplitCount(waiting, m.sensor);
    hide Of, Sensors;
    var list := (if m.sensor in parked then parked[m.sensor] else []) + [m];
    forall s | s in parked[m.sensor := list] ensures parked[m.sensor := list][s] == Of(waiting + [m], s) {
      OfSnoc(waiting, m, s);
    }
  }

  /** Every running task decides another sensor. */
  ghost predicate OneTaskEach(running: map<TaskId, SensorId>) {
    forall a, b | a in running && b in running && a != b :: running[a] != running[b]
  }

  lemma {:induction false} OneTaskEachCount(running: map<TaskId, SensorId>)
    requires OneTaskEach(running)
    ensures |running.Values| == |running|
    decreases |running|
  {
    if running != map[] {
      var a :| a in running;
      var rest := running - {a};
      OneTaskEachCount(rest);
      RemoveTask(running, a);
      assert running.Values == rest.Values + {running[a]};
      assert running.Keys == rest.Keys + {a};
    }
  }

  lemma {:induction false} RemoveTask(running: map<TaskId, SensorId>, a: TaskId)
    requires OneTaskEach(running) && a in running
    ensures OneTaskEach(running - {a}) && (running - {a}).Values == running.Values - {running[a]}
  {
    var rest := running - {a};
    forall s | s in running.Values - {running[a]} ensures s in rest.Values {
      var b :| b in running && running[b] == s;
      assert rest[b] == s;
    }
  }

  lemma {:induction false} AddTask(running: map<TaskId, SensorId>, a: TaskId, s: SensorId)
    requires OneTaskEach(running) && a !in running && s !in running.Values
    ensures OneTaskEach(running[a := s]) && running[a := s].Values == running.Values + {s}
  {
    forall x | x in running.Values ensures x in running[a := s].Values {
      var b :| b in running && running[b] == x;
      assert running[a := s][b] == x;
    }
    assert running[a := s][a] == s;
  }

  /* ---------- the stage ---------- */

  type TaskId = nat

  /** A finished task: what the policy answered, or that the task panicked. */
  datatype Finished = Finished(task: TaskId, answer: Option<Result<bool, LookupError>>)

  /** A panicked task counts as a failed lookup. */
  function Answer(f: Finished): Result<bool, LookupError> {
    if f.answer.Some? then f.answer.value else Err(TaskFailed)
  }

  /** The queue names each sensor once, and none that is running. */
  ghost predicate Apart(queued: seq<SensorId>, running: set<SensorId>) {
    NoRepeats(queued) && forall s | s in queued :: s !in running
  }

  lemma {:induction false} ApartNext(queued: seq<SensorId>, running: set<SensorId>)
    requires queued != [] && Apart(queued, running)
    ensures queued[0] !in running && Apart(queued[1..], running + {queued[0]})
  {
  }

  lemma {:induction false} FromSnoc(limits: Limits, past: seq<Event>, e: Event)
    ensures From(limits, Empty(), past + [e]) == Happen(limits, From(limits, Empty(), past), e)
  {
    assert (past + [e])[..|past|] == past;
  }

  lemma {:induction false} ParkIs(l: Line, limits: Limits, m: Verified)
    ensures Park(l, limits, m) ==
            if m.sensor in Sensors(l.waiting) then Line(l.waiting + [m], l.running, l.queued)
            else Start(Line(l.waiting + [m], l.running, l.queued + [m.sensor]), limits.maxConcurrent)
  {
  }

  lemma {:induction false} StartNext(l: Line, max: nat)
    requires |l.running| < max && l.queued != []
    ensures Start(l, max) == Start(Line(l.waiting, l.running + {l.queued[0]}, l.queued[1..]), max)
  {
  }

  lemma {:induction false} StartDone(l: Line, max: nat)
    requires |l.running| >= max || l.queued == []
    ensures Start(l, max) == l
  {
  }

  lemma {:induction false} GroupKeys(parked: map<SensorId, seq<Verified>>, waiting: seq<Verified>)
    requires Groups(parked, waiting)
    ensures parked.Keys == Sensors(waiting)
  {
  }

  lemma {:induction false} WithinLimit(l: Line, limits: Limits)
    requires Orderly(l, limits)
    ensures |l.waiting| <= limits.maxPending
  {
  }

  lemma {:induction false} QueueStaysApart(l: Line, limits: Limits, m: Verified)
    requires Orderly(l, limits) && m.sensor !in Sensors(l.waiting)
    ensures Apart(l.queued + [m.sensor], l.running)
  {
    hide Sensors;
  }

  lemma {:induction false} FinishFacts(l: Line, limits: Limits, s: SensorId, parked: map<SensorId, seq<Verified>>)
    requires Orderly(l, limits) && s in l.running && Groups(parked, l.waiting)
    ensures Apart(l.queued, l.running - {s})
    ensures s in parked && parked[s] == Of(l.waiting, s) && parked[s] != []
  {
    hide Sensors, Of;
  }

  /** The tables agree with each other and with the waiting list. */
  ghost predicate TablesAgree(limits: Limits, parked: map<SensorId, seq<Verified>>, running: map<TaskId, SensorId>,
                              runningIds: map<TaskId, SensorId>, pending: nat, nextTask: TaskId, waiting: seq<Verified>)
    {
    && AtLeastOne(limits)
    && Groups(parked, waiting) && pending == |waiting|
    && runningIds == running && OneTaskEach(running)
    && (forall t | t in running :: t < nextTask)
  }

  /** The tables agree, and the stage is the orderly scheduler that its past leads to. */
  ghost predicate StageOk(st: Stage)
    reads st
  {
    && TablesAgree(st.limits, st.parked, st.running, st.runningIds, st.pending, st.nextTask, st.waiting)
    && Orderly(st.View(), st.limits) && st.View() == From(st.limits, Empty(), st.past).line
  }

  class Stage {
    const limits: Limits
    var parked: map<SensorId, seq<Verified>>
    var queued: seq<SensorId>
    /** The running tasks and the sensor each decides, and the stage's own record of them. */
    var running: map<TaskId, SensorId>
    var runningIds: map<TaskId, SensorId>
    var pending: nat
    var nextTask: TaskId
    /** Parked messages in arrival order, and what happened since the stage was created. */
    ghost var waiting: seq<Verified>
    ghost var past: seq<Event>

    ghost function View(): Line
      reads this
    {
      Line(waiting, running.Values, queued)
    }

    /** What came back from lookups so far. */
    ghost function Returned(): seq<Verified>
      reads this
    {
      From(limits, Empty(), past).returned
    }

    /** What was decided so far, at once or by a lookup, in order. */
    ghost function DecidedSoFar(): seq<Verified>
      reads this
    {
      From(limits, Empty(), past).decided
    }

    ghost predicate Agrees()
      reads this
    {
      TablesAgree(limits, parked, running, runningIds, pending, nextTask, waiting)
    }

    ghost predicate Valid()
      reads this
    {
      StageOk(this)
    }

    constructor (limits: Limits)
      ensures Valid() && waiting == [] && past == []
      ensures this.limits == Limits(if limits.maxConcurrent < 1 then 1 else limits.maxConcurrent,
                                    if limits.maxPending < 1 then 1 else limits.maxPending)
    {
      this.limits := Limits(if limits.maxConcurrent < 1 then 1 else limits.maxConcurrent,
                            if limits.maxPending < 1 then 1 else limits.maxPending);
      parked, queued, running, runningIds, pending, nextTask := map[], [], map[], map[], 0, 0;
      waiting, past := [], [];
    }

    lemma {:induction false} LimitsPositive()
      requires Valid()
      ensures AtLeastOne(limits)
    {
    }

    method IsBusy() returns (busy: bool)
      requires Valid()
      ensures busy <==> waiting != []
      ensures busy ==> running != map[]
    {
      busy := pending > 0;
      if busy {
        BusyMeansRunning(View(), limits);
      }
    }

    /** The counter is the number of messages in the table, and what the fields promise each other. */
    lemma {:induction false} Counts()
      requires Valid()
      ensures pending == Total(parked) <= limits.maxPending
      ensures |running| <= limits.maxConcurrent && (queued != [] ==> |running| == limits.maxConcurrent)
      ensures NoRepeats(queued) && (forall s | s in queued :: s !in running.Values)
      ensures parked.Keys == (set s | s in queued) + running.Values
      ensures forall s | s in parked :: parked[s] != []
    {
      hide Of, Sensors, Total, OneTaskEach, From, Happen;
      GroupsTotal(parked, waiting);
      OneTaskEachCount(running);
      assert forall s :: s in Sensors(waiting) <==> s in queued || s in running.Values;
    }

    /** Decide at once if the policy already knows, otherwise park the message or hand it back. */
    method Admit(message: Verified, known: Option<bool>) returns (r: Admission)
      requires Valid()
      modifies this
      ensures Valid() && past == old(past) + [Offered(message, known)] && Returned() == old(Returned())
      ensures DecidedSoFar() == old(DecidedSoFar()) + if known.Some? then [message] else []
      ensures known.Some? ==> r == Decided(known.value, message)
      ensures known.None? && |old(waiting)| >= limits.maxPending ==> r == Overflow(message)
      ensures known.None? && |old(waiting)| < limits.maxPending ==>
                r == Parked && View() == Park(old(View()), limits, message)
      ensures r.Parked? ==> waiting == old(waiting) + [message]
      ensures r.Overflow? ==> |waiting| == limits.maxPending
      ensures !r.Parked? ==> View() == old(View()) && running == old(running)
      ensures forall t | t in old(running) :: t in running && running[t] == old(running)[t]
    {
      hide Groups, Orderly, Park, Start, Sensors, OneTaskEach, Apart, From;
      FromSnoc(limits, past, Offered(message, known));
      past := past + [Offered(message, known)];
      if known.Some? {
        return Decided(known.value, message);
      }
      if pending >= limits.maxPending {
        WithinLimit(View(), limits);
        return Overflow(message);
      }
      ghost var line := View();
      ParkKeeps(line, limits, message);
      AddToGroup(parked, waiting, message);
      GroupKeys(parked, waiting);
      ParkIs(line, limits, message);
      pending := pending + 1;
      waiting := waiting + [message];
      if message.sensor in parked {
        parked := parked[message.sensor := parked[message.sensor] + [message]];
      } else {
        assert [] + [message] == [message];
        parked := parked[message.sensor := [message]];
        queued := queued + [message.sensor];
        QueueStaysApart(line, limits, message);
        StartQueued();
      }
      r := Parked;
    }

    /**
     * The next finished lookup, with all the messages that waited for it. Nothing comes back
     * only if nothing is running.
     */
    method NextResolution(finished: Option<Finished>) returns (r: Option<Resolution>)
      requires Valid()
      requires if finished.Some? then finished.value.task in running else running == map[]
      modifies this
      ensures Valid()
      ensures finished.None? ==> r.None? && View() == old(View()) && past == old(past) && Returned() == old(Returned())
      ensures finished.Some? ==>
                var s := old(running)[finished.value.task];
                && View() == Finish(old(View()), limits, s) && past == old(past) + [Ended(s)]
                && Returned() == old(Returned()) + Of(old(waiting), s)
                && DecidedSoFar() == old(DecidedSoFar()) + Of(old(waiting), s)
                && r == Some(Resolution(s, Answer(finished.value), Of(old(waiting), s)))
                && Of(old(waiting), s) != [] && |waiting| < |old(waiting)| && waiting == Except(old(waiting), s)
                && forall t | t in old(running) && t != finished.value.task ::
                     t in running && running[t] == old(running)[t]
    {
      hide Groups, Orderly, Start, Sensors, Of, Except, OneTaskEach, Apart, From;
      if finished.None? {
        return None;
      }
      var task := finished.value.task;
      ghost var line := View();
      var sensor := if finished.value.answer.Some? then running[task] else runningIds[task];
      FromSnoc(limits, past, Ended(sensor));
      past := past + [Ended(sensor)];
      RemoveTask(running, task);
      running, runningIds := running - {task}, runningIds - {task};
      FinishKeeps(line, limits, sensor);
      FinishFacts(line, limits, sensor, parked);
      RemoveGroup(parked, waiting, sensor);
      SplitCount(waiting, sensor);
      var messages := if sensor in parked then parked[sensor] else [];
      parked := parked - {sensor};
      pending := pending - |messages|;
      waiting := Except(waiting, sensor);
      StartQueued();
      r := Some(Resolution(sensor, Answer(finished.value), messages));
    }

    /** Spawn lookups from the head of the queue until it is empty or all slots are taken. */
    method StartQueued()
      requires Agrees() && Apart(queued, running.Values)
      modifies `queued, `running, `runningIds, `nextTask
      ensures Agrees() && View() == Start(old(View()), limits.maxConcurrent)
      ensures forall t | t in old(running) :: t in running && running[t] == old(running)[t]
    {
      hide Groups, OneTaskEach, Apart, Start;
      while |running| < limits.maxConcurrent && queued != []
        invariant Agrees() && Apart(queued, running.Values)
        invariant forall t | t in old(running) :: t in running && running[t] == old(running)[t]
        invariant Start(View(), limits.maxConcurrent) == Start(old(View()), limits.maxConcurrent)
        decreases |queued|
      {
        OneTaskEachCount(running);
        StartNext(View(), limits.maxConcurrent);
        StartOne();
      }
      OneTaskEachCount(running);
      StartDone(View(), limits.maxConcurrent);
    }

    /** Spawn the lookup of the sensor at the head of the queue. */
    method StartOne()
      requires Agrees() && Apart(queued, running.Values) && queued != []
      modifies `queued, `running, `runningIds, `nextTask
      ensures Agrees() && Apart(queued, running.Values)
      ensures View() == Line(waiting, old(running).Values + {old(queued)[0]}, old(queued)[1..])
      ensures forall t | t in old(running) :: t in running && running[t] == old(running)[t]
    {
      hide Groups, OneTaskEach, Apart;
      ApartNext(queued, running.Values);
      AddTask(running, nextTask, queued[0]);
      running, runningIds := running[nextTask := queued[0]], runningIds[nextTask := queued[0]];
      queued, nextTask := queued[1..], nextTask + 1;
    }
  }
}
