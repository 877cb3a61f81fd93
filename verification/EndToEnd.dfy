/**
 * The whole gateway as one transition system: the policy decides, the pipeline hands messages to
 * the durable sink, and the durable path of `Gateway` goes on meanwhile, crashes and restarts
 * included. `Backend` and `Pipeline` show that the code moves in these steps only.
 */
module EndToEnd {
  import opened Prelude
  import opened Wire
  import opened Queues
  import opened Packing
  import opened Planning
  import opened Encoding
  import G = Gateway
  import opened Durability
  import C = CpsAuth
  import opened AuthStage
  import D = Dedup

  /** A verified, authorized and new message on its way to the sinks. */
  datatype Accepted = Accepted(message: Ingress, sensor: SensorId, id: D.EnvelopeId)

  /** A lookup is remembered, the durable sink stores a message, or the durable path takes a step. */
  datatype Act = Deciding(d: C.Decision) | Storing(a: Accepted) | Elsewhere(g: G.Action)

  /** The durable path, all decisions so far, and all messages stored so far, in order. */
  datatype Whole = Whole(world: G.World, decisions: seq<C.Decision>, stored: seq<Accepted>)

  /** The world outside: whose signature a message carries, and which readings of the chain really happened. */
  datatype Outside = Outside(verify: Ingress -> Option<SensorId>, pinned: C.Chain -> bool)

  /** Signed by its sensor, which a lookup found below the root. */
  ghost predicate Backed(verify: Ingress -> Option<SensorId>, decisions: seq<C.Decision>, a: Accepted) {
    verify(a.message) == Some(a.sensor) && C.Rests(decisions, a.sensor, true)
  }

  /**
   * One step. Nothing is decided without the chain, nothing stored without a signature and a
   * decision, and nothing pushed but what is stored.
   */
  ghost function Move(f: Format, o: Outside, s: Whole, act: Act): Whole {
    match act
    case Deciding(d) => if C.Grounded(d) && o.pinned(d.chain) then s.(decisions := s.decisions + [d]) else s
    case Storing(a) =>
      if s.world.session.None? || !Backed(o.verify, s.decisions, a) then s
      else s.(world := G.Step(f, s.world, PushOf(a)), stored := s.stored + [a])
    case Elsewhere(g) => if g.Pushing? then s else s.(world := G.Step(f, s.world, g))
  }

  ghost function PushOf(a: Accepted): G.Action {
    G.Pushing(a.message.receivedAt, a.message.raw)
  }

  ghost function After(f: Format, o: Outside, acts: seq<Act>): Whole {
    if acts == [] then Whole(G.INITIAL, [], [])
    else Move(f, o, After(f, o, acts[..|acts| - 1]), acts[|acts| - 1])
  }

  lemma {:induction false} AfterSnoc(f: Format, o: Outside, acts: seq<Act>, act: Act)
    ensures After(f, o, acts + [act]) == Move(f, o, After(f, o, acts), act)
  {
    assert (acts + [act])[..|acts|] == acts;
  }

  /* ---------- every whole run contains a run of the durable path ---------- */

  ghost function Project(f: Format, o: Outside, acts: seq<Act>): seq<G.Action> {
    if acts == [] then []
    else
      var front := acts[..|acts| - 1];
      Project(f, o, front) + StepsOf(o, After(f, o, front), acts[|acts| - 1])
  }

  ghost function StepsOf(o: Outside, s: Whole, act: Act): seq<G.Action> {
    match act
    case Deciding(_) => []
    case Storing(a) => if s.world.session.None? || !Backed(o.verify, s.decisions, a) then [] else [PushOf(a)]
    case Elsewhere(g) => if g.Pushing? then [] else [g]
  }

  lemma {:induction false} WorldIsReached(f: Format, o: Outside, acts: seq<Act>)
    ensures After(f, o, acts).world == Reach(f, Project(f, o, acts))
  {
    hide G.Step, Backed, C.Grounded;
    if acts != [] {
      var front, act := acts[..|acts| - 1], acts[|acts| - 1];
      WorldIsReached(f, o, front);
      var gs, more := Project(f, o, front), StepsOf(o, After(f, o, front), act);
      if more == [] {
        assert gs + more == gs;
      } else {
        assert (gs + more)[..|gs + more| - 1] == gs;
      }
    }
  }

  /* ---------- what every whole run keeps ---------- */

  /** Message number `i` of the durable path is the `i`-th stored message, bytes and time of receipt included. */
  ghost predicate PushedIsStored(pushed: seq<Message>, stored: seq<Accepted>) {
    && |pushed| == |stored|
    && forall i | 0 <= i < |pushed| :: pushed[i] == Message(i, stored[i].message.receivedAt, stored[i].message.raw)
  }

  ghost predicate WholeOk(o: Outside, s: Whole) {
    && (forall d | d in s.decisions :: C.Grounded(d) && o.pinned(d.chain))
    && (forall a | a in s.stored :: Backed(o.verify, s.decisions, a))
    && PushedIsStored(s.world.pushed, s.stored)
  }

  lemma {:induction false} BackedLater(verify: Ingress -> Option<SensorId>, before: seq<C.Decision>, d: C.Decision,
                                       a: Accepted)
    requires Backed(verify, before, a)
    ensures Backed(verify, before + [d], a)
  {
    var x :| x in before && x.key == a.sensor && x.allowed;
    assert x in before + [d];
  }

  /** Only a push adds to the pushed messages. */
  lemma {:induction false} OnlyPushPushes(f: Format, w: G.World, g: G.Action)
    requires !g.Pushing?
    ensures G.Step(f, w, g).pushed == w.pushed
  {
  }

  lemma {:induction false} PushAppends(f: Format, w: G.World, a: Accepted)
    requires w.session.Some? && w.store.nextSequence == |w.pushed|
    ensures G.Step(f, w, PushOf(a)).pushed == w.pushed + [Message(|w.pushed|, a.message.receivedAt, a.message.raw)]
  {
  }

  lemma {:induction false} NumbersFollow(f: Format, gs: seq<G.Action>)
    ensures Reach(f, gs).store.nextSequence == |Reach(f, gs).pushed|
  {
    G.RunKeepsInv(f, gs);
    hide G.Run, G.FatesInv, G.BatchesInv, G.SessionInv, G.LedgerInv, G.PhaseInv;
  }

  lemma {:induction false} MoveKeeps(f: Format, o: Outside, s: Whole, act: Act)
    requires WholeOk(o, s) && s.world.store.nextSequence == |s.world.pushed|
    ensures WholeOk(o, Move(f, o, s, act))
  {
    hide G.Step, C.Grounded, C.Rests;
    match act
    case Deciding(d) =>
      if C.Grounded(d) && o.pinned(d.chain) {
        forall a | a in s.stored ensures Backed(o.verify, s.decisions + [d], a) {
          BackedLater(o.verify, s.decisions, d, a);
        }
      }
    case Storing(a) =>
      if s.world.session.Some? && Backed(o.verify, s.decisions, a) {
        PushAppends(f, s.world, a);
      }
    case Elsewhere(g) =>
      if !g.Pushing? {
        OnlyPushPushes(f, s.world, g);
      }
  }

  /**
   * In every whole run: every decision rests on the chain, every stored message on a signature and
   * a decision, and what was pushed is what was stored, one for one and in order.
   */
  lemma {:induction false} EveryRunWhole(f: Format, o: Outside, acts: seq<Act>)
    ensures WholeOk(o, After(f, o, acts))
  {
    hide WholeOk, Move;
    if acts == [] {
      NothingYet(f, o);
    } else {
      var front := acts[..|acts| - 1];
      EveryRunWhole(f, o, front);
      WorldIsReached(f, o, front);
      NumbersFollow(f, Project(f, o, front));
      MoveKeeps(f, o, After(f, o, front), acts[|acts| - 1]);
    }
  }

  lemma {:induction false} NothingYet(f: Format, o: Outside)
    ensures WholeOk(o, After(f, o, []))
  {
  }

  /* ---------- end to end ---------- */

  /**
   * The envelope came in signed bytes, and a reading of the chain that really happened had the
   * signing sensor itself bound below the root.
   */
  ghost predicate Vouched(o: Outside, s: Whole, e: Envelope) {
    exists a, d ::
      && a in s.stored && d in s.decisions
      && DecodeEnvelope(a.message.raw) == Some(e)
      && o.verify(a.message) == Some(d.key)
      && o.pinned(d.chain) && C.BelowRoot(d.chain, d.key, d.root)
  }

  lemma {:induction false} StoredIsVouched(o: Outside, s: Whole, i: nat, e: Envelope)
    requires WholeOk(o, s) && i < |s.world.pushed| && DecodeEnvelope(s.world.pushed[i].envelope) == Some(e)
    ensures Vouched(o, s, e)
  {
    hide DecodeEnvelope;
    var a := s.stored[i];
    assert a in s.stored && Backed(o.verify, s.decisions, a);
    var d :| d in s.decisions && d.key == a.sensor && d.allowed;
    assert C.Grounded(d);
  }

  /** Members of what survives come from pushed messages. */
  lemma {:induction false} SurvivorWasPushed(f: Format, pushed: seq<Message>, dropped: set<nat>, i: nat)
    returns (k: nat)
    requires i < |Keep(DecodeAll(f, pushed), dropped)|
    ensures k < |pushed| && f.decode(pushed[k].envelope) == Some(Envelopes(Keep(DecodeAll(f, pushed), dropped))[i])
  {
    var d := Keep(DecodeAll(f, pushed), dropped)[i];
    KeepExact(DecodeAll(f, pushed), dropped);
    DecodeAllExact(f, pushed);
    assert d in DecodeAll(f, pushed);
    var m :| m in pushed && m.sequence == d.id && f.decode(m.envelope) == Some(d.envelope);
    k :| 0 <= k < |pushed| && pushed[k] == m;
  }

  /**
   * In every whole run, whatever can be read from the chain was stored by the pipeline, was signed,
   * and came from a sensor that a lookup found bound below the root.
   */
  lemma {:induction false} OnlyVouchedOnChain(z: ZstdLibrary, o: Outside, acts: seq<Act>)
    requires LeftInverse(z)
    ensures var s := After(Real(z), o, acts);
            && ReadLog(Real(z), G.Collapse(s.world.ledger)).Some?
            && forall e | e in ReadLog(Real(z), G.Collapse(s.world.ledger)).value :: Vouched(o, s, e)
  {
    hide After, Reach, ReadLog, DecodeAll, Keep, Vouched, WholeOk, LeftInverse;
    var f := Real(z);
    var s := After(f, o, acts);
    EveryRunWhole(f, o, acts);
    WorldIsReached(f, o, acts);
    ChainTellsTheTruth(z, Project(f, o, acts));
    var w := s.world;
    var survivors := Keep(DecodeAll(f, w.pushed), w.dropped.Keys);
    var log := ReadLog(f, G.Collapse(w.ledger)).value;
    forall e | e in log ensures Vouched(o, s, e) {
      var i :| 0 <= i < |log| && log[i] == e;
      assert e == Envelopes(survivors)[i];
      var k := SurvivorWasPushed(f, w.pushed, w.dropped.Keys, i);
      StoredIsVouched(o, s, k, e);
    }
  }
}
