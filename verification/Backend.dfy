/** The durable half behind the pipeline: the store, with the batcher and the anchor at work on it. */
module Backend {
  import opened Prelude
  import opened Wire
  import opened Packing
  import opened RedbStore
  import opened Encoding
  import opened Durability
  import opened AnchorWorker
  import G = Gateway
  import C = CpsAuth
  import opened AuthStage
  import opened EndToEnd

  ghost function Lift(did: seq<G.Action>): seq<Act> {
    seq(|did|, i requires 0 <= i < |did| => Elsewhere(did[i]))
  }

  /** Quiet steps of the durable path change nothing else. */
  lemma {:induction false} LiftMoves(f: Format, o: Outside, acts: seq<Act>, gs: seq<G.Action>,
                                     did: seq<G.Action>)
    requires After(f, o, acts).world == Reach(f, gs) && Quiet(did)
    ensures var s := After(f, o, acts + Lift(did));
            && s.world == Reach(f, gs + did)
            && s.decisions == After(f, o, acts).decisions && s.stored == After(f, o, acts).stored
  {
    hide G.Step, After, Reach;
    if did == [] {
      assert acts + Lift(did) == acts && gs + did == gs;
    } else {
      var front, g := did[..|did| - 1], did[|did| - 1];
      LiftMoves(f, o, acts, gs, front);
      assert acts + Lift(did) == (acts + Lift(front)) + [Elsewhere(g)];
      assert gs + did == (gs + front) + [g];
      AfterSnoc(f, o, acts + Lift(front), Elsewhere(g));
      Snoc(f, gs + front, g);
    }
  }

  /** Store, ledger, decisions and stored messages are those that `past` leads to. */
  ghost predicate InStep(d: Durable)
    reads d, d.anchor, d.anchor.store
  {
    && d.anchor.Valid()
    && d.phase == Reach(d.anchor.f, d.anchor.past).phase
    && After(d.anchor.f, d.outside, d.past) == Whole(Reach(d.anchor.f, d.anchor.past), d.decisions, d.stored)
  }

  class Durable {
    const anchor: Anchor
    ghost const outside: Outside
    /** Where the anchor is. */
    var phase: G.Phase
    /** All steps since the store was created, and what the policy decided and the sink stored in them. */
    ghost var past: seq<Act>
    ghost var decisions: seq<C.Decision>
    ghost var stored: seq<Accepted>

    ghost predicate Valid()
      reads this, anchor, anchor.store
    {
      InStep(this)
    }

    constructor (anchor: Anchor, ghost o: Outside, ghost past: seq<Act>, phase: G.Phase)
      requires anchor.Valid() && After(anchor.f, o, past).world == Reach(anchor.f, anchor.past)
      requires phase == Reach(anchor.f, anchor.past).phase
      ensures Valid() && this.anchor == anchor && this.outside == o && this.past == past
    {
      this.anchor, this.outside, this.phase, this.past := anchor, o, phase, past;
      this.decisions, this.stored := After(anchor.f, o, past).decisions, After(anchor.f, o, past).stored;
    }

    /** Deliver a message to the durable sink: its received bytes are pushed, or nothing happens. */
    method Deliver(a: Accepted, works: bool) returns (ok: bool)
      requires Valid() && Backed(outside.verify, decisions, a)
      modifies `past, `stored, anchor, anchor.store
      ensures Valid() && old(past) <= past && decisions == old(decisions)
      ensures stored == old(stored) + if ok then [a] else []
      ensures ok <==> works && old(HasRoom())
    {
      hide After, Reach, G.Step, C.Rests;
      ghost var gs := anchor.past;
      SessionOpen();
      AfterSnoc(anchor.f, outside, past, Storing(a));
      Snoc(anchor.f, gs, PushOf(a));
      assert gs + [] == gs;
      ok := anchor.Deliver(a.message.receivedAt, a.message.raw, works);
      if ok {
        assert anchor.past == gs + [PushOf(a)];
        past := past + [Storing(a)];
        stored := stored + [a];
      }
    }

    /** Whether the next message can still be numbered. */
    ghost predicate HasRoom()
      reads this, anchor, anchor.store
    {
      Valid() && anchor.store.Contents().nextSequence + 1 < U64_LIMIT
    }

    lemma {:induction false} SessionOpen()
      requires Valid()
      ensures After(anchor.f, outside, past).world.session.Some?
    {
    }

    /**
     * At every moment, whatever can be read from the chain was stored by the pipeline, was signed,
     * and came from a sensor that a lookup found bound below the root.
     */
    lemma {:induction false} OnChain(z: ZstdLibrary)
      requires Valid() && anchor.f == Real(z) && LeftInverse(z)
      ensures var whole := After(anchor.f, outside, past);
              && ReadLog(anchor.f, G.Collapse(anchor.ledger)).Some?
              && forall e | e in ReadLog(anchor.f, G.Collapse(anchor.ledger)).value ::
                   Vouched(outside, whole, e)
    {
      hide After, Reach, ReadLog, Vouched, LeftInverse;
      OnlyVouchedOnChain(z, outside, past);
    }

    /** Take note of a decision the policy has remembered. */
    ghost method Note(d: C.Decision)
      requires Valid() && C.Grounded(d) && outside.pinned(d.chain)
      modifies `past, `decisions
      ensures Valid() && old(past) <= past && decisions == old(decisions) + [d] && stored == old(stored)
    {
      hide After, Reach, C.Grounded;
      AfterSnoc(anchor.f, outside, past, Deciding(d));
      past := past + [Deciding(d)];
      decisions := decisions + [d];
    }

    /** The batcher and the anchor go on for a while. */
    method Others()
      requires Valid()
      modifies `past, `phase, anchor, anchor.store
      ensures Valid() && old(past) <= past
    {
      hide After, Reach;
      var steps := Any();
      while steps > 0
        invariant Valid() && old(past) <= past
        decreases steps
      {
        var batching := *;
        if batching {
          BatchOnce();
        } else {
          AnchorOnce();
        }
        steps := steps - 1;
      }
    }

    /** The batcher reads, or decides and commits; the pipeline may push in between. */
    method BatchOnce()
      requires Valid()
      modifies `past, anchor, anchor.store
      ensures Valid() && old(past) <= past
    {
      hide After, Reach;
      ghost var gs := anchor.past;
      ghost var did: seq<G.Action>;
      var reading, force, works := *, *, *;
      if reading {
        anchor.BatchRead(works);
        did := if works then [G.Reading] else [];
      } else {
        var now := Now();
        did := anchor.BatchCommit(now, force, works);
      }
      LiftMoves(anchor.f, outside, past, gs, did);
      past := past + Lift(did);
    }

    /** The anchor's next step: load a page, submit its head, or remove the finalized head. */
    method AnchorOnce()
      requires Valid()
      modifies `past, `phase, anchor, anchor.store
      ensures Valid() && old(past) <= past
    {
      hide After, Reach;
      ghost var gs := anchor.past;
      ghost var did: seq<G.Action> := [];
      var works, abandoned := *, *;
      match phase {
        case Waiting =>
          var page := anchor.LoadPage(works);
          if page.Some? && page.value != [] {
            did := [G.Loading];
            phase := G.Submitting(page.value);
          }
        case Submitting(page) =>
          if page != [] {
            var s: G.Submission := *;
            anchor.SubmitOnce(page, s);
            did := [G.Attempting(s)];
            phase := if s.Success? then G.Confirming(page) else if s.Transient? then G.Submitting(page) else G.Halted;
          }
        case Confirming(page) =>
          if page != [] {
            var r := anchor.ConfirmOnce(page, abandoned, works);
            did := [G.Cleaning(r)];
            phase := match r
              case Removed => if |page| == 1 then G.Waiting else G.Submitting(page[1..])
              case RemovalRetry(_) => G.Confirming(page)
              case RemovalAbandoned(_) => G.Halted;
          }
        case Offline =>
        case Halted =>
      }
      assert anchor.past == gs + did;
      LiftMoves(anchor.f, outside, past, gs, did);
      past := past + Lift(did);
    }
  }
}
