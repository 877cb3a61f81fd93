/** Starting the gateway on a new store or on what a former session left behind. */
module Session {
  import opened Prelude
  import opened Wire
  import opened Queues
  import opened RedbStore
  import opened Packing
  import opened Durability
  import Batcher
  import G = Gateway
  import AnchorWorker
  import opened AuthStage
  import opened CpsAuth
  import opened EndToEnd
  import opened Backend
  import opened Pipeline
  import D = Dedup

  /** How the stage, the cache and the policy are dimensioned. */
  datatype Sizes = Sizes(limits: Limits, dedupCapacity: nat, root: nat, authCapacity: nat)

  /** No session is running, and the store and the chain are those that `acts` led to. */
  ghost predicate Idle(f: Format, o: Outside, acts: seq<Act>, store: Queues,
                       ledger: seq<G.Finalized>) {
    var w := After(f, o, acts).world;
    w.session.None? && w.store == store && w.ledger == ledger
  }

  /** Between sessions nothing is half done. */
  lemma {:induction false} NothingRead(f: Format, gs: seq<G.Action>)
    requires Reach(f, gs).session.None?
    ensures Reach(f, gs).snapshot.None?
  {
    G.RunKeepsInv(f, gs);
    hide G.Run, G.QueueInv, G.FatesInv, G.BatchesInv, G.LedgerInv, G.PhaseInv;
  }

  /** What a start that is not refused adds to the run. */
  lemma {:induction false} StartReaches(f: Format, o: Outside, acts: seq<Act>, before: Queues,
                                        ledger: seq<G.Finalized>, c: Config, outcome: FormatOutcome, after: Queues)
    returns (gs: seq<G.Action>)
    requires Idle(f, o, acts, before, ledger) && ValidConfig(c)
    requires Reconcile(before, f.describe(c.compression)) == (outcome, after) && !outcome.Incompatible?
    ensures var whole := After(f, o, acts + [Elsewhere(G.Starting(c))]);
            && whole.world == Reach(f, gs)
            && whole.world.store == after && whole.world.ledger == ledger
            && whole.world.session == Some(c) && whole.world.phase == G.Waiting && whole.world.snapshot == None
            && whole.decisions == After(f, o, acts).decisions && whole.stored == After(f, o, acts).stored
  {
    hide After, Reach, Reconcile;
    var start := G.Starting(c);
    WorldIsReached(f, o, acts);
    NothingRead(f, Project(f, o, acts));
    AfterSnoc(f, o, acts, Elsewhere(start));
    gs := Project(f, o, acts) + [start];
    AnchorWorker.Snoc(f, Project(f, o, acts), start);
  }

  /** Why a start is refused. */
  datatype Refusal =
    | InvalidConfig
    | StoreFailed(cause: StoreError)
    | IncompatibleFormat(stored: Descriptor, readyBatches: nat)

  /** What a session consists of once it has started: everything new but the store. */
  ghost predicate Started(p: Acceptor, store: Store, f: Format, c: Config, s: Setting, sizes: Sizes, o: Outside,
                          view: nat -> Chain, acts: seq<Act>)
    reads p, p.stage, p.dedup, p.policy, p.backend, p.backend.anchor, p.backend.anchor.store
  {
    && p.Valid() && p.s == s && p.view == view && p.h == History([], [], [], [], multiset{}, 0) && !p.stopping
    && p.stage.limits == AtLeast(sizes.limits) && p.stage.waiting == []
    && p.policy.root == sizes.root && p.policy.capacity == sizes.authCapacity && p.policy.View() == NEW_POLICY
    && p.dedup.capacity == (if sizes.dedupCapacity < 1 then 1 else sizes.dedupCapacity) && p.dedup.order == []
    && p.backend.outside == o && p.backend.past == acts + [Elsewhere(G.Starting(c))]
    && p.backend.anchor.store == store && p.backend.anchor.f == f && p.backend.anchor.batcher.config == c
    && p.earlier == After(f, o, acts).decisions && p.before == After(f, o, acts).stored
  }

  function AtLeast(l: Limits): Limits {
    Limits(if l.maxConcurrent < 1 then 1 else l.maxConcurrent, if l.maxPending < 1 then 1 else l.maxPending)
  }

  function RefusalOf(r: Result<Acceptor, Refusal>): Option<Refusal> {
    if r.Err? then Some(r.error) else None
  }

  /**
   * What a start on a store comes to, the label being `d`. One that is refused leaves the store as it
   * was; otherwise the label is stored afterwards and nothing else has changed.
   */
  ghost predicate StartGives(q: Queues, c: Config, d: Descriptor, readable: bool, writable: bool,
                             refusal: Option<Refusal>, after: Queues)
  {
    var labelled := q.format == Some(d);
    var refused := q.format.Some? && q.format.value != d && q.ready != [];
    && (refusal == Some(InvalidConfig) <==> !ValidConfig(c))
    && (refusal == Some(StoreFailed(Database)) <==>
          ValidConfig(c) && (!readable || (!labelled && !refused && !writable)))
    && (refusal.Some? && refusal.value.IncompatibleFormat? <==> ValidConfig(c) && readable && refused)
    && (refusal.Some? && refusal.value.IncompatibleFormat? ==>
          refusal == Some(IncompatibleFormat(q.format.value, |q.ready|)))
    && (refusal.Some? && refusal.value.StoreFailed? ==> refusal == Some(StoreFailed(Database)))
    && after == if refusal.Some? then q else q.(format := Some(d))
  }

  /**
   * Start a session: check the configuration and the stored format, then assemble the workers and
   * the pipeline. It is refused exactly for an invalid configuration, a store that fails where it is
   * needed, or ready batches of another format, and then nothing changes. A session goes on where
   * the last one stopped, with all that was decided and stored before.
   */
  method Start(store: Store, ghost ledger: seq<G.Finalized>, f: Format, c: Config, retry: AnchorWorker.RetryPolicy,
               s: Setting, sizes: Sizes, view: nat -> Chain, readable: bool, writable: bool, ghost o: Outside,
               ghost acts: seq<Act>) returns (r: Result<Acceptor, Refusal>)
    requires store.Valid() && Idle(f, o, acts, store.Contents(), ledger)
    requires o.verify == s.verify && forall t :: o.pinned(view(t))
    requires f.describe(c.compression).version < U32_LIMIT && sizes.authCapacity >= 1
    modifies store
    ensures store.Valid()
    ensures StartGives(old(store.Contents()), c, f.describe(c.compression), readable, writable, RefusalOf(r),
                       store.Contents())
    ensures r.Ok? ==> Started(r.value, store, f, c, s, sizes, o, view, acts)
    ensures r.Ok? ==> fresh({r.value, r.value.stage, r.value.dedup, r.value.policy})
    ensures r.Ok? ==> fresh({r.value.backend, r.value.backend.anchor})
  {
    hide After, Reach, Consistent, PolicyOk, StageOk, Books, D.QueueOk, Recalls, Reconcile;
    if !ValidConfig(c) {
      return Err(InvalidConfig);
    }
    ghost var was := store.Contents();
    var reconciled := ReconcileFormat(store, f.describe(c.compression), readable, writable);
    if reconciled.Err? {
      return Err(StoreFailed(reconciled.error));
    }
    ReconcileExactly(was, f.describe(c.compression));
    if reconciled.value.Incompatible? {
      return Err(IncompatibleFormat(reconciled.value.stored, reconciled.value.readyBatches));
    }
    var acceptor := Assemble(store, ledger, f, c, retry, s, sizes, view, o, acts, was, reconciled.value);
    r := Ok(acceptor);
  }

  method Assemble(store: Store, ghost ledger: seq<G.Finalized>, f: Format, c: Config, retry: AnchorWorker.RetryPolicy,
                  s: Setting, sizes: Sizes, view: nat -> Chain, ghost o: Outside, ghost acts: seq<Act>,
                  ghost was: Queues, ghost outcome: FormatOutcome) returns (p: Acceptor)
    requires store.Valid() && Idle(f, o, acts, was, ledger) && ValidConfig(c)
    requires Reconcile(was, f.describe(c.compression)) == (outcome, store.Contents()) && !outcome.Incompatible?
    requires o.verify == s.verify && (forall t :: o.pinned(view(t))) && sizes.authCapacity >= 1
    ensures Started(p, store, f, c, s, sizes, o, view, acts)
    ensures fresh({p, p.stage, p.dedup, p.policy, p.backend, p.backend.anchor})
  {
    hide After, Reach, Consistent, PolicyOk, StageOk, Books, D.QueueOk, Recalls, Reconcile;
    ghost var now := acts + [Elsewhere(G.Starting(c))];
    ghost var gs := StartReaches(f, o, acts, was, ledger, c, outcome, store.Contents());
    var worker := new Batcher.Worker(store, c, f);
    var anchor := new AnchorWorker.Anchor(store, worker, retry, ledger, gs);
    var backend := new Durable(anchor, o, now, G.Waiting);
    var stage := new Stage(sizes.limits);
    var dedup := new D.DedupCache(sizes.dedupCapacity, s.ttl);
    var policy := new Policy(sizes.root, sizes.authCapacity, s.negativeTtl, o.pinned);
    p := new Acceptor(s, stage, dedup, policy, backend, view);
  }

  /** A new store is idle. */
  lemma {:induction false} NewStoreIsIdle(f: Format, o: Outside)
    ensures Idle(f, o, [], EMPTY_STORE, []) && After(f, o, []).stored == []
  {
  }

  /** A crash leaves the store and the chain as they are, and the gateway idle. */
  lemma {:induction false} CrashIsIdle(f: Format, o: Outside, acts: seq<Act>)
    ensures var w := After(f, o, acts).world;
            Idle(f, o, acts + [Elsewhere(G.Crashing)], w.store, w.ledger)
  {
    hide After;
    AfterSnoc(f, o, acts, Elsewhere(G.Crashing));
  }

  /** A new store file. */
  method NewStore() returns (store: Store)
    ensures fresh(store) && store.Valid() && store.Contents() == EMPTY_STORE
  {
    store := new Store.Open([], [], map[]);
  }

  /** The process running `p` crashes, and the gateway is started again on its store as it is then. */
  method Restart(p: Acceptor, d: Config, retry: AnchorWorker.RetryPolicy, sizes: Sizes, readable: bool, writable: bool)
    returns (r: Result<Acceptor, Refusal>)
    requires p.Valid() && sizes.authCapacity >= 1
    requires p.backend.anchor.f.describe(d.compression).version < U32_LIMIT
    modifies p.backend.anchor.store
    ensures r.Ok? ==> r.value.Valid() && r.value.before == p.before + StoredOf(p.h.publications, p.s.durable)
    ensures p.backend.anchor.store.Valid()
    ensures StartGives(old(p.backend.anchor.store.Contents()), d, p.backend.anchor.f.describe(d.compression), readable,
                       writable, RefusalOf(r), p.backend.anchor.store.Contents())
    ensures old(p.backend.anchor.store.Contents()).format
         == Some(p.backend.anchor.f.describe(p.backend.anchor.batcher.config.compression))
  {
    hide After, StoredOf, Books, PolicyOk, StageOk, InStep, OnRecord, Recalls, D.QueueOk, Reconcile;
    ghost var acts, o, f := p.backend.past, p.backend.outside, p.backend.anchor.f;
    AtRest(p);
    CrashIsIdle(f, o, acts);
    AfterSnoc(f, o, acts, Elsewhere(G.Crashing));
    r := Start(p.backend.anchor.store, p.backend.anchor.ledger, p.backend.anchor.f, d, retry, p.s, sizes, p.view,
               readable, writable, o, acts + [Elsewhere(G.Crashing)]);
  }

  /**
   * A session on a new store, a crash that leaves the store at `left`, and a second session, perhaps
   * with another configuration: the second one finds stored exactly what the durable sink of the first
   * accepted, in order. On a working disk only batches waiting under another label keep it from starting.
   */
  method Lifetime(f: Format, c: Config, d: Config, retry: AnchorWorker.RetryPolicy, s: Setting, sizes: Sizes,
                  view: nat -> Chain, ghost o: Outside, ingress: seq<Ingress>, budget: nat, readable: bool,
                  writable: bool)
    returns (first: Result<Acceptor, Refusal>, second: Result<Acceptor, Refusal>, ghost left: Queues)
    requires f.describe(c.compression).version < U32_LIMIT && f.describe(d.compression).version < U32_LIMIT
    requires o.verify == s.verify && (forall t :: o.pinned(view(t))) && sizes.authCapacity >= 1
    ensures first.Ok? <==> ValidConfig(c)
    ensures first.Ok? && d == c && readable ==> second.Ok?
    ensures first.Ok? && ValidConfig(d) && readable && writable ==>
              (second.Err? <==> f.describe(c.compression) != f.describe(d.compression) && left.ready != [])
    ensures first.Ok? ==>
              && left.format == Some(f.describe(c.compression)) && first.value.backend.anchor.store.Valid()
              && first.value.backend.anchor.store.Contents()
                   == if second.Ok? then left.(format := Some(f.describe(d.compression))) else left
    ensures second.Ok? ==>
              && first.Ok? && second.value.Valid()
              && second.value.before == StoredOf(first.value.h.publications, s.durable)
  {
    hide After, StoredOf, Sound, Current, Handled, Conserved, Reasoned, AllFaithful, OnRecord, Reconcile, InOrder,
      NeverJumps, AllDistinct, From, InHand, Outcomes, OutcomesOf, D.Apart, Fated, KeptUp, Idle;
    var store := NewStore();
    NewStoreIsIdle(f, o);
    first := Start(store, [], f, c, retry, s, sizes, view, true, true, o, []);
    second, left := first, EMPTY_STORE;
    if first.Ok? {
      var p := first.value;
      var _ := p.Run(ingress, budget);
      RunningIsLabelled(p);
      left := store.Contents();
      assert [] + StoredOf(p.h.publications, s.durable) == StoredOf(p.h.publications, s.durable);
      second := Restart(p, d, retry, sizes, readable, writable);
    }
  }

  lemma {:induction false} RunningIsLabelled(p: Acceptor)
    requires Sound(p)
    ensures p.backend.anchor.store.Valid()
  {
    AtRest(p);
  }

  /** What a running pipeline has led to is in the store. */
  lemma {:induction false} AtRest(p: Acceptor)
    requires Sound(p)
    ensures var w := After(p.backend.anchor.f, p.backend.outside, p.backend.past).world;
            && p.backend.anchor.store.Valid() && w.store == p.backend.anchor.store.Contents()
            && w.ledger == p.backend.anchor.ledger
            && w.store.format == Some(p.backend.anchor.f.describe(p.backend.anchor.batcher.config.compression))
            && After(p.backend.anchor.f, p.backend.outside, p.backend.past).stored == p.backend.stored
  {
    hide After, Books, PolicyOk, StageOk, OnRecord, Consistent, G.Run, G.QueueInv, G.FatesInv, G.BatchesInv,
      G.LedgerInv, G.PhaseInv;
    G.RunKeepsInv(p.backend.anchor.f, p.backend.anchor.past);
  }
}
