/** The ancestor walk of the `cps` authorization policy. */
module Ancestry {
  import opened Prelude

  type NodeId = nat

  /** What the chain says about a node: absent, without a parent, or below one. */
  datatype Lineage = Missing | Top | Parent(parent: NodeId)

  /** Why the chain could not be read or is not the configured one. */
  datatype ReaderError = Unavailable | QueryFailed | ChainMismatch | RootMissing

  datatype AuthError =
    | Reader(cause: ReaderError)
    | TimedOut
    | NodeMissing(node: NodeId)
    | AncestorCycle(node: NodeId)
    | TooManyAncestors

  /** A view of the tree at one finalized block; a read may fail. */
  type Tree = NodeId -> Result<Lineage, ReaderError>

  /** Most ancestors followed before the tree is declared inconsistent. */
  const MAX_ANCESTOR_DEPTH := 256

  /** The node `k` parent steps above `n`, if the chain gets that far. */
  ghost function Ancestor(t: Tree, n: NodeId, k: nat): Option<NodeId> {
    if k == 0 then Some(n)
    else
      match Ancestor(t, n, k - 1)
      case None => None
      case Some(m) => if t(m).Ok? && t(m).value.Parent? then Some(t(m).value.parent) else None
  }

  /** The chain from `n` ends at a parentless node after `k` steps. */
  ghost predicate EndsAt(t: Tree, n: NodeId, k: nat) {
    Ancestor(t, n, k).Some? && t(Ancestor(t, n, k).value) == Ok(Top)
  }

  ghost predicate AvoidsUpTo(t: Tree, root: NodeId, n: NodeId, k: nat) {
    forall j: nat | j <= k :: Ancestor(t, n, j) != Some(root)
  }

  /** `n` is a strict descendant of `root`, at most the depth limit below it. */
  ghost predicate Descends(t: Tree, root: NodeId, n: NodeId) {
    n != root && exists k: nat | 1 <= k <= MAX_ANCESTOR_DEPTH :: Ancestor(t, n, k) == Some(root)
  }

  /** `n` is the root itself, or its chain ends at another parentless node within the depth limit. */
  ghost predicate Detached(t: Tree, root: NodeId, n: NodeId) {
    n == root || exists k: nat | k < MAX_ANCESTOR_DEPTH :: EndsAt(t, n, k) && AvoidsUpTo(t, root, n, k)
  }

  /* ---------- facts about chains ---------- */

  lemma {:induction false} AncestorDefinedBelow(t: Tree, n: NodeId, j: nat, k: nat)
    requires j <= k && Ancestor(t, n, k).Some?
    ensures Ancestor(t, n, j).Some?
    decreases k
  {
    if j < k {
      AncestorDefinedBelow(t, n, j, k - 1);
    }
  }

  /** Where the chain has a next node it does not end. */
  lemma {:induction false} NoEndBefore(t: Tree, n: NodeId, i: nat)
    requires Ancestor(t, n, i).Some?
    ensures forall k: nat | k < i :: !EndsAt(t, n, k)
  {
    forall k: nat | k < i ensures !EndsAt(t, n, k) {
      AncestorDefinedBelow(t, n, k + 1, i);
    }
  }

  /** Where a step finds no parent, the chain stops for good. */
  lemma {:induction false} NothingBeyond(t: Tree, n: NodeId, i: nat, k: nat)
    requires Ancestor(t, n, i + 1).None? && k > i
    ensures Ancestor(t, n, k).None?
    decreases k
  {
    if k > i + 1 {
      NothingBeyond(t, n, i, k - 1);
    }
  }

  /** Once the chain revisits a node it stays among the nodes seen so far and never ends. */
  lemma {:induction false} CycleNeverLeaves(t: Tree, n: NodeId, i: nat, j: nat, k: nat)
    requires j <= i && Ancestor(t, n, i + 1).Some? && Ancestor(t, n, i + 1) == Ancestor(t, n, j)
    ensures Ancestor(t, n, k).Some? && exists m: nat | m <= i :: Ancestor(t, n, k) == Ancestor(t, n, m)
    decreases k
  {
    if k <= i {
      AncestorDefinedBelow(t, n, k, i + 1);
    } else {
      CycleNeverLeaves(t, n, i, j, k - 1);
      var m: nat :| m <= i && Ancestor(t, n, k - 1) == Ancestor(t, n, m);
      AncestorDefinedBelow(t, n, m + 1, i + 1);
      assert Ancestor(t, n, k) == Ancestor(t, n, m + 1);
      if m == i {
        assert Ancestor(t, n, k) == Ancestor(t, n, j);
      }
    }
  }

  /* ---------- the outcomes of the walk ---------- */

  /** The nodes 0 to `i` steps above `n` exist on the chain, differ, and do not include the root. */
  ghost predicate SimplePath(t: Tree, root: NodeId, n: NodeId, i: nat) {
    && Ancestor(t, n, i).Some?
    && AvoidsUpTo(t, root, n, i)
    && forall j: nat, k: nat | j < k <= i :: Ancestor(t, n, j) != Ancestor(t, n, k)
  }

  /** After `k` steps along a simple path the node cannot be read. */
  ghost predicate ReadFails(t: Tree, root: NodeId, n: NodeId, k: nat, cause: ReaderError) {
    SimplePath(t, root, n, k) && t(Ancestor(t, n, k).value) == Err(cause)
  }

  /** After `k` steps along a simple path the chain names a node that does not exist. */
  ghost predicate MeetsMissing(t: Tree, root: NodeId, n: NodeId, k: nat, node: NodeId) {
    SimplePath(t, root, n, k) && Ancestor(t, n, k) == Some(node) && t(node) == Ok(Missing)
  }

  /** One step beyond a simple path of `k` steps lies a node of that path. */
  ghost predicate ClosesCycle(t: Tree, root: NodeId, n: NodeId, k: nat, node: NodeId) {
    && SimplePath(t, root, n, k) && Ancestor(t, n, k + 1) == Some(node)
    && exists j: nat | j <= k :: Ancestor(t, n, j) == Some(node)
  }

  lemma {:induction false} SimpleBelow(t: Tree, root: NodeId, n: NodeId, i: nat, k: nat)
    requires SimplePath(t, root, n, k) && i <= k
    ensures SimplePath(t, root, n, i)
  {
    AncestorDefinedBelow(t, n, i, k);
  }

  /** A simple path has one end: whatever goes wrong can only go wrong there. */
  lemma {:induction false} OneEnd(t: Tree, root: NodeId, n: NodeId, i: nat)
    requires i < MAX_ANCESTOR_DEPTH && SimplePath(t, root, n, i) && !SimplePath(t, root, n, i + 1)
    ensures !SimplePath(t, root, n, MAX_ANCESTOR_DEPTH)
    ensures forall k: nat, cause | ReadFails(t, root, n, k, cause) :: k == i
    ensures forall k: nat, node | MeetsMissing(t, root, n, k, node) :: k == i
    ensures forall k: nat, node | ClosesCycle(t, root, n, k, node) :: k == i
  {
    if SimplePath(t, root, n, MAX_ANCESTOR_DEPTH) {
      SimpleBelow(t, root, n, i + 1, MAX_ANCESTOR_DEPTH);
    }
    forall k: nat, cause | ReadFails(t, root, n, k, cause) ensures k == i {
      SameEnd(t, root, n, i, k);
    }
    forall k: nat, node | MeetsMissing(t, root, n, k, node) ensures k == i {
      SameEnd(t, root, n, i, k);
    }
    forall k: nat, node | ClosesCycle(t, root, n, k, node) ensures k == i {
      SameEnd(t, root, n, i, k);
    }
  }

  lemma {:induction false} SameEnd(t: Tree, root: NodeId, n: NodeId, i: nat, k: nat)
    requires SimplePath(t, root, n, i) && !SimplePath(t, root, n, i + 1)
    requires SimplePath(t, root, n, k) && !SimplePath(t, root, n, k + 1)
    ensures k == i
  {
    if k < i {
      SimpleBelow(t, root, n, k + 1, i);
    } else if k > i {
      SimpleBelow(t, root, n, i + 1, k);
    }
  }

  /** Where the simple path goes on, nothing is wrong. */
  lemma {:induction false} FineBefore(t: Tree, root: NodeId, n: NodeId, k: nat, i: nat)
    requires SimplePath(t, root, n, i) && k < i
    ensures forall cause :: !ReadFails(t, root, n, k, cause)
    ensures forall node :: !MeetsMissing(t, root, n, k, node)
    ensures forall node :: !ClosesCycle(t, root, n, k, node)
  {
    SimpleBelow(t, root, n, k + 1, i);
  }

  /** From the root itself no path is simple. */
  lemma {:induction false} NoPathFromRoot(t: Tree, root: NodeId)
    ensures forall k: nat :: !SimplePath(t, root, root, k)
  {
    assert Ancestor(t, root, 0) == Some(root);
  }

  lemma {:induction false} FoundRoot(t: Tree, root: NodeId, n: NodeId, i: nat, current: NodeId)
    requires i < MAX_ANCESTOR_DEPTH && SimplePath(t, root, n, i) && Ancestor(t, n, i) == Some(current)
    requires t(current) == Ok(Parent(root))
    ensures Descends(t, root, n) && !Detached(t, root, n)
  {
    assert Ancestor(t, n, i + 1) == Some(root);
    assert Ancestor(t, n, 0) == Some(n);
    NoEndBefore(t, n, i + 1);
  }

  lemma {:induction false} FoundTop(t: Tree, root: NodeId, n: NodeId, i: nat, current: NodeId)
    requires i < MAX_ANCESTOR_DEPTH && SimplePath(t, root, n, i) && Ancestor(t, n, i) == Some(current)
    requires t(current) == Ok(Top)
    ensures Detached(t, root, n) && !Descends(t, root, n)
  {
    assert EndsAt(t, n, i);
    forall k: nat | 1 <= k <= MAX_ANCESTOR_DEPTH ensures Ancestor(t, n, k) != Some(root) {
      if k > i {
        NothingBeyond(t, n, i, k);
      }
    }
  }

  /** A node that is missing or cannot be read leaves the question open. */
  lemma {:induction false} FoundNothing(t: Tree, root: NodeId, n: NodeId, i: nat, current: NodeId)
    requires SimplePath(t, root, n, i) && Ancestor(t, n, i) == Some(current)
    requires t(current).Err? || t(current).value.Missing?
    ensures !Descends(t, root, n) && !Detached(t, root, n)
  {
    assert Ancestor(t, n, 0) == Some(n);
    forall k: nat | 1 <= k <= MAX_ANCESTOR_DEPTH ensures Ancestor(t, n, k) != Some(root) {
      if k > i {
        NothingBeyond(t, n, i, k);
      }
    }
    NoEndBefore(t, n, i);
    forall k: nat | k < MAX_ANCESTOR_DEPTH ensures !EndsAt(t, n, k) {
      if k > i {
        NothingBeyond(t, n, i, k);
      }
    }
  }

  lemma {:induction false} FoundCycle(t: Tree, root: NodeId, n: NodeId, i: nat, node: NodeId)
    requires ClosesCycle(t, root, n, i, node)
    ensures !Descends(t, root, n) && !Detached(t, root, n)
  {
    var j: nat :| j <= i && Ancestor(t, n, j) == Some(node);
    assert Ancestor(t, n, 0) == Some(n);
    forall k: nat ensures Ancestor(t, n, k) != Some(root) && !EndsAt(t, n, k) {
      CycleNeverLeaves(t, n, i, j, k);
      CycleNeverLeaves(t, n, i, j, k + 1);
    }
  }

  lemma {:induction false} FoundNoEnd(t: Tree, root: NodeId, n: NodeId)
    requires SimplePath(t, root, n, MAX_ANCESTOR_DEPTH)
    ensures !Descends(t, root, n) && !Detached(t, root, n)
    ensures forall k: nat, cause | k < MAX_ANCESTOR_DEPTH :: !ReadFails(t, root, n, k, cause)
    ensures forall k: nat, node | k < MAX_ANCESTOR_DEPTH :: !MeetsMissing(t, root, n, k, node)
    ensures forall k: nat, node | k < MAX_ANCESTOR_DEPTH :: !ClosesCycle(t, root, n, k, node)
  {
    assert Ancestor(t, n, 0) == Some(n);
    NoEndBefore(t, n, MAX_ANCESTOR_DEPTH);
    forall k: nat, cause | k < MAX_ANCESTOR_DEPTH ensures !ReadFails(t, root, n, k, cause) {
      FineBefore(t, root, n, k, MAX_ANCESTOR_DEPTH);
    }
    forall k: nat, node | k < MAX_ANCESTOR_DEPTH
      ensures !MeetsMissing(t, root, n, k, node) && !ClosesCycle(t, root, n, k, node)
    {
      FineBefore(t, root, n, k, MAX_ANCESTOR_DEPTH);
    }
  }

  /* ---------- the walk ---------- */

  /** `visited` holds exactly the nodes met within `i` steps. */
  ghost predicate Met(t: Tree, n: NodeId, i: nat, visited: set<NodeId>) {
    && (forall x | x in visited :: exists j: nat | j <= i :: Ancestor(t, n, j) == Some(x))
    && (forall j: nat | j <= i && Ancestor(t, n, j).Some? :: Ancestor(t, n, j).value in visited)
  }

  lemma {:induction false} MeetFirst(t: Tree, root: NodeId, n: NodeId)
    requires n != root
    ensures SimplePath(t, root, n, 0) && Ancestor(t, n, 0) == Some(n) && Met(t, n, 0, {n})
  {
    assert Ancestor(t, n, 0) == Some(n);
  }

  lemma {:induction false} MeetNext(t: Tree, root: NodeId, n: NodeId, i: nat, visited: set<NodeId>, node: NodeId)
    requires SimplePath(t, root, n, i) && Met(t, n, i, visited)
    requires Ancestor(t, n, i + 1) == Some(node) && node != root && node !in visited
    ensures SimplePath(t, root, n, i + 1) && Met(t, n, i + 1, visited + {node})
  {
    hide Met, Ancestor;
    MetNext(t, n, i, visited, node);
    forall j: nat | j <= i ensures Ancestor(t, n, j) != Some(node) {
      NotMet(t, n, i, visited, node, j);
    }
    forall j: nat, k: nat | j < k <= i + 1 ensures Ancestor(t, n, j) != Ancestor(t, n, k) {
      if k == i + 1 {
        assert j <= i;
      }
    }
  }

  lemma {:induction false} NotMet(t: Tree, n: NodeId, i: nat, visited: set<NodeId>, node: NodeId, j: nat)
    requires Met(t, n, i, visited) && node !in visited && j <= i
    ensures Ancestor(t, n, j) != Some(node)
  {
  }

  lemma {:induction false} MetNext(t: Tree, n: NodeId, i: nat, visited: set<NodeId>, node: NodeId)
    requires Met(t, n, i, visited) && Ancestor(t, n, i + 1) == Some(node)
    ensures Met(t, n, i + 1, visited + {node})
  {
    hide Ancestor;
    forall x | x in visited ensures exists j: nat | j <= i + 1 :: Ancestor(t, n, j) == Some(x) {
      var j: nat :| j <= i && Ancestor(t, n, j) == Some(x);
      assert j <= i + 1;
    }
    var last: nat := i + 1;
    assert Ancestor(t, n, last) == Some(node);
  }

  /** The reason of each error, exactly. */
  ghost predicate ErrorsExact(t: Tree, root: NodeId, n: NodeId, r: Result<bool, AuthError>) {
    && (forall node :: r == Err(NodeMissing(node)) <==>
          exists k: nat | k < MAX_ANCESTOR_DEPTH :: MeetsMissing(t, root, n, k, node))
    && (forall node :: r == Err(AncestorCycle(node)) <==>
          exists k: nat | k < MAX_ANCESTOR_DEPTH :: ClosesCycle(t, root, n, k, node))
    && (forall cause :: r == Err(Reader(cause)) <==>
          exists k: nat | k < MAX_ANCESTOR_DEPTH :: ReadFails(t, root, n, k, cause))
    && (r == Err(TooManyAncestors) <==> SimplePath(t, root, n, MAX_ANCESTOR_DEPTH))
    && r != Err(TimedOut)
  }

  /** What the walk finds where its simple path ends. */
  ghost predicate EndsWith(t: Tree, root: NodeId, n: NodeId, i: nat, r: Result<bool, AuthError>) {
    && i < MAX_ANCESTOR_DEPTH && SimplePath(t, root, n, i) && !SimplePath(t, root, n, i + 1)
    && (forall node :: r == Err(NodeMissing(node)) <==> MeetsMissing(t, root, n, i, node))
    && (forall node :: r == Err(AncestorCycle(node)) <==> ClosesCycle(t, root, n, i, node))
    && (forall cause :: r == Err(Reader(cause)) <==> ReadFails(t, root, n, i, cause))
    && r != Err(TooManyAncestors) && r != Err(TimedOut)
  }

  lemma {:induction false} EndIsExact(t: Tree, root: NodeId, n: NodeId, i: nat, r: Result<bool, AuthError>)
    requires EndsWith(t, root, n, i, r)
    ensures ErrorsExact(t, root, n, r)
  {
    OneEnd(t, root, n, i);
    hide MeetsMissing, ClosesCycle, ReadFails, SimplePath;
  }

  /** What is reported about a node that gives no parent to go on to. */
  predicate StopReport(read: Result<Lineage, ReaderError>, current: NodeId, r: Result<bool, AuthError>) {
    match read
    case Err(cause) => r == Err(Reader(cause))
    case Ok(Missing) => r == Err(NodeMissing(current))
    case Ok(Top) => r == Ok(false)
    case Ok(Parent(_)) => false
  }

  /** The walk stops at a node without a parent; `r` says what it found there. */
  lemma {:induction false} StopsAt(t: Tree, root: NodeId, n: NodeId, i: nat, current: NodeId,
                                   r: Result<bool, AuthError>)
    requires i < MAX_ANCESTOR_DEPTH && SimplePath(t, root, n, i) && Ancestor(t, n, i) == Some(current)
    requires StopReport(t(current), current, r)
    ensures ErrorsExact(t, root, n, r)
  {
    assert Ancestor(t, n, i + 1).None?;
    EndIsExact(t, root, n, i, r);
  }

  lemma {:induction false} StopsBelowRoot(t: Tree, root: NodeId, n: NodeId, i: nat, current: NodeId)
    requires i < MAX_ANCESTOR_DEPTH && SimplePath(t, root, n, i) && Ancestor(t, n, i) == Some(current)
    requires t(current) == Ok(Parent(root))
    ensures ErrorsExact(t, root, n, Ok(true))
  {
    assert Ancestor(t, n, i + 1) == Some(root);
    EndIsExact(t, root, n, i, Ok(true));
  }

  lemma {:induction false} StopsInCycle(t: Tree, root: NodeId, n: NodeId, i: nat, visited: set<NodeId>, node: NodeId)
    requires i < MAX_ANCESTOR_DEPTH && SimplePath(t, root, n, i) && Met(t, n, i, visited)
    requires Ancestor(t, n, i + 1) == Some(node) && node in visited
    ensures ErrorsExact(t, root, n, Err(AncestorCycle(node))) && !Descends(t, root, n) && !Detached(t, root, n)
  {
    assert ClosesCycle(t, root, n, i, node) && !SimplePath(t, root, n, i + 1);
    FoundCycle(t, root, n, i, node);
    EndIsExact(t, root, n, i, Err(AncestorCycle(node)));
  }

  /** What a walk from `n` returns: exact answers, exact errors. */
  ghost predicate WalkGives(t: Tree, root: NodeId, n: NodeId, r: Result<bool, AuthError>) {
    && (r == Ok(true) <==> Descends(t, root, n))
    && (r == Ok(false) <==> Detached(t, root, n))
    && ErrorsExact(t, root, n, r)
  }

  /**
   * Walk from the bound node `start` towards the root. The answer is exact: true for strict
   * descendants within the depth limit, false for the root and for nodes of other trees,
   * each error for what it says.
   */
  method Walk(t: Tree, root: NodeId, start: NodeId) returns (r: Result<bool, AuthError>)
    ensures WalkGives(t, root, start, r)
  {
    if start == root {
      NoPathFromRoot(t, root);
      return Ok(false);
    }
    hide Descends, Detached, Met, SimplePath, ErrorsExact;
    var current := start;
    var visited := {current};
    MeetFirst(t, root, start);
    for i := 0 to MAX_ANCESTOR_DEPTH
      invariant SimplePath(t, root, start, i) && Ancestor(t, start, i) == Some(current)
      invariant Met(t, start, i, visited)
    {
      var read := t(current);
      if read.Err? {
        FoundNothing(t, root, start, i, current);
        StopsAt(t, root, start, i, current, Err(Reader(read.error)));
        return Err(Reader(read.error));
      }
      match read.value {
        case Missing =>
          FoundNothing(t, root, start, i, current);
          StopsAt(t, root, start, i, current, Err(NodeMissing(current)));
          return Err(NodeMissing(current));
        case Top =>
          FoundTop(t, root, start, i, current);
          StopsAt(t, root, start, i, current, Ok(false));
          return Ok(false);
        case Parent(parent) =>
          assert Ancestor(t, start, i + 1) == Some(parent);
          if parent == root {
            FoundRoot(t, root, start, i, current);
            StopsBelowRoot(t, root, start, i, current);
            return Ok(true);
          }
          if parent in visited {
            StopsInCycle(t, root, start, i, visited, parent);
            return Err(AncestorCycle(parent));
          }
          MeetNext(t, root, start, i, visited, parent);
          visited := visited + {parent};
          current := parent;
      }
    }
    FoundNoEnd(t, root, start);
    NeverEnds(t, root, start);
    r := Err(TooManyAncestors);
  }

  lemma {:induction false} NeverEnds(t: Tree, root: NodeId, n: NodeId)
    requires SimplePath(t, root, n, MAX_ANCESTOR_DEPTH)
    ensures ErrorsExact(t, root, n, Err(TooManyAncestors))
  {
    FoundNoEnd(t, root, n);
    hide MeetsMissing, ClosesCycle, ReadFails, SimplePath;
  }

  /* ---------- well-formed trees ---------- */

  /** Every node on the chain above `n` exists and lies strictly closer to the top than its child. */
  ghost predicate WellFormedAbove(t: Tree, n: NodeId, height: NodeId -> nat) {
    forall k: nat | Ancestor(t, n, k).Some? ::
      var m := Ancestor(t, n, k).value;
      && t(m).Ok? && !t(m).value.Missing?
      && (t(m).value.Parent? ==> height(t(m).value.parent) < height(m))
  }

  lemma {:induction false} ChainEnds(t: Tree, n: NodeId, height: NodeId -> nat, k: nat) returns (e: nat)
    requires WellFormedAbove(t, n, height) && Ancestor(t, n, k).Some?
    requires height(Ancestor(t, n, k).value) + k <= height(n)
    ensures EndsAt(t, n, e) && e <= height(n)
    decreases height(n) - k
  {
    var m := Ancestor(t, n, k).value;
    if t(m).value.Parent? {
      assert Ancestor(t, n, k + 1) == Some(t(m).value.parent);
      e := ChainEnds(t, n, height, k + 1);
    } else {
      e := k;
    }
  }

  /** In a well-formed tree of height below the depth limit the walk always decides. */
  lemma {:induction false} WellFormedDecides(t: Tree, root: NodeId, n: NodeId, height: NodeId -> nat)
    requires WellFormedAbove(t, n, height) && height(n) < MAX_ANCESTOR_DEPTH
    ensures Descends(t, root, n) || Detached(t, root, n)
  {
    assert Ancestor(t, n, 0) == Some(n);
    var e := ChainEnds(t, n, height, 0);
    if !AvoidsUpTo(t, root, n, e) {
      var j: nat :| j <= e && Ancestor(t, n, j) == Some(root);
      if j == 0 {
        assert n == root;
      }
    }
  }
}
