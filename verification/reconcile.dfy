/** The specification of `reconcileChildren(fiber, children)`: the positional
    diff of a fiber's new children against the sibling chain of its
    alternate's children.  `F` is the arena before the call, `p` the fiber,
    `OC` the old chain (`fiber.alternate.child`, then `.sibling`, ...). */
module Reconcile {
  import opened Values
  import opened Arena

  predicate ChainIn(F: seq<Fiber>, OC: seq<FiberId>) {
    forall j :: 0 <= j < |OC| ==> OC[j] < |F|
  }

  /** `child.type`: `None` when reading it throws (`null`, `undefined`). */
  function ChildType(child: Value): (t: Option<Value>)
    ensures t.None? <==> IsNullish(child)
    ensures child.Elem? ==> t == Some(child.elemType)
    ensures !child.Elem? && !IsNullish(child) ==> t == Some(Undefined)
  {
    if IsNullish(child) then None
    else if child.Elem? then Some(child.elemType)
    else Some(Undefined)
  }

  /** `child.props` of a non-nullish child. */
  function ChildProps(child: Value): Option<Props> {
    if child.Elem? then Some(child.props) else None
  }

  /** Slot `i` has an old fiber and a child whose `type` cannot be read. */
  predicate TypeThrows(OC: seq<FiberId>, children: seq<Value>, i: nat)
    requires i < |children|
  {
    i < |OC| && IsNullish(children[i])
  }

  /** Slot `i` reuses the old fiber at the same position: same `type`. */
  predicate IsUpdate(F: seq<Fiber>, OC: seq<FiberId>, children: seq<Value>, i: nat)
    requires ChainIn(F, OC) && i < |children|
  {
    i < |OC| && !IsNullish(children[i]) && F[OC[i]].elemType == ChildType(children[i]).value
  }

  /** Slot `i` yields a new fiber: an update, or a placement for a truthy child. */
  predicate Produces(F: seq<Fiber>, OC: seq<FiberId>, children: seq<Value>, i: nat)
    requires ChainIn(F, OC) && i < |children|
  {
    IsUpdate(F, OC, children, i) || Truthy(children[i])
  }

  /** Slot `i` queues the old fiber at its position for deletion. */
  predicate Deletes(F: seq<Fiber>, OC: seq<FiberId>, children: seq<Value>, i: nat)
    requires ChainIn(F, OC) && i < |children|
  {
    i < |OC| && !IsUpdate(F, OC, children, i)
  }

  /** The fiber slot `i` yields, before it is linked to a sibling. */
  function NewFiber(F: seq<Fiber>, p: FiberId, OC: seq<FiberId>, children: seq<Value>, i: nat): (f: Fiber)
    requires ChainIn(F, OC) && i < |children| && Produces(F, OC, children, i)
    ensures f.parent == Some(p) && f.child.None? && f.sibling.None?
    ensures f.stateHooks.None? && f.effectHooks.None?
  {
    var child := children[i];
    if IsUpdate(F, OC, children, i) then
      Fiber(ChildType(child).value, ChildProps(child), F[OC[i]].dom, Some(p), None, None,
            Update, Some(OC[i]), None, None)
    else
      Fiber(ChildType(child).value, ChildProps(child), None, Some(p), None, None,
            Placement, None, None, None)
  }

  /** The fibers the first `k` slots create, in order. */
  function Created(F: seq<Fiber>, p: FiberId, OC: seq<FiberId>, children: seq<Value>, k: nat): seq<Fiber>
    requires ChainIn(F, OC) && k <= |children|
  {
    if k == 0 then []
    else Created(F, p, OC, children, k - 1)
         + (if Produces(F, OC, children, k - 1) then [NewFiber(F, p, OC, children, k - 1)] else [])
  }

  /** The old fibers the first `k` slots queue for deletion, in order. */
  function Deleted(F: seq<Fiber>, OC: seq<FiberId>, children: seq<Value>, k: nat): seq<FiberId>
    requires ChainIn(F, OC) && k <= |children|
  {
    if k == 0 then []
    else Deleted(F, OC, children, k - 1) + (if Deletes(F, OC, children, k - 1) then [OC[k - 1]] else [])
  }

  /** The old fibers the first `k` slots reuse (the alternates of the update
      fibers), in order. */
  function Reused(F: seq<Fiber>, OC: seq<FiberId>, children: seq<Value>, k: nat): seq<FiberId>
    requires ChainIn(F, OC) && k <= |children|
  {
    if k == 0 then []
    else Reused(F, OC, children, k - 1) + (if IsUpdate(F, OC, children, k - 1) then [OC[k - 1]] else [])
  }

  /** Old fibers past the last child, deleted by the final loop. */
  function Surplus(OC: seq<FiberId>, n: nat): seq<FiberId> {
    if n < |OC| then OC[n..] else []
  }

  /** Each created fiber is linked to the next one through `sibling`. */
  function Linked(fs: seq<Fiber>, base: nat): (r: seq<Fiber>)
    ensures |r| == |fs|
  {
    seq(|fs|, j requires 0 <= j < |fs| => fs[j].(sibling := if j + 1 < |fs| then Some(base + j + 1) else None))
  }

  /** `fiber.child` after `k` slots: set at slot 0 to the fiber it yields, or
      to null when it yields none. */
  function FirstChild(F: seq<Fiber>, p: FiberId, OC: seq<FiberId>, children: seq<Value>, k: nat): Option<FiberId>
    requires p < |F| && ChainIn(F, OC) && k <= |children|
  {
    if k == 0 then F[p].child
    else if Produces(F, OC, children, 0) then Some(|F|)
    else None
  }

  /** The arena after `k` slots: `fiber.child` updated, the created fibers
      appended and chained. */
  function ArenaAfter(F: seq<Fiber>, p: FiberId, OC: seq<FiberId>, children: seq<Value>, k: nat): (A: seq<Fiber>)
    requires p < |F| && ChainIn(F, OC) && k <= |children|
    ensures |A| == |F| + |Created(F, p, OC, children, k)|
  {
    F[p := F[p].(child := FirstChild(F, p, OC, children, k))] + Linked(Created(F, p, OC, children, k), |F|)
  }

  /** How far the loop over the children gets from slot `i`: the number of
      slots whose work is done, and whether it finishes without throwing.
      It throws at slot `i` when `child.type` cannot be read, or when no
      fiber has been created yet at a slot after the first
      (`prevChild.sibling` on null, after that slot's work is done). */
  function Progress(F: seq<Fiber>, p: FiberId, OC: seq<FiberId>, children: seq<Value>, i: nat): (r: (nat, bool))
    requires ChainIn(F, OC) && i <= |children|
    ensures i <= r.0 <= |children|
    ensures r.1 ==> r.0 == |children|
    decreases |children| - i
  {
    if i == |children| then (i, true)
    else if TypeThrows(OC, children, i) then (i, false)
    else if i > 0 && |Created(F, p, OC, children, i)| == 0 then (i + 1, false)
    else Progress(F, p, OC, children, i + 1)
  }

  /** All deletions a completed call queues. */
  function NewDeletions(F: seq<Fiber>, OC: seq<FiberId>, children: seq<Value>): seq<FiberId>
    requires ChainIn(F, OC)
  {
    Deleted(F, OC, children, |children|) + Surplus(OC, |children|)
  }

  // ---------------------------------------------------------------------
  // Facts the loop proof uses

  /** The old chain of `p`: its alternate's children, first to last. */
  ghost function OldChain(F: seq<Fiber>, order: seq<nat>, p: FiberId): (OC: seq<FiberId>)
    requires WellFormed(F, order) && p < |F|
    ensures ChainIn(F, OC)
  {
    if F[p].alternate.None? then []
    else
      assert LinksOk(F, order, p);
      assert LinksOk(F, order, F[p].alternate.value);
      Chain(F, order, F[F[p].alternate.value].child)
  }

  /** The arena after slot `i`, from the arena before it: the slot's fiber,
      if any, is appended, then linked from `fiber.child` (slot 0) or from
      the previous fiber's `sibling` (unless there is none, which throws). */
  lemma {:induction false} ArenaAfterStep(F: seq<Fiber>, p: FiberId, OC: seq<FiberId>, children: seq<Value>, i: nat)
    requires p < |F| && ChainIn(F, OC) && i < |children|
    ensures var A := ArenaAfter(F, p, OC, children, i);
            var produced := Produces(F, OC, children, i);
            var nid: Option<FiberId> := if produced then Some(|A|) else None;
            var A2 := if produced then A + [NewFiber(F, p, OC, children, i)] else A;
            ArenaAfter(F, p, OC, children, i + 1)
              == if i == 0 then A2[p := A2[p].(child := nid)]
                 else if |Created(F, p, OC, children, i)| == 0 then A2
                 else A2[|A| - 1 := A2[|A| - 1].(sibling := nid)]
  {
    var A := ArenaAfter(F, p, OC, children, i);
    var cs := Created(F, p, OC, children, i);
    var produced := Produces(F, OC, children, i);
    var nid: Option<FiberId> := if produced then Some(|A|) else None;
    var A2 := if produced then A + [NewFiber(F, p, OC, children, i)] else A;
    var base := F[p := F[p].(child := FirstChild(F, p, OC, children, i))];
    assert A == base + Linked(cs, |F|);
    var A' := ArenaAfter(F, p, OC, children, i + 1);
    if i == 0 {
      assert cs == [];
      assert base == F;
      assert A' == A2[p := A2[p].(child := nid)];
    } else if |cs| == 0 {
      assert !Produces(F, OC, children, 0) by {
        if Produces(F, OC, children, 0) {
          CreatedAt(F, p, OC, children, 0, i);
        }
      }
      assert A' == A2;
    } else {
      if produced {
        LinkedAppend(cs, NewFiber(F, p, OC, children, i), |F|);
      } else {
        assert A2[|A| - 1 := A2[|A| - 1].(sibling := nid)] == A;
      }
      assert A' == A2[|A| - 1 := A2[|A| - 1].(sibling := nid)];
    }
  }

  lemma CreatedGrows(F: seq<Fiber>, p: FiberId, OC: seq<FiberId>, children: seq<Value>, i: nat, k: nat)
    requires ChainIn(F, OC) && i <= k <= |children|
    ensures Created(F, p, OC, children, i) <= Created(F, p, OC, children, k)
    decreases k - i
  {
    if i < k {
      CreatedGrows(F, p, OC, children, i, k - 1);
    }
  }

  /** The fiber slot `i` creates sits at position `|Created(i)|`. */
  lemma {:induction false} CreatedAt(F: seq<Fiber>, p: FiberId, OC: seq<FiberId>, children: seq<Value>, i: nat, k: nat)
    requires ChainIn(F, OC) && i < k <= |children| && Produces(F, OC, children, i)
    ensures |Created(F, p, OC, children, i)| < |Created(F, p, OC, children, k)|
    ensures Created(F, p, OC, children, k)[|Created(F, p, OC, children, i)|] == NewFiber(F, p, OC, children, i)
  {
    CreatedGrows(F, p, OC, children, i + 1, k);
    assert Created(F, p, OC, children, i + 1)
        == Created(F, p, OC, children, i) + [NewFiber(F, p, OC, children, i)];
  }

  lemma LinkedAppend(fs: seq<Fiber>, f: Fiber, base: nat)
    requires f.sibling.None?
    ensures Linked(fs + [f], base)
         == (if |fs| == 0 then [] else Linked(fs, base)[|fs| - 1 := Linked(fs, base)[|fs| - 1].(sibling := Some(base + |fs|))])
            + [f]
  {
  }

  /** Before the first fiber of the slot range, `Progress` from 0 and from
      `i` agree while no earlier slot threw. */
  lemma ProgressStep(F: seq<Fiber>, p: FiberId, OC: seq<FiberId>, children: seq<Value>, i: nat)
    requires ChainIn(F, OC) && i < |children|
    requires !TypeThrows(OC, children, i) && !(i > 0 && |Created(F, p, OC, children, i)| == 0)
    ensures Progress(F, p, OC, children, i) == Progress(F, p, OC, children, i + 1)
  {
  }

  /** Appending the created fibers keeps the arena well formed. */
  lemma {:induction false} ArenaAfterWellFormed(F: seq<Fiber>, order: seq<nat>, p: FiberId, OC: seq<FiberId>,
                                                 children: seq<Value>, k: nat)
    requires WellFormed(F, order) && p < |F| && ChainIn(F, OC) && k <= |children|
    ensures var A := ArenaAfter(F, p, OC, children, k);
            WellFormed(A, order + seq(|A| - |F|, j requires 0 <= j < |A| - |F| => |F| + j))
  {
    var A := ArenaAfter(F, p, OC, children, k);
    var cs := Created(F, p, OC, children, k);
    var order' := order + seq(|A| - |F|, j requires 0 <= j < |A| - |F| => |F| + j);
    CreatedParents(F, p, OC, children, k);
    CreatedAlternates(F, p, OC, children, k);
    forall i | 0 <= i < |A| ensures LinksOk(A, order', i) {
      if i < |F| {
        assert LinksOk(F, order, i);
        if i == p && A[p].child.Some? && k > 0 {
          CreatedAt(F, p, OC, children, 0, k);
          assert cs[0] in cs;
        }
      } else {
        var j := i - |F|;
        assert cs[j] in cs;
        assert A[i].alternate.Some? ==> A[i].alternate.value < |F|;
      }
    }
  }

  lemma {:induction false} DeletedInChain(F: seq<Fiber>, OC: seq<FiberId>, children: seq<Value>, k: nat)
    requires ChainIn(F, OC) && k <= |children|
    ensures ChainIn(F, Deleted(F, OC, children, k))
  {
    if k > 0 {
      DeletedInChain(F, OC, children, k - 1);
    }
  }

  /** `Progress` at slot `i`, one step unfolded. */
  lemma ProgressAt(F: seq<Fiber>, p: FiberId, OC: seq<FiberId>, children: seq<Value>, i: nat)
    requires ChainIn(F, OC) && i < |children|
    ensures TypeThrows(OC, children, i) ==> Progress(F, p, OC, children, i) == (i, false)
    ensures !TypeThrows(OC, children, i) && i > 0 && |Created(F, p, OC, children, i)| == 0 ==>
              Progress(F, p, OC, children, i) == (i + 1, false)
    ensures !TypeThrows(OC, children, i) && !(i > 0 && |Created(F, p, OC, children, i)| == 0) ==>
              Progress(F, p, OC, children, i) == Progress(F, p, OC, children, i + 1)
  {
  }

  /** The arena's old fibers are as they were, but for `fiber.child`. */
  lemma ArenaAfterKeepsOld(F: seq<Fiber>, p: FiberId, OC: seq<FiberId>, children: seq<Value>, k: nat)
    requires p < |F| && ChainIn(F, OC) && k <= |children|
    ensures var A := ArenaAfter(F, p, OC, children, k);
            A[..|F|] == F[p := F[p].(child := A[p].child)]
  {
    var A := ArenaAfter(F, p, OC, children, k);
    assert A[..|F|] == F[p := F[p].(child := FirstChild(F, p, OC, children, k))];
  }

  /** Queueing slot `i`'s old fiber when it is deleted extends the queue by
      exactly the next entry of `Deleted`. */
  lemma DeletedStep(F: seq<Fiber>, OC: seq<FiberId>, children: seq<Value>, i: nat, D: seq<FiberId>, x: FiberId)
    requires ChainIn(F, OC) && i < |children|
    requires Deletes(F, OC, children, i) ==> x == OC[i]
    ensures (if Deletes(F, OC, children, i) then D + Deleted(F, OC, children, i) + [x] else D + Deleted(F, OC, children, i))
            == D + Deleted(F, OC, children, i + 1)
  {
    if Deletes(F, OC, children, i) {
      assert D + Deleted(F, OC, children, i) + [x] == D + (Deleted(F, OC, children, i) + [OC[i]]);
    } else {
      assert Deleted(F, OC, children, i + 1) == Deleted(F, OC, children, i) + [];
    }
  }

  /** Everything a call queues for deletion is a fiber of the arena. */
  lemma QueuedIn(F: seq<Fiber>, OC: seq<FiberId>, children: seq<Value>, k: nat, ok: bool)
    requires ChainIn(F, OC) && k <= |children|
    ensures ChainIn(F, Deleted(F, OC, children, k) + (if ok then Surplus(OC, |children|) else []))
  {
    DeletedInChain(F, OC, children, k);
  }

  lemma {:induction false} CreatedParents(F: seq<Fiber>, p: FiberId, OC: seq<FiberId>, children: seq<Value>, k: nat)
    requires ChainIn(F, OC) && k <= |children|
    ensures forall f :: f in Created(F, p, OC, children, k) ==> f.parent == Some(p) && f.child.None? && f.sibling.None?
  {
    if k > 0 {
      CreatedParents(F, p, OC, children, k - 1);
    }
  }

  lemma {:induction false} CreatedAlternates(F: seq<Fiber>, p: FiberId, OC: seq<FiberId>, children: seq<Value>, k: nat)
    requires ChainIn(F, OC) && k <= |children|
    ensures forall f :: f in Created(F, p, OC, children, k) ==>
              (f.alternate.Some? ==> f.alternate.value in OC) && f.stateHooks.None?
              && f.effectHooks.None?
              && (f.dom.Some? ==> exists j :: 0 <= j < |OC| && f.dom == F[OC[j]].dom)
  {
    if k > 0 {
      CreatedAlternates(F, p, OC, children, k - 1);
    }
  }

  // ---------------------------------------------------------------------
  // What reconciliation promises

  /** A slot whose old fiber has the child's `type` yields an "update" fiber
      that reuses the old host node, links the old fiber as its alternate
      and carries the child's props. */
  lemma UpdateSlot(F: seq<Fiber>, p: FiberId, OC: seq<FiberId>, children: seq<Value>, i: nat, k: nat)
    requires p < |F| && ChainIn(F, OC) && i < k <= |children|
    requires IsUpdate(F, OC, children, i)
    ensures var A := ArenaAfter(F, p, OC, children, k);
            var at := |F| + |Created(F, p, OC, children, i)|;
            && at < |A|
            && A[at].effectTag == Update
            && A[at].dom == F[OC[i]].dom
            && A[at].alternate == Some(OC[i])
            && A[at].elemType == F[OC[i]].elemType
            && A[at].props == ChildProps(children[i])
            && A[at].parent == Some(p)
  {
    CreatedAt(F, p, OC, children, i, k);
  }

  /** Any other truthy child yields a "placement" fiber with no host node
      and no alternate, and the old fiber at its position, if any, is
      queued for deletion. */
  lemma PlacementSlot(F: seq<Fiber>, p: FiberId, OC: seq<FiberId>, children: seq<Value>, i: nat, k: nat)
    requires p < |F| && ChainIn(F, OC) && i < k <= |children|
    requires !IsUpdate(F, OC, children, i) && Truthy(children[i])
    ensures var A := ArenaAfter(F, p, OC, children, k);
            var at := |F| + |Created(F, p, OC, children, i)|;
            && at < |A|
            && A[at].effectTag == Placement
            && A[at].dom.None?
            && A[at].alternate.None?
            && A[at].elemType == ChildType(children[i]).value
            && A[at].props == ChildProps(children[i])
    ensures i < |OC| ==> OC[i] in Deleted(F, OC, children, k)
  {
    CreatedAt(F, p, OC, children, i, k);
    if i < |OC| {
      DeletedAt(F, OC, children, i, k);
    }
  }

  lemma {:induction false} DeletedAt(F: seq<Fiber>, OC: seq<FiberId>, children: seq<Value>, i: nat, k: nat)
    requires ChainIn(F, OC) && i < k <= |children| && Deletes(F, OC, children, i)
    ensures OC[i] in Deleted(F, OC, children, k)
    decreases k
  {
    if k > i + 1 {
      DeletedAt(F, OC, children, i, k - 1);
    }
  }

  /** Every old fiber within the first `k` positions is either reused by
      exactly one update fiber or queued for deletion exactly once. */
  lemma {:induction false} ReusedOrDeleted(F: seq<Fiber>, OC: seq<FiberId>, children: seq<Value>, k: nat)
    requires ChainIn(F, OC) && k <= |children|
    ensures |Deleted(F, OC, children, k)| + |Reused(F, OC, children, k)| == if k < |OC| then k else |OC|
  {
    if k > 0 {
      ReusedOrDeleted(F, OC, children, k - 1);
    }
  }

  /** A completed call accounts for the whole old chain: the deletions it
      queues and the old fibers it reuses together number `|OC|`; the old
      fibers past the last child are queued, in chain order, at the end. */
  lemma OldChainAccountedFor(F: seq<Fiber>, OC: seq<FiberId>, children: seq<Value>)
    requires ChainIn(F, OC)
    ensures |NewDeletions(F, OC, children)| + |Reused(F, OC, children, |children|)| == |OC|
    ensures |children| < |OC| ==> NewDeletions(F, OC, children)[|NewDeletions(F, OC, children)| - (|OC| - |children|)..]
                                  == OC[|children|..]
  {
    ReusedOrDeleted(F, OC, children, |children|);
  }

  /** The chain of `Linked(fs, base)` placed at `base` is `base, base + 1, ...` */
  lemma {:induction false} LinkedChain(A: seq<Fiber>, order: seq<nat>, base: nat, m: nat, j: nat)
    requires WellFormed(A, order) && base + m <= |A| && j < m
    requires forall t :: base <= t < base + m ==> A[t].sibling == (if t + 1 < base + m then Some(t + 1) else None)
    ensures Chain(A, order, Some(base + j)) == seq(m - j, t requires 0 <= t < m - j => base + j + t)
    decreases m - j
  {
    if j + 1 < m {
      LinkedChain(A, order, base, m, j + 1);
    }
  }

  /** After a completed call, the chain that starts at `fiber.child` is
      exactly the created fibers, in the order of the children that
      yielded them. */
  lemma NewChainFollowsChildren(F: seq<Fiber>, order: seq<nat>, p: FiberId, OC: seq<FiberId>, children: seq<Value>)
    requires WellFormed(F, order) && p < |F| && ChainIn(F, OC) && |children| > 0
    requires Progress(F, p, OC, children, 0).1
    ensures var n := |children|;
            var A := ArenaAfter(F, p, OC, children, n);
            var order' := order + seq(|A| - |F|, j requires 0 <= j < |A| - |F| => |F| + j);
            var cs := Created(F, p, OC, children, n);
            && WellFormed(A, order')
            && A[p].child.Some? == (|cs| > 0)
            && (A[p].child.Some? ==>
                  A[p].child.value < |A| && Chain(A, order', A[p].child) == seq(|cs|, j requires 0 <= j < |cs| => |F| + j))
            && (forall j :: 0 <= j < |cs| ==> A[|F| + j].(sibling := None) == cs[j])
  {
    var n := |children|;
    var A := ArenaAfter(F, p, OC, children, n);
    var order' := order + seq(|A| - |F|, j requires 0 <= j < |A| - |F| => |F| + j);
    var cs := Created(F, p, OC, children, n);
    ArenaAfterWellFormed(F, order, p, OC, children, n);
    CompletedFirstSlot(F, p, OC, children, 0);
    if Produces(F, OC, children, 0) {
      CreatedAt(F, p, OC, children, 0, n);
    } else {
      assert n == 1;
      assert Created(F, p, OC, children, 1) == [];
    }
    forall j | 0 <= j < |cs| ensures A[|F| + j].(sibling := None) == cs[j] {
      CreatedParents(F, p, OC, children, n);
      assert cs[j] in cs;
    }
    if |cs| > 0 {
      LinkedChain(A, order', |F|, |cs|, 0);
    }
  }

  /** A completed call with more than one child had a fiber from slot 0. */
  lemma {:induction false} CompletedFirstSlot(F: seq<Fiber>, p: FiberId, OC: seq<FiberId>, children: seq<Value>, i: nat)
    requires ChainIn(F, OC) && i <= |children| && Progress(F, p, OC, children, i).1
    requires i <= 1 && (i == 1 ==> |children| > 1 ==> Produces(F, OC, children, 0))
    ensures |children| > 1 ==> Produces(F, OC, children, 0)
    decreases |children| - i
  {
    if i == 0 && |children| > 1 {
      assert !TypeThrows(OC, children, 0);
      assert Progress(F, p, OC, children, 0) == Progress(F, p, OC, children, 1);
      assert Created(F, p, OC, children, 1) == (if Produces(F, OC, children, 0) then [NewFiber(F, p, OC, children, 0)] else []);
    }
  }

  /** Positional diffing: when every child keeps the `type` of the old fiber
      at its position, the call completes, deletes nothing, and slot `i`
      reuses the host node of the old fiber at position `i`, whatever
      logical item the child stands for (a reordered list is updated in
      place, not moved). */
  lemma {:induction false} SameTypesReusePositions(F: seq<Fiber>, p: FiberId, OC: seq<FiberId>, children: seq<Value>)
    requires p < |F| && ChainIn(F, OC) && |children| == |OC|
    requires forall i :: 0 <= i < |children| ==> children[i].Elem? && children[i].elemType == F[OC[i]].elemType
    ensures Progress(F, p, OC, children, 0) == (|children|, true)
    ensures NewDeletions(F, OC, children) == []
    ensures |Created(F, p, OC, children, |children|)| == |children|
    ensures forall i :: 0 <= i < |children| ==>
              ArenaAfter(F, p, OC, children, |children|)[|F| + i].dom == F[OC[i]].dom
              && ArenaAfter(F, p, OC, children, |children|)[|F| + i].alternate == Some(OC[i])
  {
    var n := |children|;
    AllUpdates(F, p, OC, children, n);
    AllUpdatesProgress(F, p, OC, children, 0);
    forall i | 0 <= i < n
      ensures ArenaAfter(F, p, OC, children, n)[|F| + i].dom == F[OC[i]].dom
      ensures ArenaAfter(F, p, OC, children, n)[|F| + i].alternate == Some(OC[i])
    {
      AllUpdates(F, p, OC, children, i);
      UpdateSlot(F, p, OC, children, i, n);
    }
  }

  lemma {:induction false} AllUpdates(F: seq<Fiber>, p: FiberId, OC: seq<FiberId>, children: seq<Value>, k: nat)
    requires ChainIn(F, OC) && |children| == |OC| && k <= |children|
    requires forall i :: 0 <= i < |children| ==> children[i].Elem? && children[i].elemType == F[OC[i]].elemType
    ensures |Created(F, p, OC, children, k)| == k
    ensures Deleted(F, OC, children, k) == []
  {
    if k > 0 {
      AllUpdates(F, p, OC, children, k - 1);
      assert IsUpdate(F, OC, children, k - 1);
    }
  }

  lemma {:induction false} AllUpdatesProgress(F: seq<Fiber>, p: FiberId, OC: seq<FiberId>, children: seq<Value>, i: nat)
    requires ChainIn(F, OC) && |children| == |OC| && i <= |children|
    requires forall i :: 0 <= i < |children| ==> children[i].Elem? && children[i].elemType == F[OC[i]].elemType
    ensures Progress(F, p, OC, children, i) == (|children|, true)
    decreases |children| - i
  {
    if i < |children| {
      AllUpdates(F, p, OC, children, i);
      AllUpdatesProgress(F, p, OC, children, i + 1);
    }
  }
}
