/** The loops of the render phase, on the arena as a value:
    `reconcileChildren`'s walk over the children and the old chain, and
    the fold of a state hook's queue. */
module RenderPhase {
  import opened Values
  import opened Arena
  import opened Reconcile
  import opened Hooks

  /** The fiber a slot yields, from the old fiber at its position: an
      "update" fiber when the types match, else a "placement" fiber for a
      truthy child, else none. */
  function SlotFiber(F: seq<Fiber>, p: FiberId, oldFiber: Option<FiberId>, child: Value): Option<Fiber>
    requires oldFiber.Some? ==> oldFiber.value < |F| && !IsNullish(child)
  {
    if oldFiber.Some? && F[oldFiber.value].elemType == ChildType(child).value then
      Some(Fiber(ChildType(child).value, ChildProps(child), F[oldFiber.value].dom, Some(p), None, None,
                 Update, oldFiber, None, None))
    else if Truthy(child) then
      Some(Fiber(ChildType(child).value, ChildProps(child), None, Some(p), None, None, Placement, None, None, None))
    else None
  }

  /** With `oldFiber` at position `i` of the old chain, `SlotFiber` yields
      exactly the fiber the specification of slot `i` creates. */
  lemma SlotFiberIsNewFiber(F: seq<Fiber>, p: FiberId, OC: seq<FiberId>, children: seq<Value>, i: nat,
                            oldFiber: Option<FiberId>)
    requires ChainIn(F, OC) && i < |children| && !TypeThrows(OC, children, i)
    requires oldFiber == if i < |OC| then Some(OC[i]) else None
    ensures var f := SlotFiber(F, p, oldFiber, children[i]);
            && (f.Some? <==> Produces(F, OC, children, i))
            && (f.Some? ==> f.value == NewFiber(F, p, OC, children, i))
  {
  }

  /** The first half of one turn of the loop in `reconcileChildren` over
      the children, at slot `i` with `oldFiber` at the old chain's `i`-th
      fiber: the fiber the slot yields, whether the old fiber is queued for
      deletion, and the next old fiber.  `typeOk` is false when
      `child.type` cannot be read, which throws. */
  method SlotStart(F: seq<Fiber>, ghost order: seq<nat>, p: FiberId, ghost OC: seq<FiberId>,
                   children: seq<Value>, i: nat, oldFiber: Option<FiberId>)
    returns (newFiber: Option<Fiber>, del: bool, nextOld: Option<FiberId>, typeOk: bool)
    requires WellFormed(F, order) && ChainIn(F, OC) && i < |children|
    requires oldFiber.Some? ==> oldFiber.value < |F|
    requires Chain(F, order, oldFiber) == Surplus(OC, i)
    ensures typeOk <==> !TypeThrows(OC, children, i)
    ensures typeOk ==>
              && newFiber == (if Produces(F, OC, children, i) then Some(NewFiber(F, p, OC, children, i)) else None)
              && (del <==> Deletes(F, OC, children, i))
              && (del ==> oldFiber == Some(OC[i]))
              && (nextOld.Some? ==> nextOld.value < |F|)
              && Chain(F, order, nextOld) == Surplus(OC, i + 1)
  {
    var child := children[i];
    if oldFiber.Some? {
      ChainStep(F, order, oldFiber);
    }
    assert oldFiber == if i < |OC| then Some(OC[i]) else None;
    if oldFiber.Some? && IsNullish(child) {
      // `child.type` on null or undefined
      return None, false, None, false;
    }
    newFiber := SlotFiber(F, p, oldFiber, child);
    SlotFiberIsNewFiber(F, p, OC, children, i, oldFiber);
    del := oldFiber.Some? && F[oldFiber.value].elemType != ChildType(child).value;
    nextOld := if oldFiber.Some? then F[oldFiber.value].sibling else None;
    typeOk := true;
  }

  /** The second half of the turn: the slot's fiber, if any, joins the
      arena and is linked from `fiber.child` (slot 0) or from `prevChild`'s
      `sibling`, which throws when no fiber has been created yet. */
  method LinkSlot(F: seq<Fiber>, p: FiberId, ghost OC: seq<FiberId>, children: seq<Value>, i: nat,
                  fs: seq<Fiber>, prevChild: Option<FiberId>, newFiber: Option<Fiber>)
    returns (fs': seq<Fiber>, prevChild': Option<FiberId>, ok: bool)
    requires p < |F| && ChainIn(F, OC) && i < |children|
    requires fs == ArenaAfter(F, p, OC, children, i)
    requires prevChild == if |Created(F, p, OC, children, i)| == 0 then None else Some(|fs| - 1)
    requires newFiber == if Produces(F, OC, children, i) then Some(NewFiber(F, p, OC, children, i)) else None
    ensures fs' == ArenaAfter(F, p, OC, children, i + 1)
    ensures ok <==> !(i > 0 && |Created(F, p, OC, children, i)| == 0)
    ensures ok ==> prevChild' == if |Created(F, p, OC, children, i + 1)| == 0 then None else Some(|fs'| - 1)
  {
    ArenaAfterStep(F, p, OC, children, i);
    var newId: Option<FiberId> := None;
    fs' := fs;
    if newFiber.Some? {
      newId := Some(|fs|);
      fs' := fs + [newFiber.value];
    }
    if i == 0 {
      fs' := fs'[p := fs'[p].(child := newId)];
    } else {
      if prevChild.None? {
        // `prevChild.sibling` on null
        return fs', prevChild, false;
      }
      fs' := fs'[prevChild.value := fs'[prevChild.value].(sibling := newId)];
    }
    prevChild' := if newId.Some? then newId else prevChild;
    ok := true;
  }

  /** The loop after the children: every old fiber from `oldFiber` on, in
      chain order, is queued for deletion. */
  method QueueRest(F: seq<Fiber>, ghost order: seq<nat>, oldFiber: Option<FiberId>, dels: seq<FiberId>)
    returns (dels': seq<FiberId>)
    requires WellFormed(F, order) && (oldFiber.Some? ==> oldFiber.value < |F|)
    ensures dels' == dels + Chain(F, order, oldFiber)
  {
    dels' := dels;
    var o: Option<FiberId> := oldFiber;
    while o.Some?
      invariant o.Some? ==> o.value < |F|
      invariant dels' + Chain(F, order, o) == dels + Chain(F, order, oldFiber)
      decreases Measure(F, order, o)
    {
      ChainStep(F, order, o);
      assert LinksOk(F, order, o.value);
      dels' := dels' + [o.value];
      o := F[o.value].sibling;
    }
  }

  /** The state of `reconcileChildren` after its first `i` slots: the
      arena and the deletion queue of the specification, the old fiber at
      position `i` of the old chain, and `prevChild` the last fiber
      created, if any. */
  ghost predicate AfterSlots(F: seq<Fiber>, order: seq<nat>, p: FiberId, OC: seq<FiberId>, children: seq<Value>,
                             D: seq<FiberId>, i: nat, fs: seq<Fiber>, dels: seq<FiberId>,
                             oldFiber: Option<FiberId>, prevChild: Option<FiberId>)
    requires WellFormed(F, order) && p < |F| && ChainIn(F, OC) && i <= |children|
  {
    && fs == ArenaAfter(F, p, OC, children, i)
    && dels == D + Deleted(F, OC, children, i)
    && (oldFiber.Some? ==> oldFiber.value < |F|)
    && Chain(F, order, oldFiber) == Surplus(OC, i)
    && prevChild == if |Created(F, p, OC, children, i)| == 0 then None else Some(|fs| - 1)
  }

  /** One turn of the loop in `reconcileChildren` over the children, at
      slot `i`.  When the turn completes, the arena, the queue, the old
      fiber and `prevChild` are those of the specification after slot `i`;
      when it throws, the arena and the queue are those at the slot where
      the specification stops. */
  method ReconcileSlot(F: seq<Fiber>, ghost order: seq<nat>, p: FiberId, ghost OC: seq<FiberId>,
                       children: seq<Value>, D: seq<FiberId>, i: nat, fs: seq<Fiber>, dels: seq<FiberId>,
                       oldFiber: Option<FiberId>, prevChild: Option<FiberId>)
    returns (fs': seq<Fiber>, dels': seq<FiberId>, oldFiber': Option<FiberId>, prevChild': Option<FiberId>, ok: bool)
    requires WellFormed(F, order) && p < |F| && ChainIn(F, OC) && i < |children|
    requires AfterSlots(F, order, p, OC, children, D, i, fs, dels, oldFiber, prevChild)
    ensures ok ==> Progress(F, p, OC, children, i) == Progress(F, p, OC, children, i + 1)
    ensures ok ==> AfterSlots(F, order, p, OC, children, D, i + 1, fs', dels', oldFiber', prevChild')
    ensures !ok ==> var k := Progress(F, p, OC, children, i).0;
                    && !Progress(F, p, OC, children, i).1
                    && fs' == ArenaAfter(F, p, OC, children, k)
                    && dels' == D + Deleted(F, OC, children, k)
  {
    fs', dels', oldFiber', prevChild', ok := SlotTurn(F, order, p, OC, children, D, i, fs, dels, oldFiber, prevChild);
  }

  /** `ReconcileSlot` with its state spelled out. */
  method SlotTurn(F: seq<Fiber>, ghost order: seq<nat>, p: FiberId, ghost OC: seq<FiberId>,
                  children: seq<Value>, D: seq<FiberId>, i: nat, fs: seq<Fiber>, dels: seq<FiberId>,
                  oldFiber: Option<FiberId>, prevChild: Option<FiberId>)
    returns (fs': seq<Fiber>, dels': seq<FiberId>, oldFiber': Option<FiberId>, prevChild': Option<FiberId>, ok: bool)
    requires WellFormed(F, order) && p < |F| && ChainIn(F, OC) && i < |children|
    requires fs == ArenaAfter(F, p, OC, children, i)
    requires dels == D + Deleted(F, OC, children, i)
    requires oldFiber.Some? ==> oldFiber.value < |F|
    requires Chain(F, order, oldFiber) == Surplus(OC, i)
    requires prevChild == if |Created(F, p, OC, children, i)| == 0 then None else Some(|fs| - 1)
    ensures ok ==> Progress(F, p, OC, children, i) == Progress(F, p, OC, children, i + 1)
    ensures ok ==> && fs' == ArenaAfter(F, p, OC, children, i + 1)
                   && dels' == D + Deleted(F, OC, children, i + 1)
                   && (oldFiber'.Some? ==> oldFiber'.value < |F|)
                   && Chain(F, order, oldFiber') == Surplus(OC, i + 1)
                   && prevChild' == if |Created(F, p, OC, children, i + 1)| == 0 then None else Some(|fs'| - 1)
    ensures !ok ==> var k := Progress(F, p, OC, children, i).0;
                    && !Progress(F, p, OC, children, i).1
                    && fs' == ArenaAfter(F, p, OC, children, k)
                    && dels' == D + Deleted(F, OC, children, k)
  {
    ProgressAt(F, p, OC, children, i);
    var newFiber, del, nextOld, typeOk := SlotStart(F, order, p, OC, children, i, oldFiber);
    if !typeOk {
      return fs, dels, oldFiber, prevChild, false;
    }
    DeletedStep(F, OC, children, i, D, if del then oldFiber.value else 0);
    dels' := if del then dels + [oldFiber.value] else dels;
    fs', prevChild', ok := LinkSlot(F, p, OC, children, i, fs, prevChild, newFiber);
    oldFiber' := nextOld;
  }

  /** `let oldFiber = fiber.alternate?.child`: the head of the old chain. */
  method FirstOldFiber(F: seq<Fiber>, ghost order: seq<nat>, p: FiberId) returns (oldFiber: Option<FiberId>)
    requires WellFormed(F, order) && p < |F|
    ensures oldFiber.Some? ==> oldFiber.value < |F|
    ensures Chain(F, order, oldFiber) == OldChain(F, order, p)
  {
    oldFiber := None;
    if F[p].alternate.Some? {
      assert LinksOk(F, order, p);
      assert LinksOk(F, order, F[p].alternate.value);
      oldFiber := F[F[p].alternate.value].child;
    }
  }

  /** `reconcileChildren(fiber, children)` on the arena `F` and the
      deletion queue `D`: the arena, the queue and the outcome are exactly
      those of the specification in `Reconcile`, run up to the slot where
      the source throws, if any. */
  method ReconcileArena(F: seq<Fiber>, ghost order: seq<nat>, p: FiberId, children: seq<Value>, D: seq<FiberId>)
    returns (fs: seq<Fiber>, dels: seq<FiberId>, ok: bool)
    requires WellFormed(F, order) && p < |F|
    ensures var OC := OldChain(F, order, p);
            var k := Progress(F, p, OC, children, 0).0;
            && ok == Progress(F, p, OC, children, 0).1
            && fs == ArenaAfter(F, p, OC, children, k)
            && dels == D + Deleted(F, OC, children, k) + (if ok then Surplus(OC, |children|) else [])
  {
    ghost var OC := OldChain(F, order, p);
    ghost var progress := Progress(F, p, OC, children, 0);
    fs, dels := F, D;
    var oldFiber := FirstOldFiber(F, order, p);
    var prevChild: Option<FiberId> := None;
    NoSlots(F, order, p, OC, children, D, oldFiber);
    var i := 0;
    while i < |children|
      invariant 0 <= i <= |children|
      invariant progress == Progress(F, p, OC, children, i)
      invariant AfterSlots(F, order, p, OC, children, D, i, fs, dels, oldFiber, prevChild)
    {
      var linked;
      fs, dels, oldFiber, prevChild, linked := ReconcileSlot(F, order, p, OC, children, D, i, fs, dels, oldFiber, prevChild);
      if !linked {
        assert !progress.1 && fs == ArenaAfter(F, p, OC, children, progress.0);
        return fs, dels, false;
      }
      i := i + 1;
    }
    assert progress == (|children|, true);
    dels := QueueRest(F, order, oldFiber, dels);
    return fs, dels, true;
  }

  /** Before the first slot: the arena and the queue are untouched, and the
      old fiber heads the old chain. */
  lemma NoSlots(F: seq<Fiber>, order: seq<nat>, p: FiberId, OC: seq<FiberId>, children: seq<Value>,
                D: seq<FiberId>, oldFiber: Option<FiberId>)
    requires WellFormed(F, order) && p < |F| && ChainIn(F, OC)
    requires (oldFiber.Some? ==> oldFiber.value < |F|) && Chain(F, order, oldFiber) == OC
    ensures AfterSlots(F, order, p, OC, children, D, 0, F, D, oldFiber, None)
  {
    assert F[p := F[p].(child := F[p].child)] == F;
    assert Linked([], |F|) == [];
    assert Surplus(OC, 0) == OC by {
      if 0 < |OC| {
        assert OC[0..] == OC;
      }
    }
  }

  /** `stateHook.queue.forEach(action => { stateHook.state = action(stateHook.state) })` */
  method DrainQueue(update: Updater, q: seq<Action>, s: Value) returns (s': Value)
    ensures s' == DrainFromFront(update, q, s)
  {
    s' := s;
    var i := 0;
    while i < |q|
      invariant 0 <= i <= |q| && s' == Drain(update, q[..i], s)
    {
      assert q[..i + 1][..i] == q[..i];
      s' := Apply(update, q[i], s');
      i := i + 1;
    }
    assert q[..i] == q;
    DrainInOrder(update, q, s);
  }
}
