/** The runtime's module-level state (`nextWorkOfUnit`, `wipRoot`,
    `wipFiber`, `currentRoot`, `deletions`, `stateHooks`, `stateIndex`,
    `effectHooks`) and the operations that update it in place: `render`,
    `performWorkOfUnit` with `reconcileChildren`, the hooks, and the commit.
    Fibers, state cells, queues and effect cells are objects in the source;
    here each kind lives in an arena field and is named by its index. */
module Runtime {
  import opened Values
  import opened Element
  import opened Host
  import opened Arena
  import opened Reconcile
  import opened Hooks
  import opened Effects
  import opened Commit
  import opened RenderPhase
  import opened CommitPhase

  /** A hook call a component makes while it renders.  Its arguments are
      functions of the states the component's earlier `useState` calls
      returned in this render, which is all a component's code can see of
      its state when it makes the call. */
  datatype HookCall =
    | CallUseState(initial: seq<Value> -> Value)
    | CallUseEffect(callback: seq<Value> -> nat, deps: seq<Value> -> seq<Value>)

  /** The user code the runtime calls, as functions of their inputs:
      `hooks(fn, props)` the hook calls the component `fn` makes, in order
      (which and how many do not depend on its state, as hooks must be
      called unconditionally);
      `view(fn, props, states)` the element it returns, given what its
      `useState` calls returned; `update(fn, s)` an update function's
      result; `effect(fn)` the cleanup an effect callback returns. */
  datatype Closures = Closures(
    hooks: (nat, Option<Props>) -> seq<HookCall>,
    view: (nat, Option<Props>, seq<Value>) -> Value,
    update: Updater,
    effect: nat -> Option<nat>)

  /** The `setState` closure `useState` returns: the fiber it was created
      for and its state cell. */
  datatype Setter = Setter(fiber: FiberId, cell: nat)

  /** The number of `useState` calls in a hook script. */
  function CountStates(script: seq<HookCall>): nat {
    if script == [] then 0
    else CountStates(script[..|script| - 1]) + (if script[|script| - 1].CallUseState? then 1 else 0)
  }

  /** A prefix of a script makes no more `useState` calls than the script. */
  lemma {:induction false} CountStatesPrefix(script: seq<HookCall>, k: nat)
    requires k <= |script|
    ensures CountStates(script[..k]) <= CountStates(script)
    decreases |script|
  {
    if k < |script| {
      CountStatesPrefix(script[..|script| - 1], k);
      assert script[..|script| - 1][..k] == script[..k];
    } else {
      assert script[..k] == script;
    }
  }

  lemma CountStep(script: seq<HookCall>, i: nat)
    requires i < |script|
    ensures CountStates(script[..i + 1]) == CountStates(script[..i]) + if script[i].CallUseState? then 1 else 0
    ensures CountEffects(script[..i + 1]) == CountEffects(script[..i]) + if script[i].CallUseEffect? then 1 else 0
  {
    assert script[..i + 1][..i] == script[..i];
  }

  /** The number of `useEffect` calls in a hook script. */
  function CountEffects(script: seq<HookCall>): nat {
    if script == [] then 0
    else CountEffects(script[..|script| - 1]) + (if script[|script| - 1].CallUseEffect? then 1 else 0)
  }

  /** The fiber `render(el, container)` creates. */
  function RootFiber(el: Value, container: HostNode): Fiber {
    Fiber(Undefined, Some(map["children" := List([el])]), Some(container), None, None, None, Untagged, None, None, None)
  }

  /** The state cells of the previous generation of `f`, if it has one. */
  function PriorHooks(F: seq<Fiber>, f: FiberId): Option<seq<nat>>
    requires AlternatesIn(F) && f < |F|
  {
    if F[f].alternate.Some? then F[F[f].alternate.value].stateHooks else None
  }

  /** The fibers are well linked, and everything they name exists. */
  ghost predicate FibersOk(F: seq<Fiber>, order: seq<nat>, E: seq<EffectHook>, nCells: nat, hosts: set<HostNode>) {
    && WellFormed(F, order)
    && RefsIn(F, E)
    && (forall x :: 0 <= x < |F| && F[x].dom.Some? ==> F[x].dom.value in hosts)
    && (forall x, j :: 0 <= x < |F| && F[x].stateHooks.Some? && 0 <= j < |F[x].stateHooks.value| ==>
          F[x].stateHooks.value[j] < nCells)
  }

  lemma {:induction false} FibersOkAfterReconcile(F: seq<Fiber>, order: seq<nat>, E: seq<EffectHook>, nCells: nat,
                                                  H: set<HostNode>, p: FiberId, children: seq<Value>, k: nat)
    requires FibersOk(F, order, E, nCells, H) && p < |F| && k <= |children|
    ensures var OC := OldChain(F, order, p);
            var A := ArenaAfter(F, p, OC, children, k);
            FibersOk(A, order + seq(|A| - |F|, j requires 0 <= j < |A| - |F| => |F| + j), E, nCells, H)
  {
    var OC := OldChain(F, order, p);
    var A := ArenaAfter(F, p, OC, children, k);
    var cs := Created(F, p, OC, children, k);
    ArenaAfterWellFormed(F, order, p, OC, children, k);
    CreatedAlternates(F, p, OC, children, k);
    forall x | 0 <= x < |A|
      ensures A[x].alternate.Some? ==> A[x].alternate.value < |A|
      ensures A[x].effectHooks == (if x < |F| then F[x].effectHooks else None)
      ensures A[x].stateHooks == (if x < |F| then F[x].stateHooks else None)
      ensures A[x].dom.Some? ==> A[x].dom.value in H
    {
      if x >= |F| {
        assert cs[x - |F|] in cs;
        if A[x].dom.Some? {
          var j :| 0 <= j < |OC| && A[x].dom == F[OC[j]].dom;
        }
      }
    }
  }

  lemma {:induction false} FibersOkAfterWrite(F: seq<Fiber>, order: seq<nat>, E: seq<EffectHook>, nCells: nat,
                                              H: set<HostNode>, x: FiberId, f: Fiber)
    requires FibersOk(F, order, E, nCells, H) && x < |F| && SameShape(F[x], f)
    requires f.dom.Some? ==> f.dom.value in H
    requires f.effectHooks.Some? ==> forall j :: 0 <= j < |f.effectHooks.value| ==> f.effectHooks.value[j] < |E|
    requires f.stateHooks.Some? ==> forall j :: 0 <= j < |f.stateHooks.value| ==> f.stateHooks.value[j] < nCells
    ensures FibersOk(F[x := f], order, E, nCells, H)
  {
    SameShapeWellFormed(F, order, x, f);
  }

  lemma FibersOkGrow(F: seq<Fiber>, order: seq<nat>, E: seq<EffectHook>, E': seq<EffectHook>, nCells: nat, nCells': nat,
                     H: set<HostNode>, H': set<HostNode>)
    requires FibersOk(F, order, E, nCells, H) && |E| <= |E'| && nCells <= nCells' && H <= H'
    ensures FibersOk(F, order, E', nCells', H')
  {
  }

  /** Every index in `s` is below `n`. */
  predicate Below(s: seq<nat>, n: nat) {
    forall j :: 0 <= j < |s| ==> s[j] < n
  }

  lemma BelowAppend(s: seq<nat>, x: nat, n: nat, m: nat)
    requires Below(s, n) && n <= m && x < m
    ensures Below(s + [x], m)
  {
  }

  lemma BelowConcat(s: seq<nat>, F: seq<Fiber>, t: seq<FiberId>, m: nat)
    requires Below(s, |F|) && ChainIn(F, t) && |F| <= m
    ensures Below(s + t, m)
  {
  }

  /** The deletion queue after a call of `reconcileChildren` still names
      fibers of the arena. */
  lemma QueueBelow(D: seq<FiberId>, F: seq<Fiber>, OC: seq<FiberId>, children: seq<Value>, k: nat, ok: bool, m: nat)
    requires Below(D, |F|) && ChainIn(F, OC) && k <= |children| && |F| <= m
    ensures Below(D + Deleted(F, OC, children, k) + (if ok then Surplus(OC, |children|) else []), m)
  {
    var t := Deleted(F, OC, children, k) + (if ok then Surplus(OC, |children|) else []);
    QueuedIn(F, OC, children, k, ok);
    BelowConcat(D, F, t, m);
    assert D + Deleted(F, OC, children, k) + (if ok then Surplus(OC, |children|) else []) == D + t;
  }

  /** The stores behind the fibers are consistent: the fibers are well
      formed and name only existing host nodes, state cells and effect
      cells; every effect cell has its `cleanup`; every state cell's queue
      exists. */
  ghost predicate StoreOk(F: seq<Fiber>, order: seq<nat>, cells: seq<Cell>, queues: seq<seq<Action>>,
                          E: seq<EffectHook>, C: seq<Option<nat>>, H: set<HostNode>) {
    && FibersOk(F, order, E, |cells|, H)
    && |C| == |E|
    && forall c :: 0 <= c < |cells| ==> cells[c].queue < |queues|
  }

  /** The runtime's cursors point into the stores: the hook lists into the
      cells, the deletion queue and the fiber markers into the arena of
      `n` fibers. */
  predicate CursorsOk(stateHooks: seq<nat>, nCells: nat, effectHooks: seq<nat>, nEffects: nat, deletions: seq<FiberId>,
                      n: nat, next: Option<FiberId>, wipRoot: Option<FiberId>, wipFiber: Option<FiberId>,
                      currentRoot: Option<FiberId>) {
    && Below(stateHooks, nCells) && Below(effectHooks, nEffects) && Below(deletions, n)
    && (next.Some? ==> next.value < n) && (wipRoot.Some? ==> wipRoot.value < n)
    && (wipFiber.Some? ==> wipFiber.value < n) && (currentRoot.Some? ==> currentRoot.value < n)
  }

  lemma StoreAfterReconcile(F: seq<Fiber>, order: seq<nat>, cells: seq<Cell>, queues: seq<seq<Action>>,
                            E: seq<EffectHook>, C: seq<Option<nat>>, H: set<HostNode>,
                            p: FiberId, children: seq<Value>, k: nat)
    requires StoreOk(F, order, cells, queues, E, C, H) && p < |F| && k <= |children|
    ensures var A := ArenaAfter(F, p, OldChain(F, order, p), children, k);
            StoreOk(A, order + seq(|A| - |F|, j requires 0 <= j < |A| - |F| => |F| + j), cells, queues, E, C, H)
  {
    FibersOkAfterReconcile(F, order, E, |cells|, H, p, children, k);
  }

  lemma StateCellAdded(F: seq<Fiber>, order: seq<nat>, cells: seq<Cell>, queues: seq<seq<Action>>, queues': seq<seq<Action>>,
                       E: seq<EffectHook>, C: seq<Option<nat>>, H: set<HostNode>, f: FiberId, hooks: seq<nat>, cell: Cell)
    requires StoreOk(F, order, cells, queues, E, C, H) && f < |F|
    requires |queues| <= |queues'| && cell.queue < |queues'| && Below(hooks, |cells| + 1)
    ensures StoreOk(F[f := F[f].(stateHooks := Some(hooks))], order, cells + [cell], queues', E, C, H)
  {
    FibersOkGrow(F, order, E, E, |cells|, |cells| + 1, H, H);
    FibersOkAfterWrite(F, order, E, |cells| + 1, H, f, F[f].(stateHooks := Some(hooks)));
  }

  lemma EffectCellAdded(F: seq<Fiber>, order: seq<nat>, cells: seq<Cell>, queues: seq<seq<Action>>,
                        E: seq<EffectHook>, C: seq<Option<nat>>, H: set<HostNode>, hook: EffectHook)
    requires StoreOk(F, order, cells, queues, E, C, H)
    ensures StoreOk(F, order, cells, queues, E + [hook], C + [None], H)
  {
    FibersOkGrow(F, order, E, E + [hook], |cells|, |cells|, H, H);
  }

  lemma EffectCellAddedTo(F: seq<Fiber>, order: seq<nat>, cells: seq<Cell>, queues: seq<seq<Action>>,
                          E: seq<EffectHook>, C: seq<Option<nat>>, H: set<HostNode>,
                          f: FiberId, hook: EffectHook, hooks: seq<nat>)
    requires StoreOk(F, order, cells, queues, E, C, H) && f < |F| && Below(hooks, |E| + 1)
    ensures StoreOk(F[f := F[f].(effectHooks := Some(hooks))], order, cells, queues, E + [hook], C + [None], H)
  {
    EffectCellAdded(F, order, cells, queues, E, C, H, hook);
    FibersOkAfterWrite(F, order, E + [hook], |cells|, H, f, F[f].(effectHooks := Some(hooks)));
  }

  lemma FiberCopied(F: seq<Fiber>, order: seq<nat>, cells: seq<Cell>, queues: seq<seq<Action>>, queues': seq<seq<Action>>,
                    E: seq<EffectHook>, C: seq<Option<nat>>, H: set<HostNode>, f: FiberId)
    requires StoreOk(F, order, cells, queues, E, C, H) && f < |F| && |queues'| == |queues|
    ensures StoreOk(F + [F[f].(alternate := Some(f))], order + [order[f]], cells, queues', E, C, H)
  {
    CopyWellFormed(F, order, f);
    var G := F + [F[f].(alternate := Some(f))];
    assert forall x :: 0 <= x < |F| ==> G[x] == F[x];
  }

  lemma HostAdded(F: seq<Fiber>, order: seq<nat>, cells: seq<Cell>, queues: seq<seq<Action>>,
                  E: seq<EffectHook>, C: seq<Option<nat>>, H: set<HostNode>, f: FiberId, node: HostNode)
    requires StoreOk(F, order, cells, queues, E, C, H) && f < |F| && F[f].dom.None?
    ensures StoreOk(F[f := F[f].(dom := Some(node))], order, cells, queues, E, C, H + {node})
  {
    FibersOkGrow(F, order, E, E, |cells|, |cells|, H, H + {node});
    FibersOkAfterWrite(F, order, E, |cells|, H + {node}, f, F[f].(dom := Some(node)));
  }

  lemma RootAdded(F: seq<Fiber>, order: seq<nat>, cells: seq<Cell>, queues: seq<seq<Action>>,
                  E: seq<EffectHook>, C: seq<Option<nat>>, H: set<HostNode>, el: Value, container: HostNode)
    requires StoreOk(F, order, cells, queues, E, C, H)
    ensures StoreOk(F + [RootFiber(el, container)], order + [|F|], cells, queues, E, C, H + {container})
  {
    RootWellFormed(F, order, RootFiber(el, container));
    var G := F + [RootFiber(el, container)];
    assert forall x :: 0 <= x < |F| ==> G[x] == F[x];
  }

  /** `[base, base + 1, ..., base + n - 1]` */
  function Range(base: nat, n: nat): (r: seq<nat>)
    ensures |r| == n && forall j :: 0 <= j < n ==> r[j] == base + j
  {
    if n == 0 then [] else Range(base, n - 1) + [base + n - 1]
  }

  class Runtime {
    var fibers: seq<Fiber>
    ghost var order: seq<nat>
    var cells: seq<Cell>                     // state hook cells `{state, queue}`
    var queues: seq<seq<Action>>             // the queue arrays the cells share
    var effectCells: seq<EffectHook>         // effect hook cells `{callback, deps}`
    var cleanups: seq<Option<nat>>           // their `cleanup` fields
    var nextWorkOfUnit: Option<FiberId>
    var wipRoot: Option<FiberId>
    var wipFiber: Option<FiberId>
    var currentRoot: Option<FiberId>
    var deletions: seq<FiberId>
    var stateHooks: seq<nat>
    var stateIndex: nat
    var effectHooks: seq<nat>
    var effectLog: seq<EffectCall>           // the effect callbacks and cleanups called
    var domLog: seq<DomOp>                   // the host calls made by the commit
    ghost var hosts: set<HostNode>           // every host node a fiber owns

    ghost predicate Valid()
      reads this
    {
      && StoreOk(fibers, order, cells, queues, effectCells, cleanups, hosts)
      && CursorsOk(stateHooks, |cells|, effectHooks, |effectCells|, deletions, |fibers|,
                   nextWorkOfUnit, wipRoot, wipFiber, currentRoot)
    }

    /** The hook store is as it was. */
    twostate predicate HooksKept()
      reads this
    {
      && cells == old(cells) && queues == old(queues) && effectCells == old(effectCells) && cleanups == old(cleanups)
      && stateHooks == old(stateHooks) && stateIndex == old(stateIndex) && effectHooks == old(effectHooks)
    }

    /** The global fiber markers are as they were. */
    twostate predicate MarkersKept()
      reads this
    {
      nextWorkOfUnit == old(nextWorkOfUnit) && wipRoot == old(wipRoot) && wipFiber == old(wipFiber)
      && currentRoot == old(currentRoot)
    }

    /** The logs are as they were. */
    twostate predicate LogsKept()
      reads this
    {
      effectLog == old(effectLog) && domLog == old(domLog)
    }

    /** The module's initial state. */
    constructor ()
      ensures Valid()
      ensures fibers == [] && deletions == [] && effectLog == [] && domLog == []
      ensures nextWorkOfUnit.None? && wipRoot.None? && wipFiber.None? && currentRoot.None?
      ensures cells == [] && queues == [] && effectCells == [] && cleanups == [] && hosts == {}
      ensures stateHooks == [] && stateIndex == 0 && effectHooks == []
    {
      fibers, order := [], [];
      cells, queues, effectCells, cleanups := [], [], [], [];
      nextWorkOfUnit, wipRoot, wipFiber, currentRoot := None, None, None, None;
      deletions := [];
      stateHooks, stateIndex, effectHooks := [], 0, [];
      effectLog, domLog := [], [];
      hosts := {};
    }

    /** `render(el, container)`: a new root owning `container`, with `el`
        as its only child, becomes both `wipRoot` and the next unit of work. */
    method Render(el: Value, container: HostNode)
      requires Valid()
      modifies this
      ensures Valid()
      ensures fibers == old(fibers) + [RootFiber(el, container)]
      ensures wipRoot == Some(|old(fibers)|) && nextWorkOfUnit == wipRoot
      ensures hosts == old(hosts) + {container}
      ensures HooksKept() && LogsKept() && wipFiber == old(wipFiber) && currentRoot == old(currentRoot)
      ensures deletions == old(deletions)
    {
      RootAdded(fibers, order, cells, queues, effectCells, cleanups, hosts, el, container);
      var n := |fibers|;
      fibers, order, hosts, wipRoot, nextWorkOfUnit := fibers + [RootFiber(el, container)], order + [n], hosts + {container}, Some(n), Some(n);
    }

    /** The end of `performWorkOfUnit`: the fiber's child, else the sibling
        of the closest ancestor-or-self that has one, else nothing. */
    method NextUnit(f: FiberId) returns (next: Option<FiberId>)
      requires Valid() && f < |fibers|
      ensures ParentsBelow(fibers) && next == NextFiber(fibers, f)
    {
      WellFormedParentsBelow(fibers, order);
      if fibers[f].child.Some? {
        return fibers[f].child;
      }
      var nextFiber: Option<FiberId> := Some(f);
      while nextFiber.Some?
        invariant nextFiber.Some? ==> nextFiber.value < |fibers| && Climb(fibers, nextFiber.value) == Climb(fibers, f)
        invariant nextFiber.None? ==> Climb(fibers, f).None?
        decreases if nextFiber.Some? then nextFiber.value + 1 else 0
      {
        if fibers[nextFiber.value].sibling.Some? {
          return fibers[nextFiber.value].sibling;
        }
        nextFiber := fibers[nextFiber.value].parent;
      }
      return None;
    }

    /** `reconcileChildren(fiber, children)`, on the runtime's arena and
        `deletions`. */
    method ReconcileChildren(p: FiberId, children: seq<Value>) returns (ok: bool)
      requires Valid() && p < |fibers|
      modifies this
      ensures Valid()
      ensures var F := old(fibers);
              var OC := OldChain(F, old(order), p);
              var k := Progress(F, p, OC, children, 0).0;
              && ok == Progress(F, p, OC, children, 0).1
              && fibers == ArenaAfter(F, p, OC, children, k)
              && deletions == old(deletions) + Deleted(F, OC, children, k) + (if ok then Surplus(OC, |children|) else [])
      ensures |fibers| >= |old(fibers)|
      ensures fibers[..|old(fibers)|] == old(fibers)[p := old(fibers)[p].(child := fibers[p].child)]
      ensures hosts == old(hosts) && HooksKept() && MarkersKept() && LogsKept()
    {
      var fs, dels;
      fs, dels, ok := ReconcileArena(fibers, order, p, children, deletions);
      ghost var OC := OldChain(fibers, order, p);
      ghost var k := Progress(fibers, p, OC, children, 0).0;
      StoreAfterReconcile(fibers, order, cells, queues, effectCells, cleanups, hosts, p, children, k);
      ArenaAfterKeepsOld(fibers, p, OC, children, k);
      QueueBelow(deletions, fibers, OC, children, k, ok, |fs|);
      var n := |fibers|;
      fibers, order, deletions := fs, order + seq(|fs| - n, j requires 0 <= j < |fs| - n => n + j), dels;
    }

    /** `useState(initial)` while `wipFiber` renders: the new cell starts
        from the cell at the same position in the alternate's hooks (sharing
        its queue) or from `initial` with a fresh queue, applies the queued
        actions left to right, and empties the queue.  It throws when there
        is no `wipFiber`, or when the alternate has hooks but none at this
        position. */
    method UseState(initial: Value, update: Updater) returns (state: Value, setter: Setter, ok: bool)
      requires Valid()
      modifies this
      ensures Valid()
      ensures ok <==> old(wipFiber).Some? &&
                      (PriorHooks(old(fibers), old(wipFiber).value).Some? ==>
                         old(stateIndex) < |PriorHooks(old(fibers), old(wipFiber).value).value|)
      ensures !ok ==> unchanged(this)
      ensures ok ==>
                var f := old(wipFiber).value;
                var prior := PriorHooks(old(fibers), f);
                var c := if prior.Some? then old(cells)[prior.value[old(stateIndex)]] else Cell(initial, |old(queues)|);
                var q := if prior.Some? then old(queues)[c.queue] else [];
                && state == DrainFromFront(update, q, c.state)
                && cells == old(cells) + [Cell(state, c.queue)]
                && queues == (if prior.Some? then old(queues) else old(queues) + [[]])[c.queue := []]
                && stateIndex == old(stateIndex) + 1
                && stateHooks == old(stateHooks) + [|old(cells)|]
                && fibers == old(fibers)[f := old(fibers)[f].(stateHooks := Some(stateHooks))]
                && setter == Setter(f, |old(cells)|)
      ensures order == old(order) && hosts == old(hosts) && MarkersKept() && deletions == old(deletions)
      ensures effectCells == old(effectCells) && cleanups == old(cleanups) && effectHooks == old(effectHooks)
      ensures LogsKept()
    {
      if wipFiber.None? {
        // `currentFiber.alternate` of null
        return Undefined, Setter(0, 0), false;
      }
      var f := wipFiber.value;
      var prior := PriorHooks(fibers, f);
      var c: Cell;
      var qs := queues;
      if prior.Some? {
        if stateIndex >= |prior.value| {
          // `oldHooks[stateIndex].state` of undefined
          return Undefined, Setter(0, 0), false;
        }
        c := cells[prior.value[stateIndex]];
      } else {
        c := Cell(initial, |qs|);
        qs := qs + [[]];
      }
      setter := Setter(f, |cells|);
      state := PushStateCell(f, c, qs, update);
      ok := true;
    }

    /** The end of `useState`, once its cell `c` is chosen and `qs` holds
        the cell's queue: the queue is folded into the state and emptied,
        and the new cell joins `stateHooks`, which becomes the fiber's. */
    method PushStateCell(f: FiberId, c: Cell, qs: seq<seq<Action>>, update: Updater) returns (state: Value)
      requires Valid() && f < |fibers| && |queues| <= |qs| && c.queue < |qs|
      modifies this
      ensures Valid()
      ensures state == DrainFromFront(update, qs[c.queue], c.state)
      ensures cells == old(cells) + [Cell(state, c.queue)] && queues == qs[c.queue := []]
      ensures stateIndex == old(stateIndex) + 1 && stateHooks == old(stateHooks) + [|old(cells)|]
      ensures fibers == old(fibers)[f := old(fibers)[f].(stateHooks := Some(stateHooks))]
      ensures order == old(order) && hosts == old(hosts) && MarkersKept() && deletions == old(deletions)
      ensures effectCells == old(effectCells) && cleanups == old(cleanups) && effectHooks == old(effectHooks)
      ensures LogsKept()
    {
      state := DrainQueue(update, qs[c.queue], c.state);
      var hooks := stateHooks + [|cells|];
      BelowAppend(stateHooks, |cells|, |cells|, |cells| + 1);
      StateCellAdded(fibers, order, cells, queues, qs[c.queue := []], effectCells, cleanups, hosts, f, hooks, Cell(state, c.queue));
      fibers, cells, queues, stateHooks, stateIndex :=
        fibers[f := fibers[f].(stateHooks := Some(hooks))], cells + [Cell(state, c.queue)], qs[c.queue := []], hooks, stateIndex + 1;
    }

    /** `useEffect(callback, deps)`: the hook cell, with no cleanup, joins
        `effectHooks`, which becomes `wipFiber.effectHooks` (assigning it
        throws when there is no `wipFiber`, after the push). */
    method UseEffect(callback: nat, deps: seq<Value>) returns (ok: bool)
      requires Valid()
      modifies this
      ensures Valid()
      ensures ok == old(wipFiber).Some?
      ensures effectCells == old(effectCells) + [EffectHook(callback, deps)] && cleanups == old(cleanups) + [None]
      ensures effectHooks == old(effectHooks) + [|old(effectCells)|]
      ensures fibers == if ok then old(fibers)[old(wipFiber).value := old(fibers)[old(wipFiber).value].(effectHooks := Some(effectHooks))]
                        else old(fibers)
      ensures order == old(order) && hosts == old(hosts) && MarkersKept() && deletions == old(deletions)
      ensures cells == old(cells) && queues == old(queues) && stateHooks == old(stateHooks) && stateIndex == old(stateIndex)
      ensures LogsKept()
    {
      var hook := EffectHook(callback, deps);
      var hooks := effectHooks + [|effectCells|];
      BelowAppend(effectHooks, |effectCells|, |effectCells|, |effectCells| + 1);
      if wipFiber.None? {
        // `wipFiber.effectHooks = ...` on null
        EffectCellAdded(fibers, order, cells, queues, effectCells, cleanups, hosts, hook);
        effectCells, cleanups, effectHooks := effectCells + [hook], cleanups + [None], hooks;
        return false;
      }
      var f := wipFiber.value;
      EffectCellAddedTo(fibers, order, cells, queues, effectCells, cleanups, hosts, f, hook, hooks);
      fibers, effectCells, cleanups, effectHooks :=
        fibers[f := fibers[f].(effectHooks := Some(hooks))], effectCells + [hook], cleanups + [None], hooks;
      ok := true;
    }

    /** A call of the `setState` closure `useState` returned: nothing
        happens when the action leaves the cell's state as it is (compared
        with `===`); otherwise the action is queued, once, and a copy of the
        fiber with the fiber as its alternate becomes `wipRoot` and the next
        unit of work. */
    method SetState(setter: Setter, action: Value, update: Updater)
      requires Valid() && setter.fiber < |fibers| && setter.cell < |cells|
      modifies this
      ensures Valid()
      ensures var c := old(cells)[setter.cell];
              if SetStateSkips(update, action, c.state) then unchanged(this)
              else
                && queues == old(queues)[c.queue := old(queues)[c.queue] + [ToAction(action)]]
                && fibers == old(fibers) + [old(fibers)[setter.fiber].(alternate := Some(setter.fiber))]
                && wipRoot == Some(|old(fibers)|) && nextWorkOfUnit == wipRoot
                && cells == old(cells) && effectCells == old(effectCells) && cleanups == old(cleanups)
                && stateHooks == old(stateHooks) && stateIndex == old(stateIndex) && effectHooks == old(effectHooks)
                && wipFiber == old(wipFiber) && currentRoot == old(currentRoot) && deletions == old(deletions)
                && hosts == old(hosts) && LogsKept()
    {
      var c := cells[setter.cell];
      if IsFunction(action) {
        if update(action.id, c.state) == c.state {
          return;
        }
      } else if action == c.state {
        return;
      }
      Enqueue(setter.fiber, c.queue, ToAction(action));
    }

    /** The end of a `setState` call that does not return early: `a` joins
        the queue `q`, and a copy of the fiber `f` with `f` as its alternate
        becomes `wipRoot` and the next unit of work. */
    method Enqueue(f: FiberId, q: nat, a: Action)
      requires Valid() && f < |fibers| && q < |queues|
      modifies this
      ensures Valid()
      ensures queues == old(queues)[q := old(queues)[q] + [a]]
      ensures fibers == old(fibers) + [old(fibers)[f].(alternate := Some(f))]
      ensures wipRoot == Some(|old(fibers)|) && nextWorkOfUnit == wipRoot
      ensures cells == old(cells) && effectCells == old(effectCells) && cleanups == old(cleanups)
      ensures stateHooks == old(stateHooks) && stateIndex == old(stateIndex) && effectHooks == old(effectHooks)
      ensures wipFiber == old(wipFiber) && currentRoot == old(currentRoot) && deletions == old(deletions)
      ensures hosts == old(hosts) && LogsKept()
    {
      var qs := queues[q := queues[q] + [a]];
      FiberCopied(fibers, order, cells, queues, qs, effectCells, cleanups, hosts, f);
      var n := |fibers|;
      fibers, order, queues, wipRoot, nextWorkOfUnit :=
        fibers + [fibers[f].(alternate := Some(f))], order + [order[f]], qs, Some(n), Some(n);
    }

    /** One hook call of a rendering component, made after its earlier
        `useState` calls returned `states`: `useState`, whose state is
        returned, or `useEffect`. */
    method HookStep(call: HookCall, update: Updater, states: seq<Value>) returns (state: Value, ok: bool)
      requires Valid() && wipFiber.Some?
      modifies this
      ensures Valid() && wipFiber == old(wipFiber) && |fibers| == |old(fibers)|
      ensures PriorHooks(fibers, wipFiber.value) == PriorHooks(old(fibers), wipFiber.value)
      ensures call.CallUseState? ==>
                var prior := PriorHooks(old(fibers), wipFiber.value);
                && (ok <==> (prior.Some? ==> old(stateIndex) < |prior.value|))
                && (ok ==> && stateIndex == old(stateIndex) + 1 && stateHooks == old(stateHooks) + [|old(cells)|]
                           && |cells| == |old(cells)| + 1 && cells[..|old(cells)|] == old(cells)
                           && cells[|old(cells)|].state == state
                           && effectHooks == old(effectHooks) && effectCells == old(effectCells))
      ensures call.CallUseEffect? ==>
                && ok && cells == old(cells) && stateIndex == old(stateIndex) && stateHooks == old(stateHooks)
                && effectHooks == old(effectHooks) + [|old(effectCells)|]
                && effectCells == old(effectCells) + [EffectHook(call.callback(states), call.deps(states))]
      ensures order == old(order) && hosts == old(hosts)
      ensures MarkersKept() && deletions == old(deletions) && LogsKept()
    {
      assert LinksOk(fibers, order, wipFiber.value);
      match call {
        case CallUseState(initial) =>
          var setter;
          state, setter, ok := UseState(initial(states), update);
        case CallUseEffect(callback, deps) =>
          state := Undefined;
          ok := UseEffect(callback(states), deps(states));
      }
    }

    /** The hook globals after the first `i` calls of `script`, which
        started from `nCells` state cells and `nEffects` effect cells:
        `states` holds what the `useState` calls returned, each the state
        of the cell it pushed. */
    ghost predicate HooksAfter(script: seq<HookCall>, i: nat, states: seq<Value>, prior: Option<seq<nat>>,
                               nCells: nat, nEffects: nat)
      requires i <= |script|
      reads this
    {
      && stateIndex == CountStates(script[..i])
      && stateHooks == Range(nCells, CountStates(script[..i]))
      && effectHooks == Range(nEffects, CountEffects(script[..i]))
      && |effectCells| == nEffects + CountEffects(script[..i])
      && |states| == CountStates(script[..i]) == |cells| - nCells
      && (forall j :: 0 <= j < |states| ==> states[j] == cells[nCells + j].state)
      && (prior.Some? ==> CountStates(script[..i]) <= |prior.value|)
    }

    /** One turn of the component's hook calls: call `i` of `script`. */
    method HookTurn(script: seq<HookCall>, i: nat, update: Updater, states: seq<Value>,
                    ghost prior: Option<seq<nat>>, ghost nCells: nat, ghost nEffects: nat)
      returns (states': seq<Value>, ok: bool)
      requires Valid() && wipFiber.Some? && i < |script| && PriorHooks(fibers, wipFiber.value) == prior
      requires HooksAfter(script, i, states, prior, nCells, nEffects)
      modifies this
      ensures Valid() && wipFiber == old(wipFiber) && |fibers| == |old(fibers)|
      ensures PriorHooks(fibers, wipFiber.value) == prior
      ensures ok ==> HooksAfter(script, i + 1, states', prior, nCells, nEffects)
      ensures !ok ==> prior.Some? && CountStates(script[..i + 1]) > |prior.value|
      ensures order == old(order) && hosts == old(hosts)
      ensures MarkersKept() && deletions == old(deletions) && LogsKept()
    {
      CountStep(script, i);
      var state;
      state, ok := HookStep(script[i], update, states);
      states' := if ok && script[i].CallUseState? then states + [state] else states;
      if ok {
        var n := CountStates(script[..i + 1]);
        assert stateIndex == n && stateHooks == Range(nCells, n);
        assert effectHooks == Range(nEffects, CountEffects(script[..i + 1]));
        assert |states'| == n == |cells| - nCells;
        assert forall j :: 0 <= j < |states'| ==> states'[j] == cells[nCells + j].state;
      }
    }

    /** The hook calls a component makes while it renders, in order; it
        stops at the first call that throws.  The `useState` calls read the
        alternate's cells from position 0 on, so they throw exactly when the
        alternate has hooks but fewer than the calls need. */
    method RunHooks(script: seq<HookCall>, update: Updater) returns (states: seq<Value>, ok: bool)
      requires Valid() && wipFiber.Some? && stateIndex == 0 && stateHooks == [] && effectHooks == []
      modifies this
      ensures Valid()
      ensures var prior := PriorHooks(old(fibers), old(wipFiber).value);
              ok <==> (prior.Some? ==> CountStates(script) <= |prior.value|)
      ensures ok ==> && stateIndex == CountStates(script)
                     && stateHooks == Range(|old(cells)|, CountStates(script))
                     && effectHooks == Range(|old(effectCells)|, CountEffects(script))
                     && |states| == CountStates(script) == |cells| - |old(cells)|
                     && forall j :: 0 <= j < |states| ==> states[j] == cells[|old(cells)| + j].state
      ensures |fibers| == |old(fibers)| && order == old(order) && hosts == old(hosts)
      ensures MarkersKept() && deletions == old(deletions) && LogsKept()
    {
      states, ok := [], true;
      ghost var prior := PriorHooks(fibers, wipFiber.value);
      ghost var nCells, nEffects := |cells|, |effectCells|;
      var i := 0;
      while i < |script|
        invariant 0 <= i <= |script|
        invariant Valid() && wipFiber == old(wipFiber) && |fibers| == |old(fibers)|
        invariant PriorHooks(fibers, wipFiber.value) == prior
        invariant HooksAfter(script, i, states, prior, nCells, nEffects)
        invariant order == old(order) && hosts == old(hosts)
        invariant MarkersKept() && deletions == old(deletions) && LogsKept()
      {
        var stepOk;
        states, stepOk := HookTurn(script, i, update, states, prior, nCells, nEffects);
        if !stepOk {
          CountStatesPrefix(script, i + 1);
          return states, false;
        }
        i := i + 1;
      }
      assert script[..i] == script;
    }

    /** `updateFunctionComponent(fiber)`: the hook globals are reset,
        `fiber` becomes `wipFiber`, the component runs its hook calls, and
        the element it returns, given the states its `useState` calls
        returned, is reconciled as the fiber's only child. */
    method UpdateFunctionComponent(f: FiberId, cl: Closures) returns (ok: bool)
      requires Valid() && f < |fibers| && fibers[f].elemType.Fn?
      modifies this
      ensures Valid() && |fibers| >= |old(fibers)|
      ensures wipFiber == Some(f)
      ensures var script := cl.hooks(old(fibers)[f].elemType.id, old(fibers)[f].props);
              var prior := PriorHooks(old(fibers), f);
              && (!(prior.Some? ==> CountStates(script) <= |prior.value|) ==> !ok)
              && (ok ==> && stateIndex == CountStates(script)
                         && stateHooks == Range(|old(cells)|, CountStates(script))
                         && effectHooks == Range(|old(effectCells)|, CountEffects(script)))
      ensures hosts == old(hosts) && LogsKept()
      ensures nextWorkOfUnit == old(nextWorkOfUnit) && wipRoot == old(wipRoot) && currentRoot == old(currentRoot)
    {
      var fn, props := fibers[f].elemType.id, fibers[f].props;
      BeginComponent(f);
      var states;
      states, ok := RunHooks(cl.hooks(fn, props), cl.update);
      if !ok {
        return;
      }
      ok := ReconcileChildren(f, [cl.view(fn, props, states)]);
    }

    /** The first lines of `updateFunctionComponent`: the hook globals are
        reset and `fiber` becomes `wipFiber`. */
    method BeginComponent(f: FiberId)
      requires Valid() && f < |fibers|
      modifies this
      ensures Valid() && wipFiber == Some(f) && stateIndex == 0 && stateHooks == [] && effectHooks == []
      ensures fibers == old(fibers) && order == old(order) && cells == old(cells) && effectCells == old(effectCells)
      ensures hosts == old(hosts) && deletions == old(deletions) && LogsKept()
      ensures nextWorkOfUnit == old(nextWorkOfUnit) && wipRoot == old(wipRoot) && currentRoot == old(currentRoot)
    {
      assert CursorsOk([], |cells|, [], |effectCells|, deletions, |fibers|, nextWorkOfUnit, wipRoot, Some(f), currentRoot);
      stateHooks, stateIndex, effectHooks, wipFiber := [], 0, [], Some(f);
    }

    /** `updateHostComponent(fiber)`: a fiber without a host node gets a new
        one, with its props set from nothing; then its `props.children` are
        reconciled.  It throws when the props or their `children` array are
        missing. */
    method UpdateHostComponent(f: FiberId) returns (ok: bool)
      requires Valid() && f < |fibers| && !fibers[f].elemType.Fn?
      modifies this
      ensures Valid() && |fibers| >= |old(fibers)|
      ensures ok ==> old(fibers)[f].props.Some? && Get(old(fibers)[f].props.value, "children").List?
      ensures old(fibers)[f].dom.Some? ==> fibers[f].dom == old(fibers)[f].dom && hosts == old(hosts)
      ensures old(fibers)[f].dom.None? ==>
                && fibers[f].dom.Some? && fresh(fibers[f].dom.value) && hosts == old(hosts) + {fibers[f].dom.value}
                && fibers[f].dom.value.children == []
                && (old(fibers)[f].props.Some? ==>
                      && fibers[f].dom.value.attrs == AttrsAfter(map[], old(fibers)[f].props.value, map[])
                      && fibers[f].dom.value.listeners <= Bound(old(fibers)[f].props.value, map[])
                      && (EventNamesDistinct(old(fibers)[f].props.value, map[]) ==>
                            fibers[f].dom.value.listeners == ListenersAfter({}, old(fibers)[f].props.value, map[])))
      ensures HooksKept() && MarkersKept() && LogsKept()
    {
      if fibers[f].dom.None? {
        ok := CreateHostNode(f);
        if !ok {
          return;
        }
      }
      if fibers[f].props.None? || !Get(fibers[f].props.value, "children").List? {
        // `props.children.forEach` on a missing array
        return false;
      }
      ok := ReconcileChildren(f, Get(fibers[f].props.value, "children").items);
    }

    /** The first lines of `updateHostComponent`: `fiber.dom` gets a new
        node whose props are set from nothing, which throws when the fiber
        has no props. */
    method CreateHostNode(f: FiberId) returns (ok: bool)
      requires Valid() && f < |fibers| && fibers[f].dom.None?
      modifies this
      ensures Valid() && order == old(order) && |fibers| == |old(fibers)|
      ensures ok <==> old(fibers)[f].props.Some?
      ensures fibers[f].dom.Some? && fresh(fibers[f].dom.value) && hosts == old(hosts) + {fibers[f].dom.value}
      ensures fibers == old(fibers)[f := old(fibers)[f].(dom := fibers[f].dom)]
      ensures fibers[f].dom.value.children == []
      ensures ok ==> fibers[f].dom.value.attrs == AttrsAfter(map[], old(fibers)[f].props.value, map[])
      ensures ok ==> fibers[f].dom.value.listeners <= Bound(old(fibers)[f].props.value, map[])
      ensures ok && EventNamesDistinct(old(fibers)[f].props.value, map[]) ==>
                fibers[f].dom.value.listeners == ListenersAfter({}, old(fibers)[f].props.value, map[])
      ensures !ok ==> fibers[f].dom.value.attrs == map[] && fibers[f].dom.value.listeners == {}
      ensures HooksKept() && MarkersKept() && LogsKept() && deletions == old(deletions)
    {
      var node := CreateDom(fibers[f].elemType);
      HostAdded(fibers, order, cells, queues, effectCells, cleanups, hosts, f, node);
      fibers, hosts := fibers[f := fibers[f].(dom := Some(node))], hosts + {node};
      if fibers[f].props.None? {
        // `Object.entries` of undefined props
        return false;
      }
      UpdateProps(node, fibers[f].props.value, map[]);
      ok := true;
    }

    /** `performWorkOfUnit(fiber)`: renders the fiber, then returns the
        next fiber of the pre-order walk in the arena it leaves. */
    method PerformWorkOfUnit(f: FiberId, cl: Closures) returns (next: Option<FiberId>, ok: bool)
      requires Valid() && f < |fibers|
      modifies this
      ensures Valid() && |fibers| >= |old(fibers)|
      ensures ok ==> ParentsBelow(fibers) && next == NextFiber(fibers, f)
      ensures !ok ==> next.None?
      ensures old(fibers)[f].elemType.Fn? ==>
                var script := cl.hooks(old(fibers)[f].elemType.id, old(fibers)[f].props);
                var prior := PriorHooks(old(fibers), f);
                && wipFiber == Some(f) && hosts == old(hosts)
                && (!(prior.Some? ==> CountStates(script) <= |prior.value|) ==> !ok)
                && (ok ==> && stateIndex == CountStates(script)
                           && stateHooks == Range(|old(cells)|, CountStates(script))
                           && effectHooks == Range(|old(effectCells)|, CountEffects(script)))
      ensures !old(fibers)[f].elemType.Fn? ==>
                && (ok ==> old(fibers)[f].props.Some? && Get(old(fibers)[f].props.value, "children").List?)
                && (old(fibers)[f].dom.Some? ==> fibers[f].dom == old(fibers)[f].dom && hosts == old(hosts))
                && (old(fibers)[f].dom.None? ==>
                      && fibers[f].dom.Some? && fresh(fibers[f].dom.value) && hosts == old(hosts) + {fibers[f].dom.value}
                      && fibers[f].dom.value.children == []
                      && (old(fibers)[f].props.Some? ==>
                            && fibers[f].dom.value.attrs == AttrsAfter(map[], old(fibers)[f].props.value, map[])
                            && fibers[f].dom.value.listeners <= Bound(old(fibers)[f].props.value, map[])
                            && (EventNamesDistinct(old(fibers)[f].props.value, map[]) ==>
                                  fibers[f].dom.value.listeners == ListenersAfter({}, old(fibers)[f].props.value, map[]))))
                && HooksKept() && wipFiber == old(wipFiber)
      ensures nextWorkOfUnit == old(nextWorkOfUnit) && wipRoot == old(wipRoot) && currentRoot == old(currentRoot)
      ensures LogsKept()
    {
      if fibers[f].elemType.Fn? {
        ok := UpdateFunctionComponent(f, cl);
      } else {
        ok := UpdateHostComponent(f);
      }
      if !ok {
        return None, false;
      }
      next := NextUnit(f);
    }

    /** `commitRoot()`: the queued deletions, then `commitWork` from the
        root's child, then the effects over the walk from the root; on
        success `wipRoot` becomes `currentRoot` and the deletion queue is
        emptied. */
    method CommitRoot(effect: nat -> Option<nat>) returns (ok: bool)
      requires Valid() && wipRoot.Some?
      modifies this
      ensures fibers == old(fibers) && order == old(order) && hosts == old(hosts)
      ensures cells == old(cells) && queues == old(queues) && effectCells == old(effectCells)
      ensures stateHooks == old(stateHooks) && stateIndex == old(stateIndex) && effectHooks == old(effectHooks)
      ensures nextWorkOfUnit == old(nextWorkOfUnit) && wipFiber == old(wipFiber)
      ensures Valid() && AlternatesIn(fibers) && old(wipRoot).value < |fibers| && Below(old(deletions), |fibers|)
      ensures var rc := CommitOps(fibers, order, old(deletions), old(wipRoot).value, old(domLog));
              var re := EffectsPass(fibers, order, effectCells, old(cleanups), old(wipRoot), effect, old(effectLog));
              && domLog == rc.ops
              && ok == (rc.ok && re.ok)
              && (rc.ok ==> effectLog == re.log && cleanups == re.cleanups)
              && (!rc.ok ==> effectLog == old(effectLog) && cleanups == old(cleanups))
              && (ok ==> currentRoot == old(wipRoot) && wipRoot.None? && deletions == [])
              && (!ok ==> currentRoot == old(currentRoot) && wipRoot == old(wipRoot) && deletions == old(deletions))
    {
      var r := CommitTree(fibers, order, deletions, wipRoot.value, domLog);
      domLog := r.ops;
      if !r.ok {
        return false;
      }
      ok := CommitEffects(effect);
    }

    /** The end of `commitRoot()`: `commitEffectHooks()`, then, unless it
        throws, `wipRoot` becomes `currentRoot` and the deletion queue is
        emptied. */
    method CommitEffects(effect: nat -> Option<nat>) returns (ok: bool)
      requires Valid() && wipRoot.Some?
      modifies this
      ensures fibers == old(fibers) && order == old(order) && hosts == old(hosts)
      ensures cells == old(cells) && queues == old(queues) && effectCells == old(effectCells)
      ensures stateHooks == old(stateHooks) && stateIndex == old(stateIndex) && effectHooks == old(effectHooks)
      ensures nextWorkOfUnit == old(nextWorkOfUnit) && wipFiber == old(wipFiber) && domLog == old(domLog)
      ensures Valid()
      ensures var re := EffectsPass(fibers, order, effectCells, old(cleanups), old(wipRoot), effect, old(effectLog));
              && ok == re.ok && effectLog == re.log && cleanups == re.cleanups
              && (ok ==> currentRoot == old(wipRoot) && wipRoot.None? && deletions == [])
              && (!ok ==> currentRoot == old(currentRoot) && wipRoot == old(wipRoot) && deletions == old(deletions))
    {
      var re := CommitEffectHooks(fibers, order, effectCells, cleanups, wipRoot, effect, effectLog);
      if !re.ok {
        effectLog, cleanups := re.log, re.cleanups;
        return false;
      }
      effectLog, cleanups, currentRoot, wipRoot, deletions := re.log, re.cleanups, wipRoot, None, [];
      ok := true;
    }
  }
}
