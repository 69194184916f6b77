/** The recursive walks of the commit phase, on the arena as it stands
    when `commitRoot` runs: `commitWork`, `commitDeletion` and the two
    passes of `commitEffectHooks`.  Each is proved to do what the
    corresponding specification in `Commit` or `Effects` says. */
module CommitPhase {
  import opened Values
  import opened Host
  import opened Arena
  import opened Effects
  import opened Commit

  /** `let fiberParent = fiber.parent; while (!fiberParent.dom) ...`:
      `None` when the walk reads past a root. */
  method FindHostParent(F: seq<Fiber>, ghost order: seq<nat>, x: FiberId) returns (node: Option<HostNode>)
    requires WellFormed(F, order) && x < |F|
    ensures ParentsBelow(F) && node == HostParentOf(F, x)
    ensures node.Some? ==> exists y :: 0 <= y < |F| && F[y].dom == node
  {
    WellFormedParentsBelow(F, order);
    var fiberParent: Option<FiberId> := F[x].parent;
    while fiberParent.Some? && F[fiberParent.value].dom.None?
      invariant fiberParent.Some? ==> fiberParent.value < |F|
      invariant HostAbove(F, fiberParent) == HostParentOf(F, x)
      decreases if fiberParent.Some? then fiberParent.value + 1 else 0
    {
      fiberParent := F[fiberParent.value].parent;
    }
    if fiberParent.None? {
      return None;
    }
    node := F[fiberParent.value].dom;
    assert F[fiberParent.value].dom == node;
  }

  /** `commitWork`'s own work on `x`, that of `CommitStep`. */
  method CommitFiber(F: seq<Fiber>, ghost order: seq<nat>, x: FiberId, r: CommitState)
    returns (r': CommitState)
    requires WellFormed(F, order) && AlternatesIn(F) && x < |F| && r.ok
    ensures ParentsBelow(F) && r' == CommitStep(F, x, r)
  {
    var parent := FindHostParent(F, order, x);
    if parent.None? {
      r' := r.(ok := false);
    } else if F[x].effectTag == Update && F[x].dom.Some? {
      var prev := if F[x].alternate.Some? then F[F[x].alternate.value].props else Some(map[]);
      if F[x].props.None? || prev.None? {
        // `Object.entries` of undefined props
        r' := r.(ok := false);
      } else {
        r' := CommitState(r.ops + [SetProps(F[x].dom.value, F[x].props.value, prev.value)], true);
      }
    } else if F[x].effectTag == Placement && F[x].dom.Some? {
      r' := CommitState(r.ops + [Append(parent.value, F[x].dom.value)], true);
    } else {
      r' := r;
    }
  }

  /** `commitWork(fiber)`: the host calls it makes over the pre-order walk
      from `s` are those of `CommitPass`, and it stops where that throws. */
  method CommitWork(F: seq<Fiber>, ghost order: seq<nat>, s: Option<FiberId>, r: CommitState)
    returns (r': CommitState)
    requires WellFormed(F, order) && AlternatesIn(F) && (s.Some? ==> s.value < |F|) && r.ok
    ensures ParentsBelow(F) && r' == CommitPass(F, Walk(F, order, s), r)
    decreases Measure(F, order, s)
  {
    WellFormedParentsBelow(F, order);
    if s.None? {
      return r;
    }
    var x := s.value;
    assert LinksOk(F, order, x);
    r' := CommitFiber(F, order, x, r);
    ghost var wc := Walk(F, order, F[x].child);
    ghost var ws := Walk(F, order, F[x].sibling);
    assert Walk(F, order, s) == [x] + wc + ws;
    CommitPassNode(F, x, wc, ws, r);
    if !r'.ok {
      return;
    }
    assert F[x].child.Some? ==> LinksOk(F, order, F[x].child.value);
    assert F[x].sibling.Some? ==> LinksOk(F, order, F[x].sibling.value);
    r' := CommitWork(F, order, F[x].child, r');
    if !r'.ok {
      return;
    }
    r' := CommitWork(F, order, F[x].sibling, r');
  }

  /** `commitDeletion(fiber)`: the removal it makes is that of
      `DeletionOps`. */
  method CommitDeletion(F: seq<Fiber>, ghost order: seq<nat>, x: FiberId, r: CommitState)
    returns (r': CommitState)
    requires WellFormed(F, order) && x < |F| && r.ok
    ensures r' == DeletionOps(F, order, x, r)
    decreases Measure(F, order, Some(x))
  {
    assert LinksOk(F, order, x);
    if F[x].dom.Some? {
      var parent := FindHostParent(F, order, x);
      if parent.None? {
        return r.(ok := false);
      }
      return CommitState(r.ops + [Remove(parent.value, F[x].dom.value)], true);
    } else if F[x].child.None? {
      // `undefined.dom`
      return r.(ok := false);
    }
    assert LinksOk(F, order, F[x].child.value);
    r' := CommitDeletion(F, order, F[x].child.value, r);
  }

  lemma {:induction false} DeletionsPassStuck(F: seq<Fiber>, order: seq<nat>, ds: seq<FiberId>, i: nat, k: nat, r: CommitState)
    requires WellFormed(F, order) && i <= k <= |ds| && forall j :: 0 <= j < |ds| ==> ds[j] < |F|
    requires !DeletionsPass(F, order, ds, i, r).ok
    ensures DeletionsPass(F, order, ds, k, r) == DeletionsPass(F, order, ds, i, r)
    decreases k
  {
    if k > i {
      DeletionsPassStuck(F, order, ds, i, k - 1, r);
    }
  }

  /** `deletions.forEach(commitDeletion)`. */
  method CommitDeletions(F: seq<Fiber>, ghost order: seq<nat>, ds: seq<FiberId>, r: CommitState)
    returns (r': CommitState)
    requires WellFormed(F, order) && (forall j :: 0 <= j < |ds| ==> ds[j] < |F|) && r.ok
    ensures r' == DeletionsPass(F, order, ds, |ds|, r)
  {
    r' := r;
    var i := 0;
    while i < |ds|
      invariant 0 <= i <= |ds| && r' == DeletionsPass(F, order, ds, i, r)
    {
      if !r'.ok {
        DeletionsPassStuck(F, order, ds, i, |ds|, r);
        return;
      }
      r' := CommitDeletion(F, order, ds[i], r');
      i := i + 1;
    }
  }

  /** `oldEffectHook.deps.some((oldDep, idx) => oldDep !== newHook.deps[idx])` */
  method DepsDiffer(oldDeps: seq<Value>, newDeps: seq<Value>) returns (b: bool)
    ensures b == DepsChanged(oldDeps, newDeps)
  {
    var j := 0;
    while j < |oldDeps|
      invariant 0 <= j <= |oldDeps|
      invariant forall t :: 0 <= t < j ==> oldDeps[t] == At(newDeps, t)
    {
      if oldDeps[j] != At(newDeps, j) {
        return true;
      }
      j := j + 1;
    }
    return false;
  }

  lemma {:induction false} RunSlotsStuck(F: seq<Fiber>, E: seq<EffectHook>, effect: nat -> Option<nat>, x: FiberId,
                                         i: nat, k: nat, r: PassState)
    requires RefsIn(F, E) && x < |F| && F[x].effectHooks.Some? && i <= k <= |F[x].effectHooks.value|
    requires |r.cleanups| == |E| && !RunSlots(F, E, effect, x, i, r).ok
    ensures RunSlots(F, E, effect, x, k, r) == RunSlots(F, E, effect, x, i, r)
    decreases k
  {
    if k > i {
      RunSlotsStuck(F, E, effect, x, i, k - 1, r);
    }
  }

  /** The `forEach` over one fiber's effect hooks in `run`. */
  method FiberEffects(F: seq<Fiber>, E: seq<EffectHook>, effect: nat -> Option<nat>, x: FiberId, r: PassState)
    returns (r': PassState)
    requires RefsIn(F, E) && x < |F| && |r.cleanups| == |E| && r.ok
    ensures r' == FiberRun(F, E, effect, x, r)
  {
    if F[x].effectHooks.None? {
      return r;
    }
    var hooks := F[x].effectHooks.value;
    r' := r;
    var i := 0;
    while i < |hooks|
      invariant 0 <= i <= |hooks|
      invariant r' == RunSlots(F, E, effect, x, i, r) && r'.ok
    {
      var h := hooks[i];
      var fire := true;
      if F[x].alternate.Some? {
        if |E[h].deps| == 0 {
          fire := false;
        } else {
          var alt := F[F[x].alternate.value].effectHooks;
          if alt.None? || i >= |alt.value| {
            // `.deps` of an undefined old hook
            r' := r'.(ok := false);
            RunSlotsStuck(F, E, effect, x, i + 1, |hooks|, r);
            return;
          }
          fire := DepsDiffer(E[alt.value[i]].deps, E[h].deps);
        }
      }
      if fire {
        r' := PassState(r'.log + [RanCallback(E[h].callback)], r'.cleanups[h := effect(E[h].callback)], true);
      }
      i := i + 1;
    }
  }

  /** `run(fiber)`: the callbacks and cleanups of the `run` pass over the
      pre-order walk from `s` are those of `RunPass`. */
  method RunEffects(F: seq<Fiber>, ghost order: seq<nat>, E: seq<EffectHook>, effect: nat -> Option<nat>,
                    s: Option<FiberId>, r: PassState) returns (r': PassState)
    requires WellFormed(F, order) && RefsIn(F, E) && (s.Some? ==> s.value < |F|) && |r.cleanups| == |E| && r.ok
    ensures r' == RunPass(F, E, effect, Walk(F, order, s), r)
    decreases Measure(F, order, s)
  {
    if s.None? {
      return r;
    }
    var x := s.value;
    assert LinksOk(F, order, x);
    r' := FiberEffects(F, E, effect, x, r);
    ghost var wc := Walk(F, order, F[x].child);
    ghost var ws := Walk(F, order, F[x].sibling);
    assert Walk(F, order, s) == [x] + wc + ws;
    assert [x][1..] == [];
    assert RunPass(F, E, effect, [x], r) == r';
    RunPassAppend(F, E, effect, [x], wc, r);
    RunPassAppend(F, E, effect, [x] + wc, ws, r);
    if !r'.ok {
      return;
    }
    assert F[x].child.Some? ==> LinksOk(F, order, F[x].child.value);
    assert F[x].sibling.Some? ==> LinksOk(F, order, F[x].sibling.value);
    r' := RunEffects(F, order, E, effect, F[x].child, r');
    if !r'.ok {
      return;
    }
    r' := RunEffects(F, order, E, effect, F[x].sibling, r');
  }

  /** The `forEach` over the alternate's effect hooks in `runCleanup`. */
  method FiberCleanups(F: seq<Fiber>, E: seq<EffectHook>, C: seq<Option<nat>>, x: FiberId, log: seq<EffectCall>)
    returns (log': seq<EffectCall>)
    requires RefsIn(F, E) && |C| == |E| && x < |F|
    ensures log' == FiberCleanup(F, E, C, x, log)
  {
    if F[x].alternate.None? || F[F[x].alternate.value].effectHooks.None? {
      return log;
    }
    var a := F[x].alternate.value;
    var hooks := F[a].effectHooks.value;
    log' := log;
    var i := 0;
    while i < |hooks|
      invariant 0 <= i <= |hooks| && log' == CleanupSlots(F, E, C, a, i, log)
    {
      var h := hooks[i];
      if |E[h].deps| != 0 && C[h].Some? {
        log' := log' + [RanCleanup(C[h].value)];
      }
      i := i + 1;
    }
  }

  /** `runCleanup(fiber)`: the cleanups called over the pre-order walk from
      `s` are those of `CleanupPass`. */
  method CleanupEffects(F: seq<Fiber>, ghost order: seq<nat>, E: seq<EffectHook>, C: seq<Option<nat>>,
                        s: Option<FiberId>, log: seq<EffectCall>) returns (log': seq<EffectCall>)
    requires WellFormed(F, order) && RefsIn(F, E) && |C| == |E| && (s.Some? ==> s.value < |F|)
    ensures log' == CleanupPass(F, E, C, Walk(F, order, s), log)
    decreases Measure(F, order, s)
  {
    if s.None? {
      return log;
    }
    var x := s.value;
    assert LinksOk(F, order, x);
    log' := FiberCleanups(F, E, C, x, log);
    ghost var wc := Walk(F, order, F[x].child);
    ghost var ws := Walk(F, order, F[x].sibling);
    assert Walk(F, order, s) == [x] + wc + ws;
    assert [x][1..] == [];
    assert CleanupPass(F, E, C, [x], log) == log';
    CleanupPassAppend(F, E, C, [x], wc, log);
    CleanupPassAppend(F, E, C, [x] + wc, ws, log);
    assert F[x].child.Some? ==> LinksOk(F, order, F[x].child.value);
    assert F[x].sibling.Some? ==> LinksOk(F, order, F[x].sibling.value);
    log' := CleanupEffects(F, order, E, C, F[x].child, log');
    log' := CleanupEffects(F, order, E, C, F[x].sibling, log');
  }

  /** The calls `commitEffectHooks` makes: `runCleanup` over the walk from
      the root, then `run` over the same walk. */
  ghost function EffectsPass(F: seq<Fiber>, order: seq<nat>, E: seq<EffectHook>, C: seq<Option<nat>>,
                             root: Option<FiberId>, effect: nat -> Option<nat>, log: seq<EffectCall>): PassState
    requires WellFormed(F, order) && RefsIn(F, E) && |C| == |E| && (root.Some? ==> root.value < |F|)
  {
    var w := Walk(F, order, root);
    RunPass(F, E, effect, w, PassState(CleanupPass(F, E, C, w, log), C, true))
  }

  /** `commitEffectHooks()`: every due cleanup of the previous generation
      over the walk from the root, then every due callback, the callbacks'
      results becoming the cells' `cleanup`. */
  method CommitEffectHooks(F: seq<Fiber>, ghost order: seq<nat>, E: seq<EffectHook>, C: seq<Option<nat>>,
                           root: Option<FiberId>, effect: nat -> Option<nat>, log: seq<EffectCall>) returns (r: PassState)
    requires WellFormed(F, order) && RefsIn(F, E) && |C| == |E| && (root.Some? ==> root.value < |F|)
    ensures r == EffectsPass(F, order, E, C, root, effect, log)
  {
    var cleaned := CleanupEffects(F, order, E, C, root, log);
    r := RunEffects(F, order, E, effect, root, PassState(cleaned, C, true));
  }

  /** The host calls `commitRoot` makes before the effects: every queued
      deletion in order, then `commitWork` from the root's child, stopping
      at the first throw. */
  ghost function CommitOps(F: seq<Fiber>, order: seq<nat>, ds: seq<FiberId>, root: FiberId, log: seq<DomOp>): CommitState
    requires WellFormed(F, order) && AlternatesIn(F) && root < |F| && forall j :: 0 <= j < |ds| ==> ds[j] < |F|
  {
    WellFormedParentsBelow(F, order);
    assert LinksOk(F, order, root);
    var rd := DeletionsPass(F, order, ds, |ds|, CommitState(log, true));
    if rd.ok then CommitPass(F, Walk(F, order, F[root].child), rd) else rd
  }

  /** `deletions.forEach(commitDeletion)` then `commitWork(wipRoot.child)`. */
  method CommitTree(F: seq<Fiber>, ghost order: seq<nat>, ds: seq<FiberId>, root: FiberId,
                    log: seq<DomOp>) returns (r: CommitState)
    requires WellFormed(F, order) && AlternatesIn(F) && root < |F| && forall j :: 0 <= j < |ds| ==> ds[j] < |F|
    ensures r == CommitOps(F, order, ds, root, log)
  {
    assert LinksOk(F, order, root);
    r := CommitDeletions(F, order, ds, CommitState(log, true));
    if r.ok {
      r := CommitWork(F, order, F[root].child, r);
    }
  }
}
