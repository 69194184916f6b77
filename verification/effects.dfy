/** The effect pass of a commit: which previous-generation cleanups run,
    which callbacks run, and what `cleanup` each fired hook records.  The
    effect cells live in an arena `E` (their `callback` and `deps` never
    change); their `cleanup` fields are the separate sequence `cleanups`,
    the only thing the pass writes. */
module Effects {
  import opened Values
  import opened Arena

  /** A user closure the pass invokes, by the identity of the function. */
  datatype EffectCall = RanCleanup(fn: nat) | RanCallback(fn: nat)

  /** The pass so far: the calls made, every cell's `cleanup`, and whether
      it is still running (false once it has thrown). */
  datatype PassState = PassState(log: seq<EffectCall>, cleanups: seq<Option<nat>>, ok: bool)

  /** `oldDeps.some((oldDep, idx) => oldDep !== newDeps[idx])` */
  predicate DepsChanged(oldDeps: seq<Value>, newDeps: seq<Value>) {
    exists j :: 0 <= j < |oldDeps| && oldDeps[j] != At(newDeps, j)
  }

  /** Every alternate and every effect cell a fiber names exists. */
  predicate RefsIn(F: seq<Fiber>, E: seq<EffectHook>) {
    && (forall x :: 0 <= x < |F| && F[x].alternate.Some? ==> F[x].alternate.value < |F|)
    && (forall x, j :: 0 <= x < |F| && F[x].effectHooks.Some? && 0 <= j < |F[x].effectHooks.value| ==>
          F[x].effectHooks.value[j] < |E|)
  }

  predicate WalkIn(F: seq<Fiber>, w: seq<FiberId>) {
    forall j :: 0 <= j < |w| ==> w[j] < |F|
  }

  /** What the pass does with the hook at position `idx` of fiber `x`. */
  datatype Slot = Skip | Fire | Throw

  /** On mount every hook fires.  On an update a hook with no
      dependencies is skipped; otherwise the alternate's hook at the same
      position is read (which throws when it has none there) and the hook
      fires when one of the old dependencies differs from the new one at
      its index. */
  function SlotAt(F: seq<Fiber>, E: seq<EffectHook>, x: FiberId, idx: nat): Slot
    requires RefsIn(F, E) && x < |F| && F[x].effectHooks.Some? && idx < |F[x].effectHooks.value|
  {
    var deps := E[F[x].effectHooks.value[idx]].deps;
    if F[x].alternate.None? then Fire
    else if |deps| == 0 then Skip
    else
      var alt := F[F[x].alternate.value].effectHooks;
      if alt.None? || idx >= |alt.value| then Throw
      else if DepsChanged(E[alt.value[idx]].deps, deps) then Fire
      else Skip
  }

  /** The first `i` hooks of `x` in the `run` pass: a firing hook calls its
      callback and records what it returns as the hook's `cleanup`. */
  function RunSlots(F: seq<Fiber>, E: seq<EffectHook>, effect: nat -> Option<nat>, x: FiberId, i: nat, r: PassState): (r': PassState)
    requires RefsIn(F, E) && x < |F| && F[x].effectHooks.Some? && i <= |F[x].effectHooks.value|
    requires |r.cleanups| == |E|
    ensures |r'.cleanups| == |E|
  {
    if i == 0 then r
    else
      var q := RunSlots(F, E, effect, x, i - 1, r);
      if !q.ok then q
      else
        var h := F[x].effectHooks.value[i - 1];
        match SlotAt(F, E, x, i - 1)
        case Skip => q
        case Throw => q.(ok := false)
        case Fire => PassState(q.log + [RanCallback(E[h].callback)], q.cleanups[h := effect(E[h].callback)], true)
  }

  /** `fiber.effectHooks?.forEach(...)` in the `run` pass. */
  function FiberRun(F: seq<Fiber>, E: seq<EffectHook>, effect: nat -> Option<nat>, x: FiberId, r: PassState): (r': PassState)
    requires RefsIn(F, E) && x < |F| && |r.cleanups| == |E|
    ensures |r'.cleanups| == |E|
  {
    if F[x].effectHooks.None? then r else RunSlots(F, E, effect, x, |F[x].effectHooks.value|, r)
  }

  /** The `run` pass over the fibers `w`, in order, stopping at a throw. */
  function RunPass(F: seq<Fiber>, E: seq<EffectHook>, effect: nat -> Option<nat>, w: seq<FiberId>, r: PassState): (r': PassState)
    requires RefsIn(F, E) && WalkIn(F, w) && |r.cleanups| == |E|
    ensures |r'.cleanups| == |E|
    ensures !r.ok ==> r' == r
    decreases |w|
  {
    if w == [] || !r.ok then r else RunPass(F, E, effect, w[1..], FiberRun(F, E, effect, w[0], r))
  }

  /** The first `i` hooks of the alternate `a` in the `runCleanup` pass:
      a hook with dependencies calls its recorded `cleanup`, if any. */
  function CleanupSlots(F: seq<Fiber>, E: seq<EffectHook>, C: seq<Option<nat>>, a: FiberId, i: nat, log: seq<EffectCall>): seq<EffectCall>
    requires RefsIn(F, E) && |C| == |E| && a < |F| && F[a].effectHooks.Some? && i <= |F[a].effectHooks.value|
  {
    if i == 0 then log
    else
      var l := CleanupSlots(F, E, C, a, i - 1, log);
      var h := F[a].effectHooks.value[i - 1];
      if |E[h].deps| == 0 || C[h].None? then l else l + [RanCleanup(C[h].value)]
  }

  /** `fiber.alternate?.effectHooks?.forEach(...)` in the `runCleanup` pass. */
  function FiberCleanup(F: seq<Fiber>, E: seq<EffectHook>, C: seq<Option<nat>>, x: FiberId, log: seq<EffectCall>): seq<EffectCall>
    requires RefsIn(F, E) && |C| == |E| && x < |F|
  {
    if F[x].alternate.None? || F[F[x].alternate.value].effectHooks.None? then log
    else
      var a := F[x].alternate.value;
      CleanupSlots(F, E, C, a, |F[a].effectHooks.value|, log)
  }

  /** The `runCleanup` pass over the fibers `w`, in order. */
  function CleanupPass(F: seq<Fiber>, E: seq<EffectHook>, C: seq<Option<nat>>, w: seq<FiberId>, log: seq<EffectCall>): seq<EffectCall>
    requires RefsIn(F, E) && |C| == |E| && WalkIn(F, w)
    decreases |w|
  {
    if w == [] then log else CleanupPass(F, E, C, w[1..], FiberCleanup(F, E, C, w[0], log))
  }

  // ---------------------------------------------------------------------
  // Splitting a pass, as the recursive walk does

  lemma {:induction false} RunPassAppend(F: seq<Fiber>, E: seq<EffectHook>, effect: nat -> Option<nat>,
                                         a: seq<FiberId>, b: seq<FiberId>, r: PassState)
    requires RefsIn(F, E) && WalkIn(F, a) && WalkIn(F, b) && |r.cleanups| == |E|
    ensures WalkIn(F, a + b)
    ensures RunPass(F, E, effect, a + b, r) == RunPass(F, E, effect, b, RunPass(F, E, effect, a, r))
    decreases |a|
  {
    if a != [] && r.ok {
      assert (a + b)[1..] == a[1..] + b;
      RunPassAppend(F, E, effect, a[1..], b, FiberRun(F, E, effect, a[0], r));
    } else if a == [] {
      assert a + b == b;
    }
  }

  lemma {:induction false} CleanupPassAppend(F: seq<Fiber>, E: seq<EffectHook>, C: seq<Option<nat>>,
                                             a: seq<FiberId>, b: seq<FiberId>, log: seq<EffectCall>)
    requires RefsIn(F, E) && |C| == |E| && WalkIn(F, a) && WalkIn(F, b)
    ensures WalkIn(F, a + b)
    ensures CleanupPass(F, E, C, a + b, log) == CleanupPass(F, E, C, b, CleanupPass(F, E, C, a, log))
    decreases |a|
  {
    if a != [] {
      assert (a + b)[1..] == a[1..] + b;
      CleanupPassAppend(F, E, C, a[1..], b, FiberCleanup(F, E, C, a[0], log));
    } else {
      assert a + b == b;
    }
  }

  // ---------------------------------------------------------------------
  // When effects fire

  /** On mount every callback runs, in the order of the `useEffect` calls,
      and each records its result as the hook's cleanup. */
  lemma {:induction false} MountRunsEveryCallback(F: seq<Fiber>, E: seq<EffectHook>, effect: nat -> Option<nat>,
                                                  x: FiberId, i: nat, r: PassState)
    requires RefsIn(F, E) && x < |F| && F[x].effectHooks.Some? && i <= |F[x].effectHooks.value| && |r.cleanups| == |E|
    requires F[x].alternate.None? && r.ok
    ensures var hs := F[x].effectHooks.value;
            var r' := RunSlots(F, E, effect, x, i, r);
            && r'.ok
            && r'.log == r.log + seq(i, j requires 0 <= j < i => RanCallback(E[hs[j]].callback))
            && (forall j :: 0 <= j < i ==> r'.cleanups[hs[j]] == effect(E[hs[j]].callback))
  {
    var hs := F[x].effectHooks.value;
    if i > 0 {
      MountRunsEveryCallback(F, E, effect, x, i - 1, r);
      var q := RunSlots(F, E, effect, x, i - 1, r);
      assert SlotAt(F, E, x, i - 1) == Fire;
      assert seq(i, j requires 0 <= j < i => RanCallback(E[hs[j]].callback))
          == seq(i - 1, j requires 0 <= j < i - 1 => RanCallback(E[hs[j]].callback)) + [RanCallback(E[hs[i - 1]].callback)];
    }
  }

  /** On an update, a hook whose dependencies are `===` to the previous
      generation's, element by element, does not fire. */
  lemma UnchangedDepsSkip(F: seq<Fiber>, E: seq<EffectHook>, x: FiberId, idx: nat)
    requires RefsIn(F, E) && x < |F| && F[x].effectHooks.Some? && idx < |F[x].effectHooks.value|
    requires F[x].alternate.Some?
    requires var alt := F[F[x].alternate.value].effectHooks;
             alt.Some? && idx < |alt.value| && E[alt.value[idx]].deps == E[F[x].effectHooks.value[idx]].deps
    ensures SlotAt(F, E, x, idx) == Skip
  {
    var deps := E[F[x].effectHooks.value[idx]].deps;
    assert !DepsChanged(deps, deps);
  }

  /** On an update, a hook with dependencies fires when one previous
      dependency differs from the new one at its index. */
  lemma ChangedDepFires(F: seq<Fiber>, E: seq<EffectHook>, x: FiberId, idx: nat, j: nat)
    requires RefsIn(F, E) && x < |F| && F[x].effectHooks.Some? && idx < |F[x].effectHooks.value|
    requires F[x].alternate.Some? && |E[F[x].effectHooks.value[idx]].deps| > 0
    requires var alt := F[F[x].alternate.value].effectHooks;
             alt.Some? && idx < |alt.value|
             && j < |E[alt.value[idx]].deps| && E[alt.value[idx]].deps[j] != At(E[F[x].effectHooks.value[idx]].deps, j)
    ensures SlotAt(F, E, x, idx) == Fire
  {
  }

  /** A hook with an empty dependency list fires on mount and never on an
      update. */
  lemma EmptyDepsOnMountOnly(F: seq<Fiber>, E: seq<EffectHook>, x: FiberId, idx: nat)
    requires RefsIn(F, E) && x < |F| && F[x].effectHooks.Some? && idx < |F[x].effectHooks.value|
    requires E[F[x].effectHooks.value[idx]].deps == []
    ensures SlotAt(F, E, x, idx) == (if F[x].alternate.None? then Fire else Skip)
  {
  }

  /** Only the previous generation's dependencies are compared: a hook
      whose dependency list grew, keeping its old prefix, does not fire
      (nor does one that had none before). */
  lemma GrownDepsIgnored(F: seq<Fiber>, E: seq<EffectHook>, x: FiberId, idx: nat, extra: seq<Value>)
    requires RefsIn(F, E) && x < |F| && F[x].effectHooks.Some? && idx < |F[x].effectHooks.value|
    requires F[x].alternate.Some?
    requires var alt := F[F[x].alternate.value].effectHooks;
             alt.Some? && idx < |alt.value|
             && E[F[x].effectHooks.value[idx]].deps == E[alt.value[idx]].deps + extra
    ensures SlotAt(F, E, x, idx) == Skip
  {
    var alt := F[F[x].alternate.value].effectHooks.value;
    var oldDeps := E[alt[idx]].deps;
    var newDeps := E[F[x].effectHooks.value[idx]].deps;
    forall j | 0 <= j < |oldDeps| ensures oldDeps[j] == At(newDeps, j) {
      assert newDeps[j] == oldDeps[j];
    }
  }

  /** The cleanup pass runs the recorded cleanup of every previous hook
      with dependencies, whether or not the new hook will fire: with
      unchanged dependencies the cleanup runs and the callback does not. */
  lemma {:induction false} CleanupRunsRegardless(F: seq<Fiber>, E: seq<EffectHook>, C: seq<Option<nat>>,
                                                 x: FiberId, idx: nat, log: seq<EffectCall>)
    requires RefsIn(F, E) && |C| == |E| && x < |F| && F[x].alternate.Some?
    requires var alt := F[F[x].alternate.value].effectHooks;
             alt.Some? && idx < |alt.value| && |E[alt.value[idx]].deps| > 0 && C[alt.value[idx]].Some?
    ensures var h := F[F[x].alternate.value].effectHooks.value[idx];
            RanCleanup(C[h].value) in FiberCleanup(F, E, C, x, log)
  {
    var a := F[x].alternate.value;
    CleanupSlotsHas(F, E, C, a, idx, |F[a].effectHooks.value|, log);
  }

  lemma {:induction false} CleanupSlotsHas(F: seq<Fiber>, E: seq<EffectHook>, C: seq<Option<nat>>, a: FiberId,
                                           idx: nat, i: nat, log: seq<EffectCall>)
    requires RefsIn(F, E) && |C| == |E| && a < |F| && F[a].effectHooks.Some? && idx < i <= |F[a].effectHooks.value|
    requires var h := F[a].effectHooks.value[idx]; |E[h].deps| > 0 && C[h].Some?
    ensures RanCleanup(C[F[a].effectHooks.value[idx]].value) in CleanupSlots(F, E, C, a, i, log)
  {
    if i - 1 > idx {
      CleanupSlotsHas(F, E, C, a, idx, i - 1, log);
    }
  }

  /** The cleanup pass calls only cleanups: it never runs a callback. */
  lemma {:induction false} CleanupPassRunsNoCallback(F: seq<Fiber>, E: seq<EffectHook>, C: seq<Option<nat>>,
                                                     w: seq<FiberId>, log: seq<EffectCall>)
    requires RefsIn(F, E) && |C| == |E| && WalkIn(F, w)
    ensures var l := CleanupPass(F, E, C, w, log);
            log <= l && forall j :: |log| <= j < |l| ==> l[j].RanCleanup?
    decreases |w|
  {
    if w != [] {
      var l1 := FiberCleanup(F, E, C, w[0], log);
      FiberCleanupOnlyCleanups(F, E, C, w[0], log);
      CleanupPassRunsNoCallback(F, E, C, w[1..], l1);
    }
  }

  lemma {:induction false} FiberCleanupOnlyCleanups(F: seq<Fiber>, E: seq<EffectHook>, C: seq<Option<nat>>,
                                                    x: FiberId, log: seq<EffectCall>)
    requires RefsIn(F, E) && |C| == |E| && x < |F|
    ensures var l := FiberCleanup(F, E, C, x, log);
            log <= l && forall j :: |log| <= j < |l| ==> l[j].RanCleanup?
  {
    if F[x].alternate.Some? && F[F[x].alternate.value].effectHooks.Some? {
      var a := F[x].alternate.value;
      CleanupSlotsOnlyCleanups(F, E, C, a, |F[a].effectHooks.value|, log);
    }
  }

  lemma {:induction false} CleanupSlotsOnlyCleanups(F: seq<Fiber>, E: seq<EffectHook>, C: seq<Option<nat>>,
                                                    a: FiberId, i: nat, log: seq<EffectCall>)
    requires RefsIn(F, E) && |C| == |E| && a < |F| && F[a].effectHooks.Some? && i <= |F[a].effectHooks.value|
    ensures var l := CleanupSlots(F, E, C, a, i, log);
            log <= l && forall j :: |log| <= j < |l| ==> l[j].RanCleanup?
  {
    if i > 0 {
      CleanupSlotsOnlyCleanups(F, E, C, a, i - 1, log);
    }
  }

  /** The `run` pass calls only callbacks. */
  lemma {:induction false} RunSlotsOnlyCallbacks(F: seq<Fiber>, E: seq<EffectHook>, effect: nat -> Option<nat>,
                                                 x: FiberId, i: nat, r: PassState)
    requires RefsIn(F, E) && x < |F| && F[x].effectHooks.Some? && i <= |F[x].effectHooks.value| && |r.cleanups| == |E|
    ensures var l := RunSlots(F, E, effect, x, i, r).log;
            r.log <= l && forall j :: |r.log| <= j < |l| ==> l[j].RanCallback?
  {
    if i > 0 {
      RunSlotsOnlyCallbacks(F, E, effect, x, i - 1, r);
    }
  }

  lemma {:induction false} RunPassOnlyCallbacks(F: seq<Fiber>, E: seq<EffectHook>, effect: nat -> Option<nat>,
                                                w: seq<FiberId>, r: PassState)
    requires RefsIn(F, E) && WalkIn(F, w) && |r.cleanups| == |E|
    ensures var l := RunPass(F, E, effect, w, r).log;
            r.log <= l && forall j :: |r.log| <= j < |l| ==> l[j].RanCallback?
    decreases |w|
  {
    if w != [] && r.ok {
      var r1 := FiberRun(F, E, effect, w[0], r);
      if F[w[0]].effectHooks.Some? {
        RunSlotsOnlyCallbacks(F, E, effect, w[0], |F[w[0]].effectHooks.value|, r);
      }
      RunPassOnlyCallbacks(F, E, effect, w[1..], r1);
    }
  }

  /** `commitEffectHooks` runs the cleanup pass to completion before the
      `run` pass: every cleanup it calls precedes every callback. */
  lemma CleanupsPrecedeCallbacks(F: seq<Fiber>, E: seq<EffectHook>, C: seq<Option<nat>>, effect: nat -> Option<nat>,
                                 w: seq<FiberId>, log: seq<EffectCall>)
    requires RefsIn(F, E) && |C| == |E| && WalkIn(F, w)
    ensures var l1 := CleanupPass(F, E, C, w, log);
            var l := RunPass(F, E, effect, w, PassState(l1, C, true)).log;
            && log <= l1 <= l
            && (forall j :: |log| <= j < |l1| ==> l[j].RanCleanup?)
            && (forall j :: |l1| <= j < |l| ==> l[j].RanCallback?)
  {
    var l1 := CleanupPass(F, E, C, w, log);
    CleanupPassRunsNoCallback(F, E, C, w, log);
    RunPassOnlyCallbacks(F, E, effect, w, PassState(l1, C, true));
  }
}
