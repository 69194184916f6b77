/** Fibers, kept in an arena: a sequence of records whose `parent`, `child`,
    `sibling` and `alternate` links are indices into that sequence.  This
    module holds the records, the well-formedness of the links, and the
    walks over them (sibling chains, the depth-first pre-order, the next
    unit of work, the nearest ancestor owning a host node). */
module Arena {
  import opened Values
  import opened Host

  type FiberId = nat

  /** `effectTag`: unset (the roots), "placement" or "update". */
  datatype EffectTag = Untagged | Placement | Update

  /** A queued state update: a user update function (applied to the state)
      or the `() => value` wrapper `setState` makes for a plain value. */
  datatype Action = CallUpdate(fn: nat) | Replace(value: Value)

  /** A state hook cell `{state, queue}`; the queue is shared by reference
      between generations, so the cell names it by its index. */
  datatype Cell = Cell(state: Value, queue: nat)

  /** The fixed part of an effect hook cell `{callback, deps, cleanup}`; the
      `cleanup` field, written in place by the effect pass, is kept apart. */
  datatype EffectHook = EffectHook(callback: nat, deps: seq<Value>)

  datatype Fiber = Fiber(
    elemType: Value,                       // `undefined` for a root
    props: Option<Props>,                  // `None`: `props` is undefined
    dom: Option<HostNode>,
    parent: Option<FiberId>,
    child: Option<FiberId>,
    sibling: Option<FiberId>,
    effectTag: EffectTag,
    alternate: Option<FiberId>,
    stateHooks: Option<seq<nat>>,          // indices of state cells
    effectHooks: Option<seq<nat>>)         // indices of effect cells

  /** Links point into the arena; a parent and an alternate are older than
      the fiber; a child or a sibling has a larger `order` (a ghost rank that
      makes every walk down or along a chain terminate); a fiber without a
      parent is a root, owning the container node; a child or a sibling
      has a parent. */
  ghost predicate LinksOk(F: seq<Fiber>, order: seq<nat>, i: nat)
    requires |order| == |F| && i < |F|
  {
    && order[i] <= i
    && (F[i].parent.Some? ==> F[i].parent.value < i)
    && (F[i].parent.None? ==> F[i].dom.Some? && !F[i].elemType.Fn?)
    && (F[i].child.Some? ==>
          F[i].child.value < |F| && order[i] < order[F[i].child.value] && F[F[i].child.value].parent.Some?)
    && (F[i].sibling.Some? ==>
          F[i].sibling.value < |F| && order[i] < order[F[i].sibling.value] && F[F[i].sibling.value].parent.Some?)
    && (F[i].alternate.Some? ==> F[i].alternate.value < i)
  }

  ghost predicate WellFormed(F: seq<Fiber>, order: seq<nat>) {
    |order| == |F| && forall i :: 0 <= i < |F| ==> LinksOk(F, order, i)
  }

  predicate ParentsBelow(F: seq<Fiber>) {
    forall i :: 0 <= i < |F| && F[i].parent.Some? ==> F[i].parent.value < i
  }

  lemma WellFormedParentsBelow(F: seq<Fiber>, order: seq<nat>)
    requires WellFormed(F, order)
    ensures ParentsBelow(F)
  {
    forall i | 0 <= i < |F| && F[i].parent.Some? ensures F[i].parent.value < i {
      assert LinksOk(F, order, i);
    }
  }

  ghost function Measure(F: seq<Fiber>, order: seq<nat>, s: Option<FiberId>): nat
    requires |order| == |F|
  {
    if s.Some? && s.value < |F| && order[s.value] < |F| then |F| - order[s.value] else 0
  }

  /** The sibling chain starting at `s`: `s`, `s.sibling`, ... */
  ghost function Chain(F: seq<Fiber>, order: seq<nat>, s: Option<FiberId>): (c: seq<FiberId>)
    requires WellFormed(F, order)
    requires s.Some? ==> s.value < |F|
    ensures forall j :: 0 <= j < |c| ==> c[j] < |F|
    ensures s.None? <==> c == []
    decreases Measure(F, order, s)
  {
    if s.None? then []
    else
      assert LinksOk(F, order, s.value);
      var next := F[s.value].sibling;
      assert next.Some? ==> LinksOk(F, order, next.value);
      [s.value] + Chain(F, order, next)
  }

  /** The depth-first pre-order from `s`: `s`, its subtree, then its later
      siblings and their subtrees.  This is the order of the recursive
      commit passes, and of the work loop. */
  ghost function Walk(F: seq<Fiber>, order: seq<nat>, s: Option<FiberId>): (w: seq<FiberId>)
    requires WellFormed(F, order)
    requires s.Some? ==> s.value < |F|
    ensures forall j :: 0 <= j < |w| ==> w[j] < |F|
    ensures s.None? <==> w == []
    ensures s.Some? ==> w[0] == s.value
    decreases Measure(F, order, s)
  {
    if s.None? then []
    else
      var x := s.value;
      assert LinksOk(F, order, x);
      assert F[x].child.Some? ==> LinksOk(F, order, F[x].child.value);
      assert F[x].sibling.Some? ==> LinksOk(F, order, F[x].sibling.value);
      [x] + Walk(F, order, F[x].child) + Walk(F, order, F[x].sibling)
  }

  // ---------------------------------------------------------------------
  // The next unit of work

  /** Walking up from `x`: its sibling, else the sibling of the closest
      ancestor that has one. */
  function Climb(F: seq<Fiber>, x: FiberId): Option<FiberId>
    requires ParentsBelow(F) && x < |F|
    decreases x
  {
    if F[x].sibling.Some? then F[x].sibling
    else if F[x].parent.Some? then Climb(F, F[x].parent.value)
    else None
  }

  /** The fiber `performWorkOfUnit` returns after working on `x`. */
  function NextFiber(F: seq<Fiber>, x: FiberId): Option<FiberId>
    requires ParentsBelow(F) && x < |F|
  {
    if F[x].child.Some? then F[x].child else Climb(F, x)
  }

  /** The ancestor `k` levels above `x` (`x` itself for `k == 0`). */
  function Ancestor(F: seq<Fiber>, x: FiberId, k: nat): (a: Option<FiberId>)
    requires ParentsBelow(F) && x < |F|
    ensures a.Some? ==> a.value <= x
    decreases k
  {
    if k == 0 then Some(x)
    else if F[x].parent.None? then None
    else Ancestor(F, F[x].parent.value, k - 1)
  }

  /** The ancestor-or-self `k` levels up is the closest one with a sibling. */
  predicate ClosestWithSibling(F: seq<Fiber>, x: FiberId, k: nat)
    requires ParentsBelow(F) && x < |F|
  {
    && Ancestor(F, x, k).Some?
    && F[Ancestor(F, x, k).value].sibling.Some?
    && forall j :: 0 <= j < k ==> Ancestor(F, x, j).Some? && F[Ancestor(F, x, j).value].sibling.None?
  }

  /** What `Climb` finds: the sibling of the closest ancestor-or-self that
      has one, or nothing when no ancestor-or-self has a sibling. */
  lemma {:induction false} ClimbFindsClosestSibling(F: seq<Fiber>, x: FiberId)
    requires ParentsBelow(F) && x < |F|
    ensures Climb(F, x).Some? ==>
              exists k: nat :: ClosestWithSibling(F, x, k) && Climb(F, x) == F[Ancestor(F, x, k).value].sibling
    ensures Climb(F, x).None? ==>
              forall k: nat :: Ancestor(F, x, k).Some? ==> F[Ancestor(F, x, k).value].sibling.None?
    decreases x
  {
    if F[x].sibling.Some? {
      assert Ancestor(F, x, 0) == Some(x);
      assert ClosestWithSibling(F, x, 0);
    } else if F[x].parent.Some? {
      var p := F[x].parent.value;
      ClimbFindsClosestSibling(F, p);
      forall k: nat ensures Ancestor(F, x, k + 1) == Ancestor(F, p, k) { }
      if Climb(F, x).Some? {
        var k: nat :| ClosestWithSibling(F, p, k) && Climb(F, p) == F[Ancestor(F, p, k).value].sibling;
        forall j | 0 <= j < k + 1
          ensures Ancestor(F, x, j).Some? && F[Ancestor(F, x, j).value].sibling.None?
        {
          if j > 0 {
            assert Ancestor(F, x, j) == Ancestor(F, p, j - 1);
          }
        }
        assert ClosestWithSibling(F, x, k + 1);
      } else {
        forall k: nat | Ancestor(F, x, k).Some? ensures F[Ancestor(F, x, k).value].sibling.None? {
          if k > 0 {
            assert Ancestor(F, x, k) == Ancestor(F, p, k - 1);
          }
        }
      }
    } else {
      forall k: nat | Ancestor(F, x, k).Some? ensures F[Ancestor(F, x, k).value].sibling.None? {
        assert k == 0;
      }
    }
  }

  /** Where the walk goes once `x`'s subtree and later siblings are done. */
  function Exit(F: seq<Fiber>, x: FiberId): Option<FiberId>
    requires ParentsBelow(F) && x < |F|
  {
    if F[x].parent.Some? then Climb(F, F[x].parent.value) else None
  }

  /** The child's `parent` is the fiber; a sibling shares the fiber's parent
      (true of every chain `reconcileChildren` builds). */
  predicate ParentLinked(F: seq<Fiber>, y: FiberId)
    requires y < |F|
  {
    && (F[y].child.Some? && F[y].child.value < |F| ==> F[F[y].child.value].parent == Some(y))
    && (F[y].sibling.Some? && F[y].sibling.value < |F| ==> F[F[y].sibling.value].parent == F[y].parent)
  }

  /** Every fiber of `w` is `ParentLinked`. */
  predicate AllLinked(F: seq<Fiber>, w: seq<FiberId>)
    requires forall j :: 0 <= j < |w| ==> w[j] < |F|
  {
    forall j :: 0 <= j < |w| ==> ParentLinked(F, w[j])
  }

  lemma AllLinkedParts(F: seq<Fiber>, x: FiberId, a: seq<FiberId>, b: seq<FiberId>)
    requires x < |F| && (forall j :: 0 <= j < |a| ==> a[j] < |F|) && (forall j :: 0 <= j < |b| ==> b[j] < |F|)
    requires AllLinked(F, [x] + a + b)
    ensures ParentLinked(F, x) && AllLinked(F, a) && AllLinked(F, b)
  {
    var w := [x] + a + b;
    assert w[0] == x;
    forall j | 0 <= j < |a| ensures ParentLinked(F, a[j]) {
      assert w[1 + j] == a[j];
    }
    forall j | 0 <= j < |b| ensures ParentLinked(F, b[j]) {
      assert w[1 + |a| + j] == b[j];
    }
  }

  /** `performWorkOfUnit` steps from each fiber of `w` to the next one. */
  predicate Steps(F: seq<Fiber>, w: seq<FiberId>)
    requires ParentsBelow(F) && forall j :: 0 <= j < |w| ==> w[j] < |F|
  {
    forall k :: 0 <= k < |w| - 1 ==> NextFiber(F, w[k]) == Some(w[k + 1])
  }

  lemma StepsConcat(F: seq<Fiber>, a: seq<FiberId>, b: seq<FiberId>)
    requires ParentsBelow(F) && (forall j :: 0 <= j < |a| ==> a[j] < |F|) && (forall j :: 0 <= j < |b| ==> b[j] < |F|)
    requires Steps(F, a) && Steps(F, b)
    requires a != [] && b != [] ==> NextFiber(F, a[|a| - 1]) == Some(b[0])
    ensures Steps(F, a + b)
  {
    var w := a + b;
    forall k | 0 <= k < |w| - 1 ensures NextFiber(F, w[k]) == Some(w[k + 1]) {
      if k + 1 < |a| {
        assert w[k] == a[k] && w[k + 1] == a[k + 1];
      } else if k + 1 == |a| {
        assert w[k] == a[|a| - 1] && w[k + 1] == b[0];
      } else {
        assert w[k] == b[k - |a|] && w[k + 1] == b[k + 1 - |a|];
      }
    }
  }

  /** Following `NextFiber` from `x` visits `Walk(x)` in order, and then
      leaves it where `Exit(x)` says: `performWorkOfUnit`'s return value
      drives a depth-first pre-order walk. */
  lemma {:induction false} NextFollowsWalk(F: seq<Fiber>, order: seq<nat>, x: FiberId)
    requires WellFormed(F, order) && x < |F|
    requires AllLinked(F, Walk(F, order, Some(x)))
    ensures ParentsBelow(F)
    ensures var w := Walk(F, order, Some(x));
            && Steps(F, w)
            && NextFiber(F, w[|w| - 1]) == Exit(F, x)
    decreases Measure(F, order, Some(x))
  {
    WellFormedParentsBelow(F, order);
    assert LinksOk(F, order, x);
    var c := F[x].child;
    var s := F[x].sibling;
    var wc := Walk(F, order, c);
    var ws := Walk(F, order, s);
    assert Walk(F, order, Some(x)) == [x] + wc + ws;
    AllLinkedParts(F, x, wc, ws);
    // the walk below the child
    if c.Some? {
      assert LinksOk(F, order, c.value);
      NextFollowsWalk(F, order, c.value);
      assert Exit(F, c.value) == Climb(F, x);
    }
    // the walk along the siblings
    if s.Some? {
      assert LinksOk(F, order, s.value);
      NextFollowsWalk(F, order, s.value);
      assert Exit(F, s.value) == Exit(F, x);
    }
    JoinWalks(F, x, wc, ws);
  }

  /** The step from a fiber into its child's walk, and from there into its
      sibling's walk. */
  lemma JoinWalks(F: seq<Fiber>, x: FiberId, wc: seq<FiberId>, ws: seq<FiberId>)
    requires ParentsBelow(F) && x < |F|
    requires (forall j :: 0 <= j < |wc| ==> wc[j] < |F|) && (forall j :: 0 <= j < |ws| ==> ws[j] < |F|)
    requires F[x].child.None? <==> wc == []
    requires F[x].sibling.None? <==> ws == []
    requires wc != [] ==> && F[x].child == Some(wc[0]) && Steps(F, wc) && NextFiber(F, wc[|wc| - 1]) == Climb(F, x)
    requires ws != [] ==> && F[x].sibling == Some(ws[0]) && Steps(F, ws) && NextFiber(F, ws[|ws| - 1]) == Exit(F, x)
    ensures var w := [x] + wc + ws;
            && Steps(F, w)
            && NextFiber(F, w[|w| - 1]) == Exit(F, x)
  {
    var w := [x] + wc + ws;
    StepsConcat(F, [x], wc);
    var xc := [x] + wc;
    assert NextFiber(F, xc[|xc| - 1]) == Climb(F, x) by {
      if wc != [] {
        assert xc[|xc| - 1] == wc[|wc| - 1];
      }
    }
    StepsConcat(F, xc, ws);
    if ws != [] {
      assert w[|w| - 1] == ws[|ws| - 1];
    } else if wc != [] {
      assert w[|w| - 1] == wc[|wc| - 1];
    } else {
      assert w == [x];
    }
  }

  /** A root (no parent, no sibling) is left only when its whole tree has
      been visited: the walk ends after the last fiber of `Walk(root)`. */
  lemma RootWalkEnds(F: seq<Fiber>, order: seq<nat>, root: FiberId)
    requires WellFormed(F, order) && root < |F|
    requires F[root].parent.None? && F[root].sibling.None?
    requires AllLinked(F, Walk(F, order, Some(root)))
    ensures ParentsBelow(F)
    ensures var w := Walk(F, order, Some(root)); NextFiber(F, w[|w| - 1]).None?
  {
    NextFollowsWalk(F, order, root);
  }

  // ---------------------------------------------------------------------
  // The nearest host node above a fiber

  /** The closest ancestor-or-self that owns a host node; `None` when the
      walk runs off the top (the source then dereferences `null`). */
  function NearestHost(F: seq<Fiber>, x: FiberId): (h: Option<FiberId>)
    requires ParentsBelow(F) && x < |F|
    ensures h.Some? ==> h.value <= x && F[h.value].dom.Some?
    decreases x
  {
    if F[x].dom.Some? then Some(x)
    else if F[x].parent.None? then None
    else NearestHost(F, F[x].parent.value)
  }

  /** The ancestor-or-self `k` levels up is the closest one owning a host node. */
  predicate ClosestWithHost(F: seq<Fiber>, x: FiberId, k: nat)
    requires ParentsBelow(F) && x < |F|
  {
    && Ancestor(F, x, k).Some?
    && F[Ancestor(F, x, k).value].dom.Some?
    && forall j :: 0 <= j < k ==> Ancestor(F, x, j).Some? && F[Ancestor(F, x, j).value].dom.None?
  }

  /** In a well-formed arena the walk always finds a host node, at the
      closest ancestor-or-self owning one. */
  lemma {:induction false} NearestHostFound(F: seq<Fiber>, order: seq<nat>, x: FiberId)
    requires WellFormed(F, order) && x < |F|
    ensures ParentsBelow(F)
    ensures NearestHost(F, x).Some?
    ensures exists k: nat :: ClosestWithHost(F, x, k) && NearestHost(F, x) == Ancestor(F, x, k)
    decreases x
  {
    WellFormedParentsBelow(F, order);
    assert LinksOk(F, order, x);
    if F[x].dom.Some? {
      assert ClosestWithHost(F, x, 0);
    } else {
      var p := F[x].parent.value;
      NearestHostFound(F, order, p);
      var k: nat :| ClosestWithHost(F, p, k) && NearestHost(F, p) == Ancestor(F, p, k);
      assert Ancestor(F, x, k + 1) == Ancestor(F, p, k);
      forall j | 0 <= j < k + 1 ensures Ancestor(F, x, j).Some? && F[Ancestor(F, x, j).value].dom.None? {
        if j > 0 {
          assert Ancestor(F, x, j) == Ancestor(F, p, j - 1);
        }
      }
      assert ClosestWithHost(F, x, k + 1);
    }
  }

  // ---------------------------------------------------------------------
  // Writing fields that do not affect the links

  /** `b` keeps the links of `a`, and keeps its host node if it had one. */
  predicate SameShape(a: Fiber, b: Fiber) {
    && a.parent == b.parent && a.child == b.child && a.sibling == b.sibling
    && a.alternate == b.alternate && a.elemType == b.elemType
    && (a.dom.Some? ==> b.dom.Some?)
  }

  lemma {:induction false} SameShapeWellFormed(F: seq<Fiber>, order: seq<nat>, x: FiberId, f: Fiber)
    requires WellFormed(F, order) && x < |F| && SameShape(F[x], f)
    ensures WellFormed(F[x := f], order)
  {
    var G := F[x := f];
    forall i | 0 <= i < |G| ensures LinksOk(G, order, i) {
      assert LinksOk(F, order, i);
    }
  }

  /** One step along a chain. */
  lemma ChainStep(F: seq<Fiber>, order: seq<nat>, s: Option<FiberId>)
    requires WellFormed(F, order) && s.Some? && s.value < |F|
    ensures F[s.value].sibling.Some? ==> F[s.value].sibling.value < |F|
    ensures Chain(F, order, s) == [s.value] + Chain(F, order, F[s.value].sibling)
  {
    assert LinksOk(F, order, s.value);
  }

  /** Appending a copy of `f` whose alternate is `f` (the root `setState`
      schedules) keeps the arena well formed: the copy shares `f`'s links
      and takes its rank. */
  lemma {:induction false} CopyWellFormed(F: seq<Fiber>, order: seq<nat>, f: FiberId)
    requires WellFormed(F, order) && f < |F|
    ensures WellFormed(F + [F[f].(alternate := Some(f))], order + [order[f]])
  {
    var G := F + [F[f].(alternate := Some(f))];
    var order' := order + [order[f]];
    forall i | 0 <= i < |G| ensures LinksOk(G, order', i) {
      if i < |F| {
        assert LinksOk(F, order, i);
      } else {
        assert LinksOk(F, order, f);
      }
    }
  }

  /** Appending a new root keeps the arena well formed. */
  lemma {:induction false} RootWellFormed(F: seq<Fiber>, order: seq<nat>, root: Fiber)
    requires WellFormed(F, order)
    requires root.parent.None? && root.child.None? && root.sibling.None? && root.alternate.None?
    requires root.dom.Some? && !root.elemType.Fn?
    ensures WellFormed(F + [root], order + [|F|])
  {
    var G := F + [root];
    forall i | 0 <= i < |G| ensures LinksOk(G, order + [|F|], i) {
      if i < |F| {
        assert LinksOk(F, order, i);
      }
    }
  }
}
