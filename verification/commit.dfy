/** The host-tree side of a commit: the operations `commitDeletion` and
    `commitWork` perform on host nodes, in the order they perform them. */
module Commit {
  import opened Values
  import opened Host
  import opened Arena

  /** One host call: `updateProps(node, next, prev)`,
      `parent.append(node)` or `parent.removeChild(node)`. */
  datatype DomOp =
    | SetProps(node: HostNode, next: Props, prev: Props)
    | Append(parent: HostNode, node: HostNode)
    | Remove(parent: HostNode, node: HostNode)

  /** The operations performed so far, and whether the pass is still
      running (false once it has thrown). */
  datatype CommitState = CommitState(ops: seq<DomOp>, ok: bool)

  /** `parent.children` without `node`. */
  function Without(children: seq<HostNode>, node: HostNode): (r: seq<HostNode>)
    ensures node !in r
    ensures forall i :: 0 <= i < |r| ==> r[i] in children
    ensures forall i :: 0 <= i < |children| && children[i] != node ==> children[i] in r
    ensures |r| <= |children|
  {
    if children == [] then []
    else (if children[0] == node then [] else [children[0]]) + Without(children[1..], node)
  }

  /** `parent.append(node)`: the node ends up as the last child, once. */
  function Appended(children: seq<HostNode>, node: HostNode): (r: seq<HostNode>)
    ensures |r| > 0 && r[|r| - 1] == node
    ensures forall i :: 0 <= i < |r| - 1 ==> r[i] in children && r[i] != node
    ensures forall i :: 0 <= i < |children| ==> children[i] in r
  {
    Without(children, node) + [node]
  }

  /** The host node of the closest fiber at or above `p` that has one;
      `None` when the walk runs past a root (where the source reads a
      property of `undefined`). */
  function HostAbove(F: seq<Fiber>, p: Option<FiberId>): Option<HostNode>
    requires ParentsBelow(F) && (p.Some? ==> p.value < |F|)
  {
    if p.None? then None
    else
      var h := NearestHost(F, p.value);
      if h.None? then None else F[h.value].dom
  }

  /** The loop `while (!fiberParent.dom) fiberParent = fiberParent.parent`
      starting from `x`'s parent. */
  function HostParentOf(F: seq<Fiber>, x: FiberId): Option<HostNode>
    requires ParentsBelow(F) && x < |F|
  {
    HostAbove(F, F[x].parent)
  }

  predicate AlternatesIn(F: seq<Fiber>) {
    forall x :: 0 <= x < |F| && F[x].alternate.Some? ==> F[x].alternate.value < |F|
  }

  /** `commitWork`'s own work on `x`: find the host parent, then update an
      "update" fiber's node from its alternate's props (or from an empty
      bag), or append a "placement" fiber's node to the host parent. */
  function CommitStep(F: seq<Fiber>, x: FiberId, r: CommitState): CommitState
    requires ParentsBelow(F) && AlternatesIn(F) && x < |F|
  {
    if !r.ok then r
    else
      var parent := HostParentOf(F, x);
      if parent.None? then r.(ok := false)
      else if F[x].effectTag == Update && F[x].dom.Some? then
        var prev := if F[x].alternate.Some? then F[F[x].alternate.value].props else Some(map[]);
        if F[x].props.None? || prev.None? then r.(ok := false)
        else CommitState(r.ops + [SetProps(F[x].dom.value, F[x].props.value, prev.value)], true)
      else if F[x].effectTag == Placement && F[x].dom.Some? then
        CommitState(r.ops + [Append(parent.value, F[x].dom.value)], true)
      else r
  }

  /** `commitWork` over the fibers `w`, in order, stopping at a throw. */
  function CommitPass(F: seq<Fiber>, w: seq<FiberId>, r: CommitState): (r': CommitState)
    requires ParentsBelow(F) && AlternatesIn(F) && forall j :: 0 <= j < |w| ==> w[j] < |F|
    ensures !r.ok ==> r' == r
    ensures r.ops <= r'.ops
    decreases |w|
  {
    if w == [] || !r.ok then r else CommitPass(F, w[1..], CommitStep(F, w[0], r))
  }

  /** The pass over a subtree's walk `[x] + wc + ws` is the step on `x`,
      then the pass over the child's walk, then over the sibling's. */
  lemma CommitPassNode(F: seq<Fiber>, x: FiberId, wc: seq<FiberId>, ws: seq<FiberId>, r: CommitState)
    requires ParentsBelow(F) && AlternatesIn(F) && x < |F|
    requires (forall j :: 0 <= j < |wc| ==> wc[j] < |F|) && (forall j :: 0 <= j < |ws| ==> ws[j] < |F|)
    ensures forall j :: 0 <= j < |[x] + wc + ws| ==> ([x] + wc + ws)[j] < |F|
    ensures CommitPass(F, [x] + wc + ws, r) == CommitPass(F, ws, CommitPass(F, wc, CommitStep(F, x, r)))
  {
    assert [x][1..] == [];
    assert CommitPass(F, [x], r) == CommitStep(F, x, r);
    CommitPassAppend(F, [x], wc, r);
    CommitPassAppend(F, [x] + wc, ws, r);
  }

  /** `commitDeletion(x)`: remove the first host node found going down the
      `child` links from its host parent (which throws when the chain ends
      before a host node is found). */
  ghost function DeletionOps(F: seq<Fiber>, order: seq<nat>, x: FiberId, r: CommitState): (r': CommitState)
    requires WellFormed(F, order) && x < |F|
    ensures !r.ok ==> r' == r
    decreases Measure(F, order, Some(x))
  {
    WellFormedParentsBelow(F, order);
    assert LinksOk(F, order, x);
    if !r.ok then r
    else if F[x].dom.Some? then
      var parent := HostParentOf(F, x);
      if parent.None? then r.(ok := false)
      else CommitState(r.ops + [Remove(parent.value, F[x].dom.value)], true)
    else if F[x].child.None? then r.(ok := false)
    else
      assert LinksOk(F, order, F[x].child.value);
      DeletionOps(F, order, F[x].child.value, r)
  }

  /** `deletions.forEach(commitDeletion)`, over the first `i` deletions. */
  ghost function DeletionsPass(F: seq<Fiber>, order: seq<nat>, ds: seq<FiberId>, i: nat, r: CommitState): (r': CommitState)
    requires WellFormed(F, order) && i <= |ds| && forall j :: 0 <= j < |ds| ==> ds[j] < |F|
    ensures !r.ok ==> r' == r
  {
    if i == 0 then r else DeletionOps(F, order, ds[i - 1], DeletionsPass(F, order, ds, i - 1, r))
  }

  /** The fiber `k` steps down the `child` links from `x`, if the chain is
      that long. */
  ghost function Descendant(F: seq<Fiber>, order: seq<nat>, x: FiberId, k: nat): (d: Option<FiberId>)
    requires WellFormed(F, order) && x < |F|
    ensures d.Some? ==> d.value < |F|
    decreases k
  {
    if k == 0 then Some(x)
    else
      var d := Descendant(F, order, x, k - 1);
      if d.None? then None else assert LinksOk(F, order, d.value); F[d.value].child
  }

  /** The fiber `k` steps down the `child` links from `x` owns a host node,
      and none of those above it on the chain does. */
  ghost predicate FirstHostAt(F: seq<Fiber>, order: seq<nat>, x: FiberId, k: nat)
    requires WellFormed(F, order) && x < |F|
  {
    && Descendant(F, order, x, k).Some? && F[Descendant(F, order, x, k).value].dom.Some?
    && forall j :: 0 <= j < k ==> Descendant(F, order, x, j).Some? && F[Descendant(F, order, x, j).value].dom.None?
  }

  lemma {:induction false} DescendantShift(F: seq<Fiber>, order: seq<nat>, x: FiberId, k: nat)
    requires WellFormed(F, order) && x < |F| && F[x].child.Some?
    ensures F[x].child.value < |F|
    ensures Descendant(F, order, x, k + 1) == Descendant(F, order, F[x].child.value, k)
    decreases k
  {
    assert LinksOk(F, order, x);
    if k > 0 {
      DescendantShift(F, order, x, k - 1);
    }
  }

  /** Below a fiber with no host node, the first host on its chain is one
      step further than on its child's. */
  lemma FirstHostShift(F: seq<Fiber>, order: seq<nat>, x: FiberId, k: nat)
    requires WellFormed(F, order) && x < |F| && F[x].dom.None? && F[x].child.Some?
    ensures F[x].child.value < |F|
    ensures FirstHostAt(F, order, x, k + 1) <==> FirstHostAt(F, order, F[x].child.value, k)
  {
    assert LinksOk(F, order, x);
    var c := F[x].child.value;
    forall j | 0 <= j <= k
      ensures Descendant(F, order, x, j + 1) == Descendant(F, order, c, j)
    {
      DescendantShift(F, order, x, j);
    }
    if FirstHostAt(F, order, c, k) {
      forall j | 0 <= j < k + 1
        ensures Descendant(F, order, x, j).Some? && F[Descendant(F, order, x, j).value].dom.None?
      {
        if j > 0 {
          assert Descendant(F, order, x, j) == Descendant(F, order, c, j - 1);
        }
      }
    }
    if FirstHostAt(F, order, x, k + 1) {
      forall j | 0 <= j < k
        ensures Descendant(F, order, c, j).Some? && F[Descendant(F, order, c, j).value].dom.None?
      {
        assert Descendant(F, order, x, j + 1) == Descendant(F, order, c, j);
      }
    }
  }

  /** `commitDeletion(x)` on a chain whose first host is `k` steps down:
      it appends exactly one removal, of that fiber's host node from the
      host parent of that fiber, and throws exactly when that fiber has
      no host parent. */
  lemma {:induction false} DeletionRemovesOne(F: seq<Fiber>, order: seq<nat>, x: FiberId, r: CommitState, k: nat)
    requires WellFormed(F, order) && x < |F| && r.ok && FirstHostAt(F, order, x, k)
    ensures ParentsBelow(F)
    ensures var d := Descendant(F, order, x, k).value;
            var r' := DeletionOps(F, order, x, r);
            && (r'.ok <==> HostParentOf(F, d).Some?)
            && (r'.ok ==> r'.ops == r.ops + [Remove(HostParentOf(F, d).value, F[d].dom.value)])
            && (!r'.ok ==> r'.ops == r.ops)
    decreases k
  {
    WellFormedParentsBelow(F, order);
    assert LinksOk(F, order, x);
    if k > 0 {
      assert Descendant(F, order, x, 0) == Some(x);
      assert F[x].dom.None?;
      assert Descendant(F, order, x, 1).Some?;
      var c := F[x].child.value;
      FirstHostShift(F, order, x, k - 1);
      DescendantShift(F, order, x, k - 1);
      DeletionRemovesOne(F, order, c, r, k - 1);
    }
  }

  /** `commitDeletion(x)` throws when no fiber on `x`'s `child` chain owns
      a host node. */
  lemma {:induction false} DeletionWithoutHost(F: seq<Fiber>, order: seq<nat>, x: FiberId, r: CommitState)
    requires WellFormed(F, order) && x < |F| && r.ok
    requires forall k :: !FirstHostAt(F, order, x, k)
    ensures var r' := DeletionOps(F, order, x, r); !r'.ok && r'.ops == r.ops
    decreases Measure(F, order, Some(x))
  {
    assert LinksOk(F, order, x);
    assert !FirstHostAt(F, order, x, 0);
    if F[x].child.Some? {
      var c := F[x].child.value;
      assert LinksOk(F, order, c);
      forall k | 0 <= k
        ensures !FirstHostAt(F, order, c, k)
      {
        FirstHostShift(F, order, x, k);
      }
      DeletionWithoutHost(F, order, c, r);
    }
  }

  /** The deletion pass, when it goes through, appends one removal per
      queued deletion and nothing else. */
  lemma {:induction false} DeletionsPassRemoves(F: seq<Fiber>, order: seq<nat>, ds: seq<FiberId>, i: nat, r: CommitState)
    requires WellFormed(F, order) && i <= |ds| && (forall j :: 0 <= j < |ds| ==> ds[j] < |F|) && r.ok
    ensures var r' := DeletionsPass(F, order, ds, i, r);
            r'.ok ==> && |r'.ops| == |r.ops| + i && r'.ops[..|r.ops|] == r.ops
                      && forall j :: |r.ops| <= j < |r'.ops| ==> r'.ops[j].Remove?
    decreases i
  {
    if i > 0 {
      DeletionsPassRemoves(F, order, ds, i - 1, r);
      var r1 := DeletionsPass(F, order, ds, i - 1, r);
      var y := ds[i - 1];
      var r' := DeletionOps(F, order, y, r1);
      if r1.ok && r'.ok {
        if forall k :: !FirstHostAt(F, order, y, k) {
          DeletionWithoutHost(F, order, y, r1);
        } else {
          var k :| FirstHostAt(F, order, y, k);
          DeletionRemovesOne(F, order, y, r1, k);
          assert |r'.ops| == |r1.ops| + 1 && r'.ops[..|r1.ops|] == r1.ops && r'.ops[|r1.ops|].Remove?;
          assert r'.ops[..|r.ops|] == r1.ops[..|r.ops|];
        }
      }
    }
  }

  lemma {:induction false} CommitPassAppend(F: seq<Fiber>, a: seq<FiberId>, b: seq<FiberId>, r: CommitState)
    requires ParentsBelow(F) && AlternatesIn(F)
    requires (forall j :: 0 <= j < |a| ==> a[j] < |F|) && (forall j :: 0 <= j < |b| ==> b[j] < |F|)
    ensures forall j :: 0 <= j < |a + b| ==> (a + b)[j] < |F|
    ensures CommitPass(F, a + b, r) == CommitPass(F, b, CommitPass(F, a, r))
    decreases |a|
  {
    if a != [] && r.ok {
      assert (a + b)[1..] == a[1..] + b;
      CommitPassAppend(F, a[1..], b, CommitStep(F, a[0], r));
    } else if a == [] {
      assert a + b == b;
    }
  }

  /** Every operation of `ops` from index `from` on is what `commitWork`
      does for some host fiber of `w`. */
  ghost predicate OpsFromWalk(F: seq<Fiber>, w: seq<FiberId>, ops: seq<DomOp>, from: nat)
    requires ParentsBelow(F) && AlternatesIn(F) && forall j :: 0 <= j < |w| ==> w[j] < |F|
  {
    forall j :: from <= j < |ops| ==> exists i :: 0 <= i < |w| && F[w[i]].dom.Some? && CommitOpOf(F, w[i], ops[j])
  }

  /** Every operation the commit pass performs targets a fiber of the walk:
      an update of its own node from the props of its alternate, or an
      append of its node, which it owns as a placement fiber, under its
      host parent. */
  lemma {:induction false} CommitOpsFromWalk(F: seq<Fiber>, w: seq<FiberId>, r: CommitState)
    requires ParentsBelow(F) && AlternatesIn(F) && forall j :: 0 <= j < |w| ==> w[j] < |F|
    ensures OpsFromWalk(F, w, CommitPass(F, w, r).ops, |r.ops|)
    decreases |w|
  {
    if w != [] && r.ok {
      var r1 := CommitStep(F, w[0], r);
      var r2 := CommitPass(F, w[1..], r1);
      CommitOpsFromWalk(F, w[1..], r1);
      assert CommitPass(F, w, r) == r2;
      forall j | |r.ops| <= j < |r2.ops|
        ensures exists i :: 0 <= i < |w| && F[w[i]].dom.Some? && CommitOpOf(F, w[i], r2.ops[j])
      {
        if j < |r1.ops| {
          assert r2.ops[j] == r1.ops[j];
          assert F[w[0]].dom.Some? && CommitOpOf(F, w[0], r2.ops[j]);
        } else {
          var op := r2.ops[j];
          var i :| 0 <= i < |w[1..]| && F[w[1..][i]].dom.Some? && CommitOpOf(F, w[1..][i], op);
          assert w[1..][i] == w[i + 1];
        }
      }
    }
  }

  /** `op` is what `commitWork` does for the fiber `x`. */
  predicate CommitOpOf(F: seq<Fiber>, x: FiberId, op: DomOp)
    requires ParentsBelow(F) && AlternatesIn(F) && x < |F| && F[x].dom.Some?
  {
    && HostParentOf(F, x).Some?
    && (if F[x].effectTag == Update then
          && F[x].props.Some?
          && (F[x].alternate.Some? ==> F[F[x].alternate.value].props.Some?)
          && op == SetProps(F[x].dom.value, F[x].props.value,
                            if F[x].alternate.Some? && F[F[x].alternate.value].props.Some?
                            then F[F[x].alternate.value].props.value else map[])
        else
          F[x].effectTag == Placement && op == Append(HostParentOf(F, x).value, F[x].dom.value))
  }
}
