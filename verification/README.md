# tiny-react in Dafny

A model of the core of tiny-react (`src/core/react.js`), a small React-like
renderer. The renderer does four things:

- It turns `createElement` calls into element descriptors.
- It renders the descriptor tree into a tree of *fibers*, one unit of work at
  a time. `performWorkOfUnit` renders one fiber and picks the next fiber of a
  depth-first pre-order walk. `reconcileChildren` diffs a fiber's new
  children, by position, against the children of the fiber's previous
  generation (its *alternate*).
- It runs two hooks inside function components: `useState`, whose `setState`
  queues actions that the next render folds into the state, and `useEffect`,
  whose callbacks fire on mount or when their dependencies change.
- It commits a finished tree:
  - it removes the host nodes of deleted fibers;
  - it appends placed nodes and updates the properties of updated ones (`updateProps`);
  - it runs the effect cleanups, then the effect callbacks.

## How the model is built

- **JavaScript values** are the `Values.Value` datatype:
  - numbers are integers;
  - a function is known only by an identity;
  - `===` is structural equality.
- **Fibers** are records in an arena. `Runtime.Runtime.fibers` is a `seq<Fiber>`.
  - The `parent`, `child`, `sibling` and `alternate` links are indices into it.
  - A ghost rank `order` makes every walk down or along a chain terminate.
  - The arena is kept `WellFormed` (`arena.dfy`).
- **State and effect hook cells** are objects in the source, shared between fiber generations. The model keeps each in its own arena field (`cells`, `queues`, `effectCells`, `cleanups`) and names it by index.
- **The module-level variables** become the fields of the class `Runtime.Runtime`: `nextWorkOfUnit`, `wipRoot`, `wipFiber`, `currentRoot`, `deletions`, `stateHooks`, `stateIndex` and `effectHooks`.
  - The operations that assign these variables are methods of the class.
  - Each method states the whole new state and keeps the invariant `Valid()`.
- **Pure specifications and proofs.** The loops and recursive walks are specified by pure functions, and the lemmas are proved about those functions:
  - `Reconcile.ArenaAfter`/`Progress`/`Deleted` specify `reconcileChildren`;
  - `Hooks.Drain` specifies the state queue fold;
  - `Commit.CommitPass` specifies `commitWork`;
  - `Effects.RunPass`/`CleanupPass` specify `commitEffectHooks`.
- **Host nodes** (the DOM) are the class `Host.HostNode`.
  - Each node has a property map, a set of bound `(event, handler)` listeners and a list of children.
  - `updateProps` (`Host.UpdateProps`) is applied to the node when a fiber first gets one.
  - The commit records each host call it makes as a `Commit.DomOp` in a log (`SetProps`, `Append`, `Remove`) and does not apply it to the nodes. `Host.UpdateProps`, `Commit.Appended` and `Commit.Without` give the meaning of the three calls.
- **User code** is given as total functions in `Runtime.Closures`:
  - which hook calls a component makes, with each call's arguments computed from the states its earlier `useState` calls returned;
  - the element it returns, given the states its `useState` calls returned;
  - what an update function returns;
  - what an effect callback returns as its cleanup.
- **Exceptions.** A JavaScript exception (reading a property of `null` or `undefined`) becomes an `ok = false` outcome. It is never a precondition. The model stops where the source throws.

## Model

| member | source | states |
|---|---|---|
| Element.CreateTextNode | src/core/react.js:24-30 | a text descriptor has type `TEXT_ELEMENT` and exactly the props `nodeValue` (the text) and `children` (empty) |
| Element.CreateElement | src/core/react.js:32-40 | the descriptor keeps the type, has the spread props' keys plus `children`, keeps every other prop's value, and has one child per argument: a string or number child becomes its text descriptor, any other child is kept as it is |
| Element.CreateElementChildrenStable | src/core/react.js:36-38 | normalising children is idempotent: passing a descriptor's children back through `createElement` yields the same children |
| Element.ChildrenPropOverridden | src/core/react.js:34-38 | a `children` entry in the props has no effect: the element's `children` are the ones it gets with no props at all |
| Element.DivSnapshot | test/create-element.spec.js:7-24 | `createElement("div", {id: "app"}, "hi")` is the descriptor of the inline snapshot |
| Host.CreateDom | src/core/react.js:42-45 | a fresh, empty node; a text node exactly for `TEXT_ELEMENT`, an element of that tag otherwise |
| Host.AttrsAfter | src/core/react.js:47-79 | after `updateProps`, a key is present iff it was present and is not a dropped plain key, or it is a changed plain key; changed plain keys take the new value, all others keep theirs |
| Host.Unbound | src/core/react.js:49-72 | a listener is unbound iff it is the old handler of an `on...` key that was dropped or changed |
| Host.Bound | src/core/react.js:63-73 | a listener is bound iff it is the new handler of an `on...` key whose value changed |
| Host.UpdateProps | src/core/react.js:47-79 | in whatever order the keys are enumerated, the node's properties become `AttrsAfter`; listeners are added only from `Bound` and removed only from `Unbound`; with distinct event names the listener set is exactly `ListenersAfter`; children are untouched |
| Host.RemoveDroppedProps | src/core/react.js:49-61 | the first loop removes the dropped plain keys and unbinds the handlers of dropped listener keys, and nothing else |
| Host.SetChangedProps | src/core/react.js:63-78 | the second loop sets the changed plain keys and rebinds the changed listener keys (old handler out when there was one, new handler in) |
| Host.DroppedThenChanged | src/core/react.js:47-79 | the removal loop followed by the setting loop gives `AttrsAfter` |
| Host.UnboundSplits | src/core/react.js:47-79 | the listeners `updateProps` unbinds are exactly those of the first loop plus those of the second |
| Host.SamePropsChangeNothing | src/core/react.js:47-79 | diffing a bag against itself sets, removes, binds and unbinds nothing |
| Host.ChildrenKeyUntouched | src/core/react.js:50-52 | the `children` key is never written to or removed from a node |
| Host.ChangedListenerRebound | src/core/react.js:67-73 | a changed listener key leaves the new handler bound and the old one unbound |
| Host.DroppedListenerUnbound | src/core/react.js:53-56 | a dropped listener key leaves its handler unbound |
| Host.MountSetsDefinedProps | src/core/react.js:63-78 | mounting (empty previous bag) sets exactly the plain keys whose value is not `undefined`, and binds every such listener |
| Host.UntouchedEventsKept | src/core/react.js:47-79 | listeners of events that no listener key names stay as they were |
| Arena.NearestHost | src/core/react.js:174-177 | the fiber found walking up from a fiber owns a host node and is that fiber or an ancestor of it |
| Arena.NearestHostFound | src/core/react.js:174-177 | in a well-formed arena the upward walk always finds a host node, at the closest ancestor-or-self that owns one |
| Arena.ClimbFindsClosestSibling | src/core/react.js:161-167 | the climb returns the sibling of the closest ancestor-or-self that has one, or nothing when none has |
| Arena.NextFollowsWalk | src/core/react.js:151-167 | following the returned next fiber from `x` visits `x`'s subtree and later siblings in depth-first pre-order, then leaves it where the climb says |
| Arena.RootWalkEnds | src/core/react.js:158-167 | from a root, the next fiber after the last fiber of its walk is none: the work loop ends exactly when the tree is done |
| Arena.CopyWellFormed | src/core/react.js:325-328 | the root that `setState` schedules (a copy of the component's fiber, with the fiber as its alternate) keeps the arena well formed |
| Arena.RootWellFormed | src/core/react.js:280-287 | the root `render` creates keeps the arena well formed |
| Reconcile.ChildType | src/core/react.js:86 | `child.type` throws exactly for a nullish child, is the element type of a descriptor and `undefined` for any other value |
| Reconcile.NewFiber | src/core/react.js:87-107 | a slot's new fiber has the reconciled fiber as its parent, no child, no sibling and no hooks |
| Reconcile.Progress | src/core/react.js:84-125 | the loop completes all slots or stops at a throwing slot, never earlier than it started |
| Reconcile.ArenaAfterStep | src/core/react.js:116-124 | each slot appends its fiber, if any, and links it from `fiber.child` at slot 0 or from the previous fiber's `sibling` |
| Reconcile.ArenaAfterWellFormed | src/core/react.js:81-125 | reconciling keeps the arena well formed |
| Reconcile.ArenaAfterKeepsOld | src/core/react.js:81-125 | every existing fiber is left as it was except for `fiber.child` |
| Reconcile.UpdateSlot | src/core/react.js:86-96 | a child with the old fiber's type yields an "update" fiber with the old host node, the old fiber as its alternate, the same type and the child's props |
| Reconcile.PlacementSlot | src/core/react.js:97-111 | any other truthy child yields a "placement" fiber with no host node and no alternate, and the old fiber at its position is queued for deletion |
| Reconcile.DeletedAt | src/core/react.js:109-111 | an old fiber whose slot does not reuse it is queued for deletion |
| Reconcile.ReusedOrDeleted | src/core/react.js:84-115 | each old fiber within the slots is either reused once or queued for deletion once |
| Reconcile.OldChainAccountedFor | src/core/react.js:81-131 | a completed call reuses or deletes every old fiber; the surplus old fibers are queued at the end, in chain order |
| Reconcile.NewChainFollowsChildren | src/core/react.js:116-124 | after a completed call, `fiber.child` and the `sibling` links form exactly the created fibers, in children order |
| Reconcile.SameTypesReusePositions | src/core/react.js:84-125 | when each child keeps the type at its position, nothing is deleted and slot `i` reuses the host node of the `i`-th old fiber (positional, not keyed) |
| RenderPhase.SlotFiberIsNewFiber | src/core/react.js:85-108 | the fiber the loop body builds from `oldFiber` is the specification's slot fiber |
| RenderPhase.SlotStart | src/core/react.js:85-115 | one slot's fiber, its deletion decision and the next old fiber agree with the specification; the slot throws exactly when `child.type` does |
| RenderPhase.LinkSlot | src/core/react.js:116-124 | linking gives the specification's arena after the slot; it throws exactly at a later slot while no fiber has been created |
| RenderPhase.QueueRest | src/core/react.js:127-130 | the final loop queues the old chain from `oldFiber` on, in order |
| RenderPhase.FirstOldFiber | src/core/react.js:82 | `oldFiber` starts at the head of the alternate's child chain |
| RenderPhase.NoSlots | src/core/react.js:82-83 | before the loop, the arena and queue are unchanged and `oldFiber` heads the old chain |
| RenderPhase.SlotTurn | src/core/react.js:84-125 | one turn of the loop moves the arena, queue, `oldFiber` and `prevChild` from the specification's state after `i` slots to that after `i + 1`, or stops where the specification throws |
| RenderPhase.ReconcileSlot | src/core/react.js:84-125 | `SlotTurn` stated on the loop invariant |
| RenderPhase.ReconcileArena | src/core/react.js:81-131 | the whole call yields the specification's arena, deletion queue and outcome |
| RenderPhase.DrainQueue | src/core/react.js:305-307 | the queue loop returns the left-to-right fold of the actions |
| Hooks.DrainAppend | src/core/react.js:305-307 | folding two queues in turn is folding their concatenation |
| Hooks.DrainInOrder | src/core/react.js:305-307 | the actions apply first to last |
| Hooks.ReplaceWins | src/core/react.js:318-323 | a queued plain value overrides everything queued before it |
| Hooks.ToAction | src/core/react.js:318-323 | `setState` queues a function as it is and wraps any other value |
| Hooks.SkipsIffUnchanged | src/core/react.js:314-322 | `setState` returns early iff the action it would queue leaves the hook's state as it is |
| Hooks.PendingActionsIgnored | src/core/react.js:312-323 | whatever is pending, `setState(v)` with `v` the last rendered state returns early, although queueing it would bring the next render back to `v`; so when the pending actions move the state, the next render differs from `v` |
| Effects.RunPassAppend | src/core/react.js:231-232 | the `run` pass over a walk splits at any point |
| Effects.CleanupPassAppend | src/core/react.js:245-246 | the cleanup pass over a walk splits at any point |
| Effects.MountRunsEveryCallback | src/core/react.js:226-229 | on mount every callback runs in hook order and its result becomes the hook's cleanup |
| Effects.UnchangedDepsSkip | src/core/react.js:217-221 | on update, a hook whose dependencies are element-wise `===` to the previous ones does not fire |
| Effects.ChangedDepFires | src/core/react.js:217-223 | on update, a hook fires when a previous dependency differs from the new one at its index |
| Effects.EmptyDepsOnMountOnly | src/core/react.js:213-215 | a hook with no dependencies fires on mount and never on update |
| Effects.GrownDepsIgnored | src/core/react.js:218-220 | only the previous dependencies are compared: appended dependencies do not make a hook fire |
| Effects.CleanupRunsRegardless | src/core/react.js:239-244 | every recorded cleanup of a previous hook with dependencies runs, whether or not the new hook fires |
| Effects.CleanupPassRunsNoCallback | src/core/react.js:234-247 | the cleanup pass calls only cleanups |
| Effects.RunPassOnlyCallbacks | src/core/react.js:206-233 | the `run` pass calls only callbacks |
| Effects.CleanupsPrecedeCallbacks | src/core/react.js:248-249 | every cleanup of a commit is called before every callback |
| Commit.Without | src/core/react.js:199 | `removeChild` leaves every other child and drops the node |
| Commit.Appended | src/core/react.js:186 | `append` makes the node the last child, once, and keeps the others |
| Commit.CommitPass | src/core/react.js:170-191 | the pass only adds host calls, and stops adding them once it has thrown |
| Commit.CommitPassNode | src/core/react.js:189-190 | the pass over a subtree is the fiber's own step, then its child's walk, then its sibling's |
| Commit.DeletionRemovesOne | src/core/react.js:193-203 | when a fiber `k` steps down the deleted fiber's `child` chain is the first with a host node, the deletion appends exactly one removal, of that node from its fiber's host parent, and throws exactly when that fiber has no host parent |
| Commit.DeletionWithoutHost | src/core/react.js:193-203 | when no fiber on the deleted fiber's `child` chain has a host node, the deletion throws and appends nothing |
| Commit.DeletionsPassRemoves | src/core/react.js:253 | when the deletions all go through, the pass appends one removal per queued deletion and nothing else |
| Commit.CommitOpsFromWalk | src/core/react.js:178-188 | every host call of the pass is a props update of an "update" fiber's node from its alternate's props, or an append of a "placement" fiber's node to its host parent |
| CommitPhase.FindHostParent | src/core/react.js:174-177 | the loop returns the host node of the closest ancestor that owns one |
| CommitPhase.CommitFiber | src/core/react.js:174-188 | one fiber's commit logs the specification's host call for it (props update, append or none) and throws where the specification does |
| CommitPhase.CommitWork | src/core/react.js:170-191 | the recursive commit logs the specification's host calls over the pre-order walk, in order |
| CommitPhase.CommitDeletion | src/core/react.js:193-203 | the deletion logs the removal of `DeletionOps`: that of the first host node down the `child` links, from its host parent, and throws when there is none |
| CommitPhase.CommitDeletions | src/core/react.js:253 | the deletions' removals are logged in queue order |
| CommitPhase.DepsDiffer | src/core/react.js:218-220 | `some` finds a previous dependency differing from the new one at its index |
| CommitPhase.FiberEffects | src/core/react.js:210-230 | one fiber's `run` step is the specification's |
| CommitPhase.RunEffects | src/core/react.js:206-233 | the recursive `run` is the specification's pass over the pre-order walk |
| CommitPhase.FiberCleanups | src/core/react.js:239-244 | one fiber's cleanup step is the specification's |
| CommitPhase.CleanupEffects | src/core/react.js:234-247 | the recursive `runCleanup` is the specification's pass over the pre-order walk |
| CommitPhase.CommitEffectHooks | src/core/react.js:205-250 | the cleanup pass, then the `run` pass, both from the root |
| CommitPhase.CommitTree | src/core/react.js:252-254 | the log holds the deletions' removals, then the host calls of `commitWork` from the root's child, stopping at the first throw |
| Runtime.Runtime.constructor | src/core/react.js:6-14 | the runtime starts with no fibers, no deletions, no work, no hook cells, queues or cleanups, empty hook lists, hook index 0 and no host nodes |
| Runtime.Runtime.Render | src/core/react.js:280-289 | `render` adds a root that owns the container and has props `{children: [el]}`, and makes it both the work in progress and the next unit of work |
| Runtime.Runtime.NextUnit | src/core/react.js:158-167 | the loop returns the fiber's child, or the sibling of the closest ancestor-or-self that has one, or nothing |
| Runtime.Runtime.ReconcileChildren | src/core/react.js:81-131 | on the runtime's arena and deletion queue, the call is the specification's and changes no existing fiber but the reconciled one's `child` |
| Runtime.Runtime.UseState | src/core/react.js:291-311 | the new cell starts from the alternate's cell at the same index (sharing its queue) or from `initial` with a new queue; the queue is folded into the state and emptied; the index grows by one and the cell joins the fiber's hooks; it throws without a fiber or without a previous cell at that index |
| Runtime.Runtime.PushStateCell | src/core/react.js:305-311 | folds the queue into the state, empties the queue and appends the cell to the fiber's hooks |
| Runtime.Runtime.UseEffect | src/core/react.js:334-342 | a new cell with the callback, the dependencies and no cleanup joins the hook list and is stored on the work-in-progress fiber; it throws when there is none |
| Runtime.Runtime.SetState | src/core/react.js:312-330 | when the action would leave the state as it is, nothing changes; otherwise the action is queued on the cell and a copy of the component's fiber, with the fiber as its alternate, becomes both the root in progress and the next unit of work |
| Runtime.Runtime.Enqueue | src/core/react.js:318-329 | queues the action and schedules the copied fiber |
| Runtime.Runtime.HookStep | src/core/react.js:291-342 | a state hook advances the index by one and adds a cell holding the returned state; an effect hook adds an effect cell with the callback and dependencies computed from the states returned so far |
| Runtime.Runtime.HookTurn | src/core/react.js:138 | one hook call of a rendering component keeps the hook bookkeeping of the calls so far |
| Runtime.Runtime.RunHooks | src/core/react.js:138 | a component's hook calls succeed iff the alternate's hooks have a cell for every `useState`; the state hooks and effect hooks are then the new cells, in call order |
| Runtime.Runtime.BeginComponent | src/core/react.js:134-137 | resets the hook lists and index and makes the fiber `wipFiber` |
| Runtime.Runtime.UpdateFunctionComponent | src/core/react.js:133-139 | renders a function component: its hooks' bookkeeping as in `RunHooks`, then reconciliation of its single returned child |
| Runtime.Runtime.CreateHostNode | src/core/react.js:142-147 | a fiber without a node gets a fresh node with the fiber's props set on it (its properties are `AttrsAfter` from nothing, its listeners at most `Bound` from nothing, exactly those with distinct event names); it throws when the fiber has no props |
| Runtime.Runtime.UpdateHostComponent | src/core/react.js:141-149 | a host fiber keeps its node or gets a fresh one with its props and listeners set as in `CreateHostNode`, then its `children` prop is reconciled; it throws without an array of children |
| Runtime.Runtime.PerformWorkOfUnit | src/core/react.js:151-168 | renders a function fiber as `UpdateFunctionComponent` does and a host fiber as `UpdateHostComponent` does, then returns the next fiber of the pre-order walk in the new arena |
| Runtime.Runtime.CommitRoot | src/core/react.js:252-259 | logs the host calls of the deletions and `commitWork`, then runs the effect passes; on success the root in progress becomes current and the deletion queue empties, and after a throw they stay as they were |
| Runtime.Runtime.CommitEffects | src/core/react.js:255-258 | the effect passes, then the root hand-over |

## Left out

- The scheduler is not modelled: `workLoop`, `requestIdleCallback`, the deadline and the sibling-type early exit (src/core/react.js:261-278, 288). They depend on the browser's idle timing. The steps they drive (`performWorkOfUnit`, `commitRoot`) are modelled.
- Real DOM calls are not modelled. A host node is abstracted to a property map, a listener set and a child list.
- User closures are not called. They are functions of their inputs in `Runtime.Closures`, so a closure that re-enters the runtime (for example, calls `setState` while rendering) is not modelled.
- Runtime.Runtime.UpdateFunctionComponent: the source calls the component once (`fiber.type(fiber.props)`). The model splits that call into the hook calls it makes and the element it returns.
- Runtime.Runtime.UpdateFunctionComponent: the contract states the hook bookkeeping and the `wipFiber` switch, not the arena after the reconciliation. The arena is stated by `ReconcileChildren`.
- Runtime.Runtime.UpdateHostComponent: the contract states the host node and the throw conditions. The arena after the reconciliation is stated by `ReconcileChildren`.
- Runtime.Runtime.PerformWorkOfUnit: on a throw the contract states only that the state is still valid. It does not state which partial changes the source leaves behind.
- Runtime.Runtime.ReconcileChildren: when `prevChild.sibling` throws, the fiber that slot created is still appended to the arena. It is unreachable, as the object is in the source.
- CommitPhase.CommitFiber: the props update and the append are logged as `SetProps` and `Append` calls, not applied to the host nodes' properties, listeners and child lists.
- CommitPhase.CommitWork: the host calls are logged in order, not applied to the host nodes.
- CommitPhase.CommitDeletion: the removal is logged as a `Remove` call, not applied to the parent node's child list.
- CommitPhase.CommitDeletions: the removals are logged, not applied to the host nodes.
- CommitPhase.CommitTree: the host calls are logged, not applied to the host nodes.
- Runtime.Runtime.CommitRoot: the host calls of the commit are logged in `domLog`, not applied to the host nodes, so the nodes' state after a commit is not stated.
- Runtime.Runtime.PerformWorkOfUnit: on success the contract passes on the callee's contract and the next fiber. The arena after the reconciliation is stated by `ReconcileChildren`.
- Runtime.Closures: which hook calls a component makes, and how many, depend only on its type and props, not on its state. The rules of hooks require calls to be unconditional. The calls' arguments and the returned element do see the states.
- Host.CreateDom: `document.createElement` of a type that is not a valid tag name raises `InvalidCharacterError`. The model creates a node for any type.
- Host.UpdateProps: `key in nextProps` and `prevProps[key]` also find inherited keys of `Object.prototype` (`toString`, `constructor`). The model looks keys up in the property map only.
- Runtime.Runtime.UseEffect: before any function component has rendered, `effectHooks` is `null` in the source and the push itself throws. The model starts from an empty list, so it records the cell before reporting the throw.
- Commit.Appended: `append` of a node that has another parent does not detach it from that parent.
- Commit.Without: `removeChild` of a node that is not a child (which raises `NotFoundError`) is modelled as leaving the list as it is.
- Numbers are integers: floating point, `NaN` and `-0` are not modelled.
- `===` on objects, arrays and functions is modelled as structural equality, so two distinct but equal arrays count as the same.
- `toLowerCase` is ASCII only.
- `...props` on a non-object value other than `null` or `undefined` is not modelled. A props argument is a property bag or absent.
- The order of `Object.entries` is left open. The `Host.UpdateProps` contract holds for every order. When two listener keys name the same event (`onClick`, `onclick`), only bounds on the listener set are stated.
- Effect dependencies are always arrays; a non-array `deps` argument is not modelled.
- A cleanup is a function or nothing; calling a non-function cleanup (a TypeError) is not modelled.
- The model is limited to `src/core/react.js`; src/app.jsx, src/core/react-dom.js, vite.config.mjs and test/create-element.spec.js are not part of this model (apart from that test's snapshot, restated by `Element.DivSnapshot`).
