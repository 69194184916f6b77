/** The state hook's pure rules: how a queue of pending actions folds into
    the rendered state, and when a call of the updater `setState` is a
    no-op. */
module Hooks {
  import opened Values
  import opened Arena

  /** What the user's update functions return: `update(fn, s)` is the
      result of calling the function with identity `fn` on the state `s`. */
  type Updater = (nat, Value) -> Value

  /** `action(state)` for one queued action. */
  function Apply(update: Updater, a: Action, s: Value): Value {
    match a
    case CallUpdate(fn) => update(fn, s)
    case Replace(v) => v
  }

  /** `queue.forEach(action => state = action(state))` starting from `s`.
      Written from the last action, which is how a loop over the queue
      sees the state it has built so far. */
  function Drain(update: Updater, q: seq<Action>, s: Value): Value
    decreases |q|
  {
    if q == [] then s else Apply(update, q[|q| - 1], Drain(update, q[..|q| - 1], s))
  }

  /** The same fold, applying the first action first. */
  function DrainFromFront(update: Updater, q: seq<Action>, s: Value): Value
    decreases |q|
  {
    if q == [] then s else DrainFromFront(update, q[1..], Apply(update, q[0], s))
  }

  /** Draining two queues one after the other is draining their
      concatenation. */
  lemma {:induction false} DrainAppend(update: Updater, q: seq<Action>, r: seq<Action>, s: Value)
    ensures Drain(update, q + r, s) == Drain(update, r, Drain(update, q, s))
    decreases |r|
  {
    if r != [] {
      assert (q + r)[..|q + r| - 1] == q + r[..|r| - 1];
      DrainAppend(update, q, r[..|r| - 1], s);
    } else {
      assert q + r == q;
    }
  }

  /** The actions apply left to right: both readings of the fold agree. */
  lemma {:induction false} DrainInOrder(update: Updater, q: seq<Action>, s: Value)
    ensures Drain(update, q, s) == DrainFromFront(update, q, s)
    decreases |q|
  {
    if q != [] {
      assert q == [q[0]] + q[1..];
      DrainAppend(update, [q[0]], q[1..], s);
      assert Drain(update, [q[0]], s) == Apply(update, q[0], s);
      DrainInOrder(update, q[1..], Apply(update, q[0], s));
    }
  }

  /** A queued plain value overrides everything queued before it. */
  lemma ReplaceWins(update: Updater, q: seq<Action>, r: seq<Action>, v: Value, s: Value)
    requires forall j :: 0 <= j < |r| ==> r[j].Replace?
    ensures Drain(update, q + [Replace(v)] + r, s) == if r == [] then v else r[|r| - 1].value
  {
    DrainAppend(update, q + [Replace(v)], r, s);
    if r != [] {
      assert r == r[..|r| - 1] + [r[|r| - 1]];
    }
  }

  /** The action `setState(action)` queues: a function as it is, any other
      value `v` wrapped as `() => v`. */
  function ToAction(action: Value): (a: Action)
    ensures IsFunction(action) <==> a.CallUpdate?
    ensures IsFunction(action) ==> a.fn == action.id
    ensures !IsFunction(action) ==> a.value == action
  {
    if IsFunction(action) then CallUpdate(action.id) else Replace(action)
  }

  /** `setState(action)` returns early: the function's result on the
      hook's state, or the plain value, is `===` that state. */
  predicate SetStateSkips(update: Updater, action: Value, state: Value) {
    if IsFunction(action) then update(action.id, state) == state else action == state
  }

  /** The early return happens exactly when the action it would queue
      leaves the hook's state unchanged. */
  lemma SkipsIffUnchanged(update: Updater, action: Value, state: Value)
    ensures SetStateSkips(update, action, state) <==> Apply(update, ToAction(action), state) == state
  {
  }

  /** The comparison is made against the state of the last render, not
      against the state the pending actions lead to: `setState(state)`
      returns early whatever is pending, although queueing it would have
      brought the next render back to `state`; so when the pending actions
      move the state (`setState(5)` pending on 0, then `setState(0)`), the
      next render differs from the last call's value. */
  lemma {:induction false} PendingActionsIgnored(update: Updater, pending: seq<Action>, state: Value)
    requires !IsFunction(state)
    ensures SetStateSkips(update, state, state)
    ensures Drain(update, pending + [ToAction(state)], state) == state
    ensures Drain(update, pending, state) != state ==>
              Drain(update, pending + [ToAction(state)], state) != Drain(update, pending, state)
  {
    DrainAppend(update, pending, [ToAction(state)], state);
    assert [ToAction(state)][..0] == [];
  }
}
