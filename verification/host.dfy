/** The host adapter.  A host node is abstracted to a map of properties, a
    set of bound (event, handler) listeners and its list of child nodes;
    `updateProps` reconciles the first two against the previous property
    bag. */
module Host {
  import opened Values
  import Element

  datatype Listener = Listener(event: string, handler: Value)

  datatype NodeKind = TextNode | ElementNode(tag: Value)

  class HostNode {
    const kind: NodeKind
    var attrs: Props
    var listeners: set<Listener>
    var children: seq<HostNode>

    constructor (kind: NodeKind)
      ensures this.kind == kind && attrs == map[] && listeners == {} && children == []
    {
      this.kind := kind;
      attrs := map[];
      listeners := {};
      children := [];
    }
  }

  /** `createDOM(type)`: a text node for the text tag, an element otherwise. */
  method CreateDom(elemType: Value) returns (node: HostNode)
    ensures fresh(node)
    ensures node.kind == if elemType == Str(Element.TEXT_ELEMENT) then TextNode else ElementNode(elemType)
    ensures node.attrs == map[] && node.listeners == {} && node.children == []
  {
    if elemType == Str(Element.TEXT_ELEMENT) {
      node := new HostNode(TextNode);
    } else {
      node := new HostNode(ElementNode(elemType));
    }
  }

  // ---------------------------------------------------------------------
  // What updateProps does to one key

  /** A key of `prev` that `next` no longer has (`children` is skipped). */
  predicate Dropped(key: string, next: Props, prev: Props) {
    key in prev && key != "children" && key !in next
  }

  /** A key of `next` whose value differs (`!==`) from `prev[key]`. */
  predicate Changed(key: string, next: Props, prev: Props) {
    key in next && key != "children" && next[key] != Get(prev, key)
  }

  /** The listener a dropped or changed listener key unbinds. */
  predicate Unbinds(key: string, next: Props, prev: Props) {
    IsListenerKey(key) && key in prev && (Dropped(key, next, prev) || Changed(key, next, prev))
  }

  /** The listener a changed listener key binds. */
  predicate Binds(key: string, next: Props, prev: Props) {
    IsListenerKey(key) && Changed(key, next, prev)
  }

  /** The properties of a node after `updateProps(dom, next, prev)`: plain
      keys dropped from `prev` are removed, plain keys whose value changed
      are set, every other key keeps its value. */
  function AttrsAfter(attrs: Props, next: Props, prev: Props): (r: Props)
    ensures forall k :: k in r <==>
              (k in attrs && !(Dropped(k, next, prev) && !IsListenerKey(k)))
              || (Changed(k, next, prev) && !IsListenerKey(k))
    ensures forall k :: k in r ==>
              r[k] == if Changed(k, next, prev) && !IsListenerKey(k) then next[k] else attrs[k]
  {
    map k | k in attrs.Keys + next.Keys &&
            ((k in attrs && !(Dropped(k, next, prev) && !IsListenerKey(k)))
             || (Changed(k, next, prev) && !IsListenerKey(k)))
      :: if Changed(k, next, prev) && !IsListenerKey(k) then next[k] else attrs[k]
  }

  /** Listeners unbound by `updateProps(dom, next, prev)`. */
  function Unbound(next: Props, prev: Props): (r: set<Listener>)
    ensures forall l :: l in r <==> exists k :: Unbinds(k, next, prev) && l == Listener(EventName(k), prev[k])
  {
    set k | k in prev && Unbinds(k, next, prev) :: Listener(EventName(k), prev[k])
  }

  /** Listeners bound by `updateProps(dom, next, prev)`. */
  function Bound(next: Props, prev: Props): (r: set<Listener>)
    ensures forall l :: l in r <==> exists k :: Binds(k, next, prev) && l == Listener(EventName(k), next[k])
  {
    set k | k in next && Binds(k, next, prev) :: Listener(EventName(k), next[k])
  }

  /** The listener set after `updateProps`, when no two listener keys name
      the same event. */
  function ListenersAfter(listeners: set<Listener>, next: Props, prev: Props): set<Listener> {
    (listeners - Unbound(next, prev)) + Bound(next, prev)
  }

  /** No two distinct listener keys of the two bags bind the same event
      (`onClick` and `onclick` would). */
  predicate EventNamesDistinct(next: Props, prev: Props) {
    forall k1, k2 ::
      (k1 in next.Keys + prev.Keys && k2 in next.Keys + prev.Keys &&
       IsListenerKey(k1) && IsListenerKey(k2) && EventName(k1) == EventName(k2)) ==> k1 == k2
  }

  /** The events whose listeners `updateProps` may touch. */
  function TouchedEvents(next: Props, prev: Props): set<string> {
    set k | k in next.Keys + prev.Keys && IsListenerKey(k) :: EventName(k)
  }

  // ---------------------------------------------------------------------
  // updateProps

  /** `updateProps(dom, nextProps, prevProps)`.  Keys are enumerated in an
      order the model leaves open.  Whatever the order, properties end up
      as `AttrsAfter` says, and listeners are only unbound from `Unbound`
      and only bound from `Bound`; when event names are distinct the
      listener set is exactly `ListenersAfter`. */
  method UpdateProps(dom: HostNode, next: Props, prev: Props)
    modifies dom
    ensures dom.attrs == AttrsAfter(old(dom.attrs), next, prev)
    ensures dom.listeners - old(dom.listeners) <= Bound(next, prev)
    ensures old(dom.listeners) - dom.listeners <= Unbound(next, prev)
    ensures EventNamesDistinct(next, prev) ==> dom.listeners == ListenersAfter(old(dom.listeners), next, prev)
    ensures dom.children == old(dom.children)
  {
    ghost var start := dom.listeners;
    RemoveDroppedProps(dom, next, prev);
    ghost var middle := dom.listeners;
    SetChangedProps(dom, next, prev);
    DroppedThenChanged(old(dom.attrs), next, prev);
    UnboundSplits(next, prev);
    assert Bound(next, prev) == BoundChanged(next, prev, next.Keys);
    assert dom.listeners - start <= (dom.listeners - middle) + (middle - start);
    assert start - dom.listeners <= (start - middle) + (middle - dom.listeners);
  }

  /** Properties after the first pass of `updateProps`, which has handled the
      keys of `prev` in `done`. */
  function AttrsAfterRemoval(attrs: Props, next: Props, prev: Props, done: set<string>): Props {
    map k | k in attrs && !(k in done && Dropped(k, next, prev) && !IsListenerKey(k)) :: attrs[k]
  }

  function UnboundDropped(next: Props, prev: Props, done: set<string>): set<Listener> {
    set k | k in done && k in prev && IsListenerKey(k) && Dropped(k, next, prev) :: Listener(EventName(k), prev[k])
  }

  /** The first loop of `updateProps`: remove what `next` no longer has. */
  method RemoveDroppedProps(dom: HostNode, next: Props, prev: Props)
    modifies dom
    ensures dom.attrs == AttrsAfterRemoval(old(dom.attrs), next, prev, prev.Keys)
    ensures dom.listeners == old(dom.listeners) - UnboundDropped(next, prev, prev.Keys)
    ensures dom.children == old(dom.children)
  {
    var todo := prev.Keys;
    ghost var done: set<string> := {};
    while todo != {}
      invariant todo + done == prev.Keys && todo !! done
      invariant dom.attrs == AttrsAfterRemoval(old(dom.attrs), next, prev, done)
      invariant dom.listeners == old(dom.listeners) - UnboundDropped(next, prev, done)
      invariant dom.children == old(dom.children)
      decreases todo
    {
      var key :| key in todo;
      ghost var attrsBefore := dom.attrs;
      if key != "children" && key !in next {
        if IsListenerKey(key) {
          dom.listeners := dom.listeners - {Listener(EventName(key), prev[key])};
        } else {
          dom.attrs := dom.attrs - {key};
        }
      }
      RemovalStep(old(dom.attrs), attrsBefore, dom.attrs, next, prev, done, key);
      UnboundDroppedStep(next, prev, done, key);
      todo := todo - {key};
      done := done + {key};
    }
  }

  /** One key of the first loop keeps the loop's property invariant. */
  lemma RemovalStep(start: Props, before: Props, after: Props, next: Props, prev: Props, done: set<string>, key: string)
    requires key in prev && key !in done
    requires before == AttrsAfterRemoval(start, next, prev, done)
    requires after == if Dropped(key, next, prev) && !IsListenerKey(key) then before - {key} else before
    ensures after == AttrsAfterRemoval(start, next, prev, done + {key})
  {
    var r := AttrsAfterRemoval(start, next, prev, done + {key});
    assert after.Keys == r.Keys;
  }

  /** The listeners the first loop unbinds, one key further. */
  lemma UnboundDroppedStep(next: Props, prev: Props, done: set<string>, key: string)
    ensures UnboundDropped(next, prev, done + {key}) ==
            UnboundDropped(next, prev, done)
            + (if key in prev && IsListenerKey(key) && Dropped(key, next, prev) then {Listener(EventName(key), prev[key])} else {})
  {
  }

  function AttrsAfterSetting(attrs: Props, next: Props, prev: Props, done: set<string>): Props {
    map k | k in attrs.Keys + next.Keys && (k in attrs || (k in done && Changed(k, next, prev) && !IsListenerKey(k))) ::
      if k in done && Changed(k, next, prev) && !IsListenerKey(k) then next[k] else attrs[k]
  }

  function UnboundChanged(next: Props, prev: Props, done: set<string>): set<Listener> {
    set k | k in done && k in prev && IsListenerKey(k) && Changed(k, next, prev) :: Listener(EventName(k), prev[k])
  }

  function BoundChanged(next: Props, prev: Props, done: set<string>): set<Listener> {
    set k | k in done && k in next && Binds(k, next, prev) :: Listener(EventName(k), next[k])
  }

  /** The second loop of `updateProps`: set or rebind what changed. */
  method SetChangedProps(dom: HostNode, next: Props, prev: Props)
    modifies dom
    ensures dom.attrs == AttrsAfterSetting(old(dom.attrs), next, prev, next.Keys)
    ensures dom.listeners - old(dom.listeners) <= BoundChanged(next, prev, next.Keys)
    ensures old(dom.listeners) - dom.listeners <= UnboundChanged(next, prev, next.Keys)
    ensures EventNamesDistinct(next, prev) ==>
              dom.listeners == (old(dom.listeners) - UnboundChanged(next, prev, next.Keys)) + BoundChanged(next, prev, next.Keys)
    ensures dom.children == old(dom.children)
  {
    var todo := next.Keys;
    ghost var done: set<string> := {};
    while todo != {}
      invariant todo + done == next.Keys && todo !! done
      invariant dom.attrs == AttrsAfterSetting(old(dom.attrs), next, prev, done)
      invariant dom.listeners - old(dom.listeners) <= BoundChanged(next, prev, done)
      invariant old(dom.listeners) - dom.listeners <= UnboundChanged(next, prev, done)
      invariant EventNamesDistinct(next, prev) ==>
                  dom.listeners == (old(dom.listeners) - UnboundChanged(next, prev, done)) + BoundChanged(next, prev, done)
      invariant dom.children == old(dom.children)
      decreases todo
    {
      var key :| key in todo;
      ghost var before := dom.listeners;
      ghost var attrsBefore := dom.attrs;
      if key != "children" && next[key] != Get(prev, key) {
        if IsListenerKey(key) {
          var event := EventName(key);
          if key in prev {
            dom.listeners := dom.listeners - {Listener(event, prev[key])};
          }
          dom.listeners := dom.listeners + {Listener(event, next[key])};
        } else {
          dom.attrs := dom.attrs[key := next[key]];
        }
      }
      todo := todo - {key};
      done := done + {key};
      SettingAttrsStep(old(dom.attrs), attrsBefore, dom.attrs, next, prev, done - {key}, key);
      SettingStep(old(dom.listeners), before, dom.listeners, next, prev, done - {key}, key);
    }
  }

  /** One key of the second loop keeps the loop's property invariant. */
  lemma SettingAttrsStep(start: Props, before: Props, after: Props,
                         next: Props, prev: Props, done: set<string>, key: string)
    requires key in next && key !in done
    requires before == AttrsAfterSetting(start, next, prev, done)
    requires after == if Changed(key, next, prev) && !IsListenerKey(key) then before[key := next[key]] else before
    ensures after == AttrsAfterSetting(start, next, prev, done + {key})
  {
    var r := AttrsAfterSetting(start, next, prev, done + {key});
    assert after.Keys == r.Keys;
  }

  /** One key of the second loop keeps the loop's listener invariants. */
  lemma SettingStep(start: set<Listener>, before: set<Listener>, after: set<Listener>,
                    next: Props, prev: Props, done: set<string>, key: string)
    requires key in next && key !in done && done <= next.Keys
    requires before - start <= BoundChanged(next, prev, done)
    requires start - before <= UnboundChanged(next, prev, done)
    requires EventNamesDistinct(next, prev) ==>
               before == (start - UnboundChanged(next, prev, done)) + BoundChanged(next, prev, done)
    requires after == if Binds(key, next, prev) then
                         (if key in prev then before - {Listener(EventName(key), prev[key])} else before)
                         + {Listener(EventName(key), next[key])}
                       else before
    ensures after - start <= BoundChanged(next, prev, done + {key})
    ensures start - after <= UnboundChanged(next, prev, done + {key})
    ensures EventNamesDistinct(next, prev) ==>
              after == (start - UnboundChanged(next, prev, done + {key})) + BoundChanged(next, prev, done + {key})
  {
    ChangedStep(next, prev, done, key);
    if EventNamesDistinct(next, prev) && Binds(key, next, prev) {
      var b := Listener(EventName(key), next[key]);
      // the listener this key unbinds is none that an earlier key bound
      forall l | l in BoundChanged(next, prev, done) && key in prev
        ensures l != Listener(EventName(key), prev[key])
      {
        var k :| k in done && k in next && Binds(k, next, prev) && l == Listener(EventName(k), next[k]);
        assert k != key;
      }
      // the listener this key binds is none that an earlier key unbound
      forall l | l in UnboundChanged(next, prev, done) ensures l != b {
        var k :| k in done && k in prev && IsListenerKey(k) && Changed(k, next, prev) && l == Listener(EventName(k), prev[k]);
        assert k != key;
      }
    }
  }

  /** The listeners the second loop binds and unbinds, one key further. */
  lemma ChangedStep(next: Props, prev: Props, done: set<string>, key: string)
    ensures BoundChanged(next, prev, done + {key}) ==
            BoundChanged(next, prev, done) + (if key in next && Binds(key, next, prev) then {Listener(EventName(key), next[key])} else {})
    ensures UnboundChanged(next, prev, done + {key}) ==
            UnboundChanged(next, prev, done)
            + (if key in prev && IsListenerKey(key) && Changed(key, next, prev) then {Listener(EventName(key), prev[key])} else {})
  {
  }

  /** Composing the two loops gives `AttrsAfter`. */
  lemma DroppedThenChanged(attrs: Props, next: Props, prev: Props)
    ensures AttrsAfterSetting(AttrsAfterRemoval(attrs, next, prev, prev.Keys), next, prev, next.Keys)
         == AttrsAfter(attrs, next, prev)
  {
    var a1 := AttrsAfterRemoval(attrs, next, prev, prev.Keys);
    var a2 := AttrsAfterSetting(a1, next, prev, next.Keys);
    var r := AttrsAfter(attrs, next, prev);
    assert a2.Keys == r.Keys;
  }

  /** The listeners `updateProps` unbinds are those of the first loop and
      those of the second. */
  lemma UnboundSplits(next: Props, prev: Props)
    ensures Unbound(next, prev) == UnboundDropped(next, prev, prev.Keys) + UnboundChanged(next, prev, next.Keys)
  {
    forall l | l in Unbound(next, prev)
      ensures l in UnboundDropped(next, prev, prev.Keys) + UnboundChanged(next, prev, next.Keys)
    {
      var k :| Unbinds(k, next, prev) && l == Listener(EventName(k), prev[k]);
      if Dropped(k, next, prev) {
        assert l in UnboundDropped(next, prev, prev.Keys);
      } else {
        assert l in UnboundChanged(next, prev, next.Keys);
      }
    }
  }

  // ---------------------------------------------------------------------
  // What the diff promises

  /** Diffing a bag against itself changes nothing: no property is set or
      removed and no listener is bound or unbound. */
  lemma SamePropsChangeNothing(attrs: Props, p: Props)
    ensures AttrsAfter(attrs, p, p) == attrs
    ensures Unbound(p, p) == {} && Bound(p, p) == {}
  {
    assert forall k :: !Changed(k, p, p) && !Dropped(k, p, p);
    assert AttrsAfter(attrs, p, p).Keys == attrs.Keys;
  }

  /** The `children` key is never copied to, nor removed from, the node. */
  lemma ChildrenKeyUntouched(attrs: Props, next: Props, prev: Props)
    ensures ("children" in AttrsAfter(attrs, next, prev)) == ("children" in attrs)
    ensures "children" in attrs ==> AttrsAfter(attrs, next, prev)["children"] == attrs["children"]
  {
  }

  /** A changed listener key replaces its handler: afterwards the new handler
      is bound under `EventName(key)` and the old one is not. */
  lemma ChangedListenerRebound(listeners: set<Listener>, next: Props, prev: Props, key: string)
    requires EventNamesDistinct(next, prev)
    requires IsListenerKey(key) && key in next && key in prev && next[key] != prev[key]
    ensures Listener(EventName(key), next[key]) in ListenersAfter(listeners, next, prev)
    ensures Listener(EventName(key), prev[key]) !in ListenersAfter(listeners, next, prev)
  {
    assert Binds(key, next, prev);
    assert Listener(EventName(key), next[key]) in Bound(next, prev);
    assert Unbinds(key, next, prev);
    assert Listener(EventName(key), prev[key]) in Unbound(next, prev);
    forall k | Binds(k, next, prev)
      ensures Listener(EventName(k), next[k]) != Listener(EventName(key), prev[key])
    {
      if k != key {
        assert EventName(k) != EventName(key);
      }
    }
  }

  /** A listener key dropped from the bag unbinds its handler. */
  lemma DroppedListenerUnbound(listeners: set<Listener>, next: Props, prev: Props, key: string)
    requires EventNamesDistinct(next, prev)
    requires IsListenerKey(key) && key in prev && key !in next
    ensures Listener(EventName(key), prev[key]) !in ListenersAfter(listeners, next, prev)
  {
    assert Unbinds(key, next, prev);
    assert Listener(EventName(key), prev[key]) in Unbound(next, prev);
    forall k | Binds(k, next, prev)
      ensures Listener(EventName(k), next[k]) != Listener(EventName(key), prev[key])
    {
      assert k != key;
      assert EventName(k) != EventName(key);
    }
  }

  /** Mounting (a fresh node, an empty previous bag) sets every plain key whose
      value is not `undefined` and binds every such listener. */
  lemma MountSetsDefinedProps(props: Props)
    ensures forall k :: k in AttrsAfter(map[], props, map[]) <==>
              k in props && k != "children" && !IsListenerKey(k) && props[k] != Undefined
    ensures forall k :: k in props && k != "children" && IsListenerKey(k) && props[k] != Undefined ==>
              Listener(EventName(k), props[k]) in ListenersAfter({}, props, map[])
  {
    forall k | k in props && k != "children" && IsListenerKey(k) && props[k] != Undefined
      ensures Listener(EventName(k), props[k]) in ListenersAfter({}, props, map[])
    {
      assert Binds(k, props, map[]);
    }
  }

  /** Listeners of events no listener key names are left alone. */
  lemma UntouchedEventsKept(listeners: set<Listener>, next: Props, prev: Props, l: Listener)
    requires l.event !in TouchedEvents(next, prev)
    ensures l in ListenersAfter(listeners, next, prev) <==> l in listeners
  {
    forall k | Unbinds(k, next, prev) ensures Listener(EventName(k), prev[k]) != l {
      assert EventName(k) in TouchedEvents(next, prev);
    }
    forall k | Binds(k, next, prev) ensures Listener(EventName(k), next[k]) != l {
      assert EventName(k) in TouchedEvents(next, prev);
    }
  }
}
