/** The element factory: `createElement` builds a node descriptor from a
    type, a property bag and children, wrapping primitive children into
    text descriptors. */
module Element {
  import opened Values

  const TEXT_ELEMENT: string := "TEXT_ELEMENT"

  /** Strings and numbers are rendered as text. */
  predicate IsTextNode(v: Value) {
    v.Str? || v.Num?
  }

  /** The descriptor of a text node whose content is `text`. */
  function CreateTextNode(text: Value): (e: Value)
    ensures e.Elem? && !IsTextNode(e)
    ensures e.elemType == Str(TEXT_ELEMENT)
    ensures e.props.Keys == {"nodeValue", "children"}
    ensures e.props["nodeValue"] == text && e.props["children"] == List([])
  {
    Elem(Str(TEXT_ELEMENT), map["nodeValue" := text, "children" := List([])])
  }

  /** How one child passed to `createElement` is stored. */
  function NormalizeChild(child: Value): (r: Value)
    ensures !IsTextNode(r)
    ensures !IsTextNode(child) ==> r == child
  {
    if IsTextNode(child) then CreateTextNode(child) else child
  }

  /** `{...props}`: `None` stands for a `null` or `undefined` property bag,
      which spreads to nothing. */
  function Spread(props: Option<Props>): Props {
    if props.Some? then props.value else map[]
  }

  /** `createElement(type, props, ...children)` */
  function CreateElement(elemType: Value, props: Option<Props>, children: seq<Value>): (e: Value)
    ensures e.Elem? && e.elemType == elemType
    ensures e.props.Keys == Spread(props).Keys + {"children"}
    ensures forall k :: k in Spread(props) && k != "children" ==> e.props[k] == Spread(props)[k]
    ensures e.props["children"].List?
    ensures |e.props["children"].items| == |children|
    ensures forall i :: 0 <= i < |children| && IsTextNode(children[i]) ==>
              e.props["children"].items[i] == CreateTextNode(children[i])
    ensures forall i :: 0 <= i < |children| && !IsTextNode(children[i]) ==>
              e.props["children"].items[i] == children[i]
  {
    var normalized := seq(|children|, i requires 0 <= i < |children| => NormalizeChild(children[i]));
    Elem(elemType, Spread(props)["children" := List(normalized)])
  }

  /** Normalizing is idempotent: feeding a descriptor's children back into
      `createElement` yields the same children. */
  lemma CreateElementChildrenStable(elemType: Value, props: Option<Props>, children: seq<Value>)
    ensures var once := CreateElement(elemType, props, children).props["children"].items;
            CreateElement(elemType, props, once).props["children"].items == once
  {
    var once := CreateElement(elemType, props, children).props["children"].items;
    var twice := CreateElement(elemType, props, once).props["children"].items;
    assert |twice| == |once|;
    forall i | 0 <= i < |once| ensures twice[i] == once[i] {
      if IsTextNode(children[i]) {
        assert once[i] == CreateTextNode(children[i]);
      }
    }
  }

  /** A `children` entry in the property bag has no effect: the element's
      `children` are those it would have without any props at all. */
  lemma ChildrenPropOverridden(elemType: Value, p: Props, children: seq<Value>)
    ensures CreateElement(elemType, Some(p), children).props["children"]
         == CreateElement(elemType, None, children).props["children"]
  {
  }

  /** The inline snapshot of `createElement("div", {id: "app"}, "hi")`. */
  lemma DivSnapshot()
    ensures CreateElement(Str("div"), Some(map["id" := Str("app")]), [Str("hi")])
         == Elem(Str("div"), map[
              "id" := Str("app"),
              "children" := List([Elem(Str(TEXT_ELEMENT), map["nodeValue" := Str("hi"), "children" := List([])])])])
  {
    var e := CreateElement(Str("div"), Some(map["id" := Str("app")]), [Str("hi")]);
    var text := Elem(Str(TEXT_ELEMENT), map["nodeValue" := Str("hi"), "children" := List([])]);
    assert e.props["children"].items == [text];
    assert e.props == map["id" := Str("app"), "children" := List([text])];
  }
}
