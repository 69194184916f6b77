/** JavaScript values as the runtime sees them, and the few primitive
    operations on them that the renderer relies on (truthiness, property
    lookup on a plain object, the `on...` listener-key convention). */
module Values {

  datatype Option<+T> = None | Some(value: T)

  /** A JavaScript value.  Numbers are integers; a function is known only by
      its identity `id`; `Elem` is a node descriptor `{type, props}` and
      `List` an array. */
  datatype Value =
    | Undefined
    | Null
    | Bool(b: bool)
    | Num(n: int)
    | Str(s: string)
    | Fn(id: nat)
    | Elem(elemType: Value, props: map<string, Value>)
    | List(items: seq<Value>)

  /** A property bag: the own enumerable string keys of a plain object. */
  type Props = map<string, Value>

  /** `typeof v === "function"` */
  predicate IsFunction(v: Value) {
    v.Fn?
  }

  /** `v === null || v === undefined`: the values whose property access throws. */
  predicate IsNullish(v: Value) {
    v.Undefined? || v.Null?
  }

  /** JavaScript truthiness. */
  predicate Truthy(v: Value) {
    match v
    case Undefined => false
    case Null => false
    case Bool(b) => b
    case Num(n) => n != 0
    case Str(s) => s != ""
    case _ => true
  }

  /** `obj[key]` on a plain object: `undefined` when the key is absent. */
  function Get(p: Props, key: string): (v: Value)
    ensures key !in p ==> v == Undefined
    ensures key in p ==> v == p[key]
  {
    if key in p then p[key] else Undefined
  }

  /** `s[j]` on an array: `undefined` past its end. */
  function At(s: seq<Value>, j: nat): (v: Value)
    ensures j < |s| ==> v == s[j]
    ensures |s| <= j ==> v == Undefined
  {
    if j < |s| then s[j] else Undefined
  }

  /** `key.startsWith("on")`: the naming convention of listener properties. */
  predicate IsListenerKey(key: string) {
    |key| >= 2 && key[0] == 'o' && key[1] == 'n'
  }

  /** ASCII lower-casing of one character. */
  function LowerChar(c: char): char {
    if 'A' <= c <= 'Z' then (c as int + 32) as char else c
  }

  function Lower(s: string): (r: string)
    ensures |r| == |s|
    ensures forall i :: 0 <= i < |s| ==> r[i] == LowerChar(s[i])
  {
    seq(|s|, i requires 0 <= i < |s| => LowerChar(s[i]))
  }

  /** `key.slice(2).toLowerCase()`: the event a listener property binds. */
  function EventName(key: string): (r: string)
    ensures |key| >= 2 ==> |r| == |key| - 2
    ensures |key| < 2 ==> r == ""
  {
    if |key| >= 2 then Lower(key[2..]) else ""
  }
}
