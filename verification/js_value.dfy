/**
 The JSON-like values a builder configuration is made of, and the few
 JavaScript operations on them that the builder relies on: property lookup,
 truthiness and `Object.keys` paired with the property values.
 */
module JsValue {

  datatype Option<+T> = None | Some(value: T)

  /** A configuration value. Numbers, booleans and null carry only whether
      they are truthy, which is all the builder ever asks of them. */
  datatype Value =
    | Str(s: string)
    | Arr(items: seq<Value>)
    | Obj(fields: seq<Field>)
    | Prim(truthy: bool)

  /** One own enumerable property of an object; an object's fields are kept
      in the order `Object.entries` and `Object.keys` enumerate them. */
  datatype Field = Field(key: string, val: Value)

  /** JavaScript truthiness: the empty string and falsy primitives are false,
      every array and every object is true. */
  predicate Truthy(v: Value)
    ensures Truthy(v) <==> v != Str("") && v != Prim(false)
  {
    match v
    case Str(s) => s != []
    case Arr(_) => true
    case Obj(_) => true
    case Prim(t) => t
  }

  /** `obj[key]`: the value of the first field named `key`, if any. */
  function Get(fields: seq<Field>, key: string): (r: Option<Value>)
    ensures r.None? <==> forall i :: 0 <= i < |fields| ==> fields[i].key != key
    ensures r.Some? ==> exists i :: 0 <= i < |fields| && fields[i] == Field(key, r.value)
  {
    if fields == [] then None
    else if fields[0].key == key then Some(fields[0].val)
    else
      var r := Get(fields[1..], key);
      assert forall i :: 1 <= i < |fields| ==> fields[i] == fields[1..][i - 1];
      r
  }

  /** Looking a key up in a concatenation finds it in the first part when it is there. */
  lemma {:induction false} LemmaGetConcat(a: seq<Field>, b: seq<Field>, key: string)
    ensures Get(a + b, key) == if Get(a, key).Some? then Get(a, key) else Get(b, key)
  {
    if a != [] {
      assert (a + b)[0] == a[0];
      assert (a + b)[1..] == a[1..] + b;
      LemmaGetConcat(a[1..], b, key);
    } else {
      assert a + b == b;
    }
  }

  function DigitChar(d: nat): (c: char)
    requires d < 10
    ensures '0' <= c <= '9'
  {
    "0123456789"[d]
  }

  /** The decimal spelling of an index, as `Object.keys` writes array and string indices. */
  function Decimal(n: nat): (r: string)
    ensures r != []
    ensures forall i :: 0 <= i < |r| ==> '0' <= r[i] <= '9'
  {
    if n < 10 then [DigitChar(n)] else Decimal(n / 10) + [DigitChar(n % 10)]
  }

  /** `Object.keys(v)` paired with `v[key]` for each key: the fields of an
      object, the indices and elements of an array, the indices and one-char
      strings of a string, and nothing for a number, a boolean or null. */
  function Members(v: Value): (r: seq<Field>)
    ensures v.Obj? ==> r == v.fields
    ensures v.Arr? ==> (|r| == |v.items| &&
      forall i :: 0 <= i < |r| ==> r[i].key == Decimal(i) && r[i].val == v.items[i])
    ensures v.Str? ==> (|r| == |v.s| &&
      forall i :: 0 <= i < |r| ==> r[i].key == Decimal(i) && r[i].val == Str([v.s[i]]))
    ensures v.Prim? || !Truthy(v) ==> r == []
  {
    match v
    case Obj(fields) => fields
    case Arr(items) => seq(|items|, i requires 0 <= i < |items| => Field(Decimal(i), items[i]))
    case Str(s) => seq(|s|, i requires 0 <= i < |s| => Field(Decimal(i), Str([s[i]])))
    case Prim(_) => []
  }
}
