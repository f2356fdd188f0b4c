// The Python values the pipeline passes around as parsed JSON: dicts keep
// their insertion order, so an object is an association list.
module JsonValue {
  import opened TextUtil

  datatype Value =
    | Null
    | Bool(b: bool)
    | Int(i: int)
    | Float(r: real)
    | Str(s: string)
    | List(items: seq<Value>)
    | Object(fields: seq<(string, Value)>)

  type Obj = seq<(string, Value)>

  /** dict.get(key): the value of the first entry under key, if any. */
  function Get(o: Obj, key: string): Option<Value>
  {
    if o == [] then None
    else if o[0].0 == key then Some(o[0].1)
    else Get(o[1..], key)
  }

  /** Get finds a value exactly when some entry holds it under the key. */
  lemma {:induction false} GetSpec(o: Obj, key: string)
    ensures Get(o, key).Some? ==> exists i :: 0 <= i < |o| && o[i] == (key, Get(o, key).value)
    ensures Get(o, key).None? ==> forall i :: 0 <= i < |o| ==> o[i].0 != key
  {
    if o != [] && o[0].0 != key {
      GetSpec(o[1..], key);
      assert forall i :: 1 <= i < |o| ==> o[i] == o[1..][i - 1];
      if Get(o, key).Some? {
        var i :| 0 <= i < |o[1..]| && o[1..][i] == (key, Get(o, key).value);
        assert o[i + 1] == o[1..][i];
      }
    }
  }

  /** The first entry under a key is the one Get finds. */
  lemma {:induction false} GetIndex(o: Obj, i: nat)
    requires i < |o| && forall k :: 0 <= k < i ==> o[k].0 != o[i].0
    ensures Get(o, o[i].0) == Some(o[i].1)
  {
    if i > 0 {
      assert o[1..][i - 1] == o[i];
      GetIndex(o[1..], i - 1);
    }
  }

  /** Objects with the same keys in the same order hold the same keys. */
  lemma {:induction false} GetSameKeys(a: Obj, b: Obj, key: string)
    requires |a| == |b| && forall k :: 0 <= k < |a| ==> a[k].0 == b[k].0
    ensures Get(a, key).Some? <==> Get(b, key).Some?
  {
    if a != [] && a[0].0 != key {
      GetSameKeys(a[1..], b[1..], key);
    }
  }

  function GetOr(o: Obj, key: string, default: Value): Value
  {
    match Get(o, key)
    case Some(v) => v
    case None => default
  }

  /** d[key] = v: replace the value in place, or append a new key at the end. */
  function Set(o: Obj, key: string, v: Value): (r: Obj)
    ensures Get(r, key) == Some(v)
    ensures forall k :: k != key ==> Get(r, k) == Get(o, k)
  {
    if o == [] then [(key, v)]
    else if o[0].0 == key then [(key, v)] + o[1..]
    else [o[0]] + Set(o[1..], key, v)
  }

  /** Python truthiness of a JSON value. */
  predicate Truthy(v: Value)
  {
    match v
    case Null => false
    case Bool(b) => b
    case Int(i) => i != 0
    case Float(r) => r != 0.0
    case Str(s) => s != ""
    case List(xs) => xs != []
    case Object(f) => f != []
  }

  /** `x or default` */
  function OrDefault(v: Value, default: Value): Value
  {
    if Truthy(v) then v else default
  }

  /** str(v) for the scalar values; floats and containers are not rendered here. */
  function PyStr(v: Value): Option<string>
  {
    match v
    case Null => Some("None")
    case Bool(b) => Some(if b then "True" else "False")
    case Int(i) => Some(IntToString(i))
    case Str(s) => Some(s)
    case _ => None
  }

  /** `for x in v`: a list yields its items, a string its characters and a
      dict its keys; any other value raises TypeError (None). */
  function Iter(v: Value): (r: Option<seq<Value>>)
    ensures v.List? ==> r == Some(v.items)
    ensures v.Null? || v.Bool? || v.Int? || v.Float? ==> r.None?
  {
    match v
    case List(xs) => Some(xs)
    case Str(s) => Some(seq(|s|, i requires 0 <= i < |s| => Str([s[i]])))
    case Object(fs) => Some(seq(|fs|, i requires 0 <= i < |fs| => Str(fs[i].0)))
    case _ => None
  }

  /** `v or []` */
  function OrEmpty(v: Value): Value
  {
    OrDefault(v, List([]))
  }
}

