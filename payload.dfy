/** Inbound payloads: the values `json.loads` produces, `dict.get` with a
    default, and Python's `int(...)` coercion of such a value. */
module Payload {
  import opened Options
  import opened PyText

  /** A decoded JSON value. `Real` is a finite float (a JSON number with a
      fraction or an exponent). */
  datatype Value =
    | Null
    | Bool(b: bool)
    | Int(i: int)
    | Real(r: real)
    | Str(s: string)
    | List(items: seq<Value>)
    | Object(fields: map<string, Value>)

  /** One inbound text frame after `json.loads`: `Invalid` when decoding raised. */
  datatype Frame = Invalid | Decoded(value: Value)

  /** `fields.get(key, default)`. */
  function Get(fields: map<string, Value>, key: string, default: Value): (v: Value)
    ensures key in fields ==> v == fields[key]
    ensures key !in fields ==> v == default
  {
    if key in fields then fields[key] else default
  }

  /** `int(x)` for a float `x`: rounds toward zero. */
  function Trunc(x: real): (t: int)
    ensures x >= 0.0 ==> t >= 0 && t as real <= x < t as real + 1.0
    ensures x < 0.0 ==> t <= 0 && t as real - 1.0 < x <= t as real
  {
    if x >= 0.0 then x.Floor else -((-x).Floor)
  }

  /** `int(v)`: `None` where Python raises `TypeError` or `ValueError`.
      `bool` is a subclass of `int`, so `True` coerces to 1. `None`, lists
      and objects are refused, and so is a blank string. */
  function IntOf(v: Value): (r: Option<int>)
    ensures (v.Null? || v.List? || v.Object?) ==> r.None?
    ensures v.Bool? ==> r.Some? && 0 <= r.value <= 1 && (r.value == 1 <==> v.b)
    ensures v.Str? && AllSpace(v.s) ==> r.None?
  {
    match v
    case Null => None
    case Bool(b) => Some(if b then 1 else 0)
    case Int(i) => Some(i)
    case Real(x) => Some(Trunc(x))
    case Str(s) => ParseInt(s)
    case List(_) => None
    case Object(_) => None
  }

  /** What one loop iteration of the read-receipt coercion appends. */
  function CoerceOne(v: Value): (r: seq<int>)
    ensures |r| <= 1 && (r != [] <==> IntOf(v).Some?)
    ensures r != [] ==> IntOf(v) == Some(r[0])
  {
    match IntOf(v)
    case Some(k) => [k]
    case None => []
  }

  /** The coerced list: every entry that `int()` accepts, in order; the
      others are dropped one by one. */
  function CoerceAll(vs: seq<Value>): (r: seq<int>)
    ensures |r| <= |vs|
  {
    if vs == [] then [] else CoerceOne(vs[0]) + CoerceAll(vs[1..])
  }

  /** Coercing one more entry extends the list built so far. */
  lemma {:induction false} CoerceAllAppend(vs: seq<Value>, v: Value)
    ensures CoerceAll(vs + [v]) == CoerceAll(vs) + CoerceOne(v)
  {
    if vs == [] {
      assert [v][1..] == [];
    } else {
      assert (vs + [v])[1..] == vs[1..] + [v];
      CoerceAllAppend(vs[1..], v);
    }
  }

  /** Every coerced id comes from some entry of the input, and there are never
      more ids than entries. */
  lemma {:induction false} CoerceAllSound(vs: seq<Value>)
    ensures |CoerceAll(vs)| <= |vs|
    ensures forall k :: 0 <= k < |CoerceAll(vs)| ==>
      exists j :: 0 <= j < |vs| && IntOf(vs[j]) == Some(CoerceAll(vs)[k])
  {
    if vs != [] {
      var rest := CoerceAll(vs[1..]);
      CoerceAllSound(vs[1..]);
      var r := CoerceAll(vs);
      assert r == CoerceOne(vs[0]) + rest;
      forall k | 0 <= k < |r|
        ensures exists j :: 0 <= j < |vs| && IntOf(vs[j]) == Some(r[k])
      {
        if k < |CoerceOne(vs[0])| {
          assert IntOf(vs[0]) == Some(r[k]);
        } else {
          var k' := k - |CoerceOne(vs[0])|;
          assert r[k] == rest[k'];
          var j :| 0 <= j < |vs[1..]| && IntOf(vs[1..][j]) == Some(rest[k']);
          assert vs[1..][j] == vs[j + 1];
        }
      }
    }
  }

  /** The coerced list is empty exactly when no entry coerces. */
  lemma {:induction false} CoerceAllEmpty(vs: seq<Value>)
    ensures CoerceAll(vs) == [] <==> forall j :: 0 <= j < |vs| ==> IntOf(vs[j]).None?
  {
    if vs != [] {
      CoerceAllEmpty(vs[1..]);
      if CoerceAll(vs) == [] {
        forall j | 0 <= j < |vs| ensures IntOf(vs[j]).None? {
          if j > 0 { assert vs[j] == vs[1..][j - 1]; }
        }
      }
    }
  }

  /** A list made only of JSON integers is kept whole and in order. */
  lemma {:induction false} CoerceAllInts(vs: seq<Value>)
    requires forall j :: 0 <= j < |vs| ==> vs[j].Int?
    ensures |CoerceAll(vs)| == |vs|
    ensures forall j :: 0 <= j < |vs| ==> CoerceAll(vs)[j] == vs[j].i
  {
    if vs != [] {
      assert forall j :: 0 <= j < |vs[1..]| ==> vs[1..][j] == vs[j + 1];
      CoerceAllInts(vs[1..]);
    }
  }
}
