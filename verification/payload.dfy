/** Decoded JSON values as Python's json module hands them to the client. */
module Payload {
  import opened Wrappers

  /** A decoded JSON value. An object keeps its members in document order, as a
      Python dict does. Numbers with a fraction are exact reals here. */
  datatype Json =
    | JNull
    | JBool(b: bool)
    | JInt(i: int)
    | JReal(r: real)
    | JStr(s: string)
    | JArr(items: seq<Json>)
    | JObj(members: seq<(string, Json)>)

  /** `dict.get(name)`: the value of the first member called `name`, or null
      when there is none. A member whose value is null and a missing member
      therefore look the same. */
  function Get(members: seq<(string, Json)>, name: string): Json
  {
    if |members| == 0 then JNull
    else if members[0].0 == name then members[0].1
    else Get(members[1..], name)
  }

  /** A name no member carries reads as null. */
  lemma {:induction false} GetMissing(members: seq<(string, Json)>, name: string)
    requires forall i :: 0 <= i < |members| ==> members[i].0 != name
    ensures Get(members, name) == JNull
  {
    if |members| > 0 {
      GetMissing(members[1..], name);
    }
  }

  /** Otherwise the first member carrying the name supplies the value. */
  lemma {:induction false} GetFirst(members: seq<(string, Json)>, name: string, i: nat)
    requires i < |members| && members[i].0 == name
    requires forall j :: 0 <= j < i ==> members[j].0 != name
    ensures Get(members, name) == members[i].1
  {
    if i > 0 {
      GetFirst(members[1..], name, i - 1);
    }
  }

  /** Python truthiness: null, false, zero, and empty strings, lists and dicts are false. */
  predicate Truthy(j: Json) {
    match j
    case JNull => false
    case JBool(b) => b
    case JInt(i) => i != 0
    case JReal(r) => r != 0.0
    case JStr(s) => |s| > 0
    case JArr(items) => |items| > 0
    case JObj(members) => |members| > 0
  }

  /** What a value is as a Python dict key or set element. Keys compare with
      Python's `==`, under which `True == 1 == 1.0`, so booleans and numbers
      share one numeric key space. */
  datatype Key = KNull | KNum(n: real) | KStr(s: string)

  /** The key a value hashes to; None for a list or dict, which Python
      refuses to hash (TypeError). */
  function KeyOf(j: Json): (k: Option<Key>)
    ensures k.None? <==> j.JArr? || j.JObj?
    ensures j.JStr? ==> k == Some(KStr(j.s))
    ensures j.JInt? ==> k == Some(KNum(j.i as real))
  {
    match j
    case JNull => Some(KNull)
    case JBool(b) => Some(KNum(if b then 1.0 else 0.0))
    case JInt(i) => Some(KNum(i as real))
    case JReal(r) => Some(KNum(r))
    case JStr(s) => Some(KStr(s))
    case JArr(_) => None
    case JObj(_) => None
  }

  predicate Hashable(j: Json) {
    KeyOf(j).Some?
  }

  /** The numeric value Python compares a bool or number by; None for the
      other values. */
  function NumericValue(j: Json): Option<real> {
    if j.JBool? then Some(if j.b then 1.0 else 0.0)
    else if j.JInt? then Some(j.i as real)
    else if j.JReal? then Some(j.r)
    else None
  }

  /** Python's `==` between two scalars: null equals only null, a string only
      the same string, and bools and numbers compare by numeric value. */
  predicate PyEquals(a: Json, b: Json) {
    || (a.JNull? && b.JNull?)
    || (a.JStr? && b.JStr? && a.s == b.s)
    || (NumericValue(a).Some? && NumericValue(a) == NumericValue(b))
  }

  /** Two hashable values land on the same dict key exactly when Python
      finds them equal. */
  lemma KeysMatchEquality(a: Json, b: Json)
    requires Hashable(a) && Hashable(b)
    ensures KeyOf(a) == KeyOf(b) <==> PyEquals(a, b)
  {
  }

  /** So `True`, `1` and `1.0` are one key, and the string "1" is another. */
  lemma OneKeyForTrueAndOne()
    ensures KeyOf(JBool(true)) == KeyOf(JInt(1)) == KeyOf(JReal(1.0))
    ensures KeyOf(JStr("1")) != KeyOf(JInt(1))
  {
  }

  /** The items `for item in j` visits: the elements of a list, the member
      names of a dict, the one-character strings of a string. None when Python
      cannot iterate the value (TypeError). */
  function Iterate(j: Json): (items: Option<seq<Json>>)
    ensures j.JArr? ==> items == Some(j.items)
    ensures j.JObj? ==> items.Some? && |items.value| == |j.members|
                        && forall i :: 0 <= i < |j.members| ==> items.value[i] == JStr(j.members[i].0)
    ensures j.JStr? ==> items.Some? && |items.value| == |j.s|
                        && forall i :: 0 <= i < |j.s| ==> items.value[i] == JStr([j.s[i]])
    ensures items.None? <==> j.JNull? || j.JBool? || j.JInt? || j.JReal?
  {
    match j
    case JArr(a) => Some(a)
    case JObj(m) => Some(seq(|m|, i requires 0 <= i < |m| => JStr(m[i].0)))
    case JStr(s) => Some(seq(|s|, i requires 0 <= i < |s| => JStr([s[i]])))
    case _ => None
  }
}
