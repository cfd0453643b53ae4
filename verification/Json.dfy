/** JSON values as serde_json holds them, shared by the canonical encoder, the schema closure
    and the store. */
module Json {

  datatype Option<+T> = None | Some(value: T)

  /** The characters of a JSON number (section 6 of RFC 8259). */
  predicate IsNumberChar(c: char) {
    ('0' <= c <= '9') || c in {'+', '-', '.', 'e'}
  }

  predicate IsFloatText(s: string) {
    && s != ""
    && (s[0] == '-' || '0' <= s[0] <= '9')
    && (forall i :: 0 <= i < |s| ==> IsNumberChar(s[i]))
    && ('.' in s || 'e' in s)
  }

  /** The shortest decimal form of a finite double, which always shows a point or an exponent. */
  type FloatText = s: string | IsFloatText(s) witness "0.0"

  datatype Number = Integer(n: int) | Float(text: FloatText)

  /** A member of an object. */
  datatype Field = Field(key: string, value: Value)

  /** An object keeps its members in some order; `WellFormed` says its keys are distinct. */
  datatype Value =
    | Null
    | Bool(b: bool)
    | Num(num: Number)
    | String(s: string)
    | Array(items: seq<Value>)
    | Object(fields: seq<Field>)

  predicate DistinctKeys(fields: seq<Field>) {
    forall i, j :: 0 <= i < j < |fields| ==> fields[i].key != fields[j].key
  }

  predicate WellFormed(v: Value) {
    match v
    case Array(items) => forall i :: 0 <= i < |items| ==> WellFormed(items[i])
    case Object(fields) =>
      && DistinctKeys(fields)
      && forall i :: 0 <= i < |fields| ==> WellFormed(fields[i].value)
    case _ => true
  }

  /** The position of a key, or the number of members when it is absent. */
  function IndexOf(fields: seq<Field>, key: string): (i: nat)
    ensures i <= |fields|
    ensures i < |fields| ==> fields[i].key == key
    ensures i == |fields| ==> forall j :: 0 <= j < |fields| ==> fields[j].key != key
  {
    if fields == [] then 0
    else if fields[0].key == key then 0
    else
      assert forall j :: 1 <= j < |fields| ==> fields[j] == fields[1..][j - 1];
      1 + IndexOf(fields[1..], key)
  }

  /** `Value::get` on a key. */
  function Get(v: Value, key: string): Option<Value> {
    if v.Object? && IndexOf(v.fields, key) < |v.fields|
    then Some(v.fields[IndexOf(v.fields, key)].value)
    else None
  }

  /** `get(key).and_then(Value::as_str)`. */
  function GetStr(v: Value, key: string): Option<string> {
    match Get(v, key)
    case Some(String(s)) => Some(s)
    case _ => None
  }

  lemma {:induction false} FirstIs(fields: seq<Field>, key: string, i: nat)
    requires i < |fields| && fields[i].key == key
    ensures IndexOf(fields, key) <= i
    ensures forall j :: 0 <= j < IndexOf(fields, key) ==> fields[j].key != key
  {
    if fields[0].key != key {
      FirstIs(fields[1..], key, i - 1);
    }
  }

  lemma MemberAt(fields: seq<Field>, key: string, i: nat)
    requires i < |fields| && fields[i].key == key && forall j :: 0 <= j < i ==> fields[j].key != key
    ensures Get(Object(fields), key) == Some(fields[i].value)
  {
    FirstIs(fields, key, i);
  }
}
