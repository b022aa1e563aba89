/**
 * The values a JSON parse yields in Python: `None`, booleans, integers,
 * strings, lists and dicts. A dict keeps its keys in insertion order, so an
 * object is a list of members whose keys are unique.
 */
module Json {
  import opened Wrappers

  datatype Json =
    | JNull
    | JBool(b: bool)
    | JInt(i: int)
    | JStr(s: string)
    | JArr(items: seq<Json>)
    | JObj(fields: seq<Member>)

  datatype Member = Member(key: string, value: Json)

  /** The dict's keys, in insertion order. */
  function Keys(fields: seq<Member>): seq<string> {
    seq(|fields|, i requires 0 <= i < |fields| => fields[i].key)
  }

  predicate Distinct(ks: seq<string>) {
    forall i, j :: 0 <= i < j < |ks| ==> ks[i] != ks[j]
  }

  /** No key is present twice (every Python dict). */
  predicate UniqueKeys(fields: seq<Member>) {
    Distinct(Keys(fields))
  }

  /** `d.get(key)`: the value stored under `key`, if any. */
  function Get(fields: seq<Member>, key: string): (r: Option<Json>)
    ensures r.Some? <==> key in Keys(fields)
    ensures r.Some? ==> Member(key, r.value) in fields
  {
    if fields == [] then None
    else
      assert Keys(fields) == [fields[0].key] + Keys(fields[1..]);
      if fields[0].key == key then Some(fields[0].value)
      else Get(fields[1..], key)
  }

  /** `d[key] = value`: an existing key keeps its place, a new key goes last. */
  function Put(fields: seq<Member>, key: string, value: Json): (r: seq<Member>)
    ensures key in Keys(fields) ==> Keys(r) == Keys(fields)
    ensures key !in Keys(fields) ==> Keys(r) == Keys(fields) + [key]
    ensures UniqueKeys(fields) ==> UniqueKeys(r)
  {
    if fields == [] then [Member(key, value)]
    else
      assert Keys(fields) == [fields[0].key] + Keys(fields[1..]);
      if fields[0].key == key then
        var r := [Member(key, value)] + fields[1..];
        assert Keys(r) == Keys(fields);
        r
      else
        var r := [fields[0]] + Put(fields[1..], key, value);
        assert Keys(r) == [fields[0].key] + Keys(r[1..]);
        r
  }

  /** After `d[key] = value`, `key` holds `value` and every other key holds
      what it held before. */
  lemma {:induction false} PutGet(fields: seq<Member>, key: string, value: Json, k: string)
    ensures Get(Put(fields, key, value), k) == if k == key then Some(value) else Get(fields, k)
  {
    if fields != [] && fields[0].key != key {
      PutGet(fields[1..], key, value, k);
      assert Put(fields, key, value)[1..] == Put(fields[1..], key, value);
    } else if fields != [] {
      assert Put(fields, key, value)[1..] == fields[1..];
    }
  }

  /** `type(v).__name__` */
  function TypeName(v: Json): string {
    match v
    case JNull => "NoneType"
    case JBool(_) => "bool"
    case JInt(_) => "int"
    case JStr(_) => "str"
    case JArr(_) => "list"
    case JObj(_) => "dict"
  }

  predicate IsDigit(c: char) {
    '0' <= c <= '9'
  }

  /** The number a string of decimal digits denotes, read left to right. */
  function DecimalValue(r: string): (n: nat)
    requires forall k :: 0 <= k < |r| ==> IsDigit(r[k])
  {
    if r == [] then 0
    else
      assert IsDigit(r[|r| - 1]);
      DecimalValue(r[..|r| - 1]) * 10 + (r[|r| - 1] as int - '0' as int)
  }

  /** A decimal numeral as Python writes one: digits only, and no leading
      zero unless the number is zero. */
  predicate IsNumeral(r: string) {
    && r != []
    && (forall k :: 0 <= k < |r| ==> IsDigit(r[k]))
    && (|r| > 1 ==> r[0] != '0')
  }

  /** The decimal digits of `n`, most significant first: the numeral that
      denotes `n`. */
  function Digits(n: nat): (r: string)
    ensures IsNumeral(r)
    ensures DecimalValue(r) == n
  {
    var last := ('0' as int + n % 10) as char;
    if n < 10 then
      assert DecimalValue([last]) == DecimalValue([]) * 10 + n % 10;
      [last]
    else
      var r := Digits(n / 10) + [last];
      assert r[..|r| - 1] == Digits(n / 10);
      r
  }

  /** `str(v)`. Scalars are rendered as Python renders them; lists and dicts
      (whose rendering quotes and escapes their contents) are rendered by
      `showContainer`. */
  function ToStr(v: Json, showContainer: Json -> string): (r: string)
    ensures v.JNull? ==> r == "None"
    ensures v.JBool? ==> r == if v.b then "True" else "False"
    ensures v.JInt? && v.i >= 0 ==> IsNumeral(r) && DecimalValue(r) == v.i
    ensures v.JInt? && v.i < 0 ==> |r| > 1 && r[0] == '-' && IsNumeral(r[1..]) && DecimalValue(r[1..]) == -v.i
    ensures v.JStr? ==> r == v.s
    ensures v.JArr? || v.JObj? ==> r == showContainer(v)
  {
    match v
    case JNull => "None"
    case JBool(b) => if b then "True" else "False"
    case JInt(i) =>
      if i < 0 then
        var r := "-" + Digits(-i);
        assert r[1..] == Digits(-i);
        r
      else Digits(i)
    case JStr(s) => s
    case JArr(_) => showContainer(v)
    case JObj(_) => showContainer(v)
  }
}
