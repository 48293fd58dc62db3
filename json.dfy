/** JSON values as the program receives them (tool arguments, JSON-RPC
    requests, imported rows) and the JavaScript coercions it applies to them:
    property reads, truthiness, `String(v)`, `Number(v)`, `Object.keys` and
    `JSON.stringify`. Numbers are integral. */
module Json {
  import opened Wrappers
  import Text

  datatype Json =
    | JNull
    | JBool(b: bool)
    | JNum(n: int)
    | JStr(s: string)
    | JArr(items: seq<Json>)
    | JObj(members: seq<(string, Json)>)

  /** The index of the last member named `key`: when a JSON text repeats a
      key, the parsed object holds the last value. */
  function LastIndex(members: seq<(string, Json)>, key: string): (r: Option<nat>)
    ensures r.Some? ==> r.value < |members| && members[r.value].0 == key
    ensures r.Some? ==> forall j :: r.value < j < |members| ==> members[j].0 != key
    ensures r.None? ==> forall j :: 0 <= j < |members| ==> members[j].0 != key
  {
    if members == [] then None
    else if members[|members| - 1].0 == key then Some(|members| - 1)
    else LastIndex(members[..|members| - 1], key)
  }

  /** `v[key]` for the property names the program reads: an object's member,
      and undefined (`None`) on anything else. */
  function Get(v: Json, key: string): (r: Option<Json>)
    ensures r.Some? ==> v.JObj? && exists i :: 0 <= i < |v.members| && v.members[i] == (key, r.value)
    ensures r.None? ==> !v.JObj? || forall i :: 0 <= i < |v.members| ==> v.members[i].0 != key
  {
    match v
    case JObj(members) =>
      (match LastIndex(members, key)
       case Some(i) => Some(members[i].1)
       case None => None)
    case _ => None
  }

  /** A member no later member shadows is what `Get` finds under its key. */
  lemma GetMember(members: seq<(string, Json)>, i: nat)
    requires i < |members| && forall j :: i < j < |members| ==> members[j].0 != members[i].0
    ensures Get(JObj(members), members[i].0) == Some(members[i].1)
  {
  }

  /** `v.key` where reading a property of null throws a TypeError. */
  function Read(v: Json, key: string): (r: Result<Option<Json>>)
    ensures r.Err? <==> v.JNull?
    ensures r.Ok? ==> r.value == Get(v, key)
  {
    if v.JNull? then Err("Cannot read properties of null (reading '" + key + "')")
    else Ok(Get(v, key))
  }

  /** JavaScript truthiness of a value that may be undefined (`None`). */
  predicate Truthy(v: Option<Json>) {
    match v
    case None => false
    case Some(JNull) => false
    case Some(JBool(b)) => b
    case Some(JNum(n)) => n != 0
    case Some(JStr(s)) => s != ""
    case Some(_) => true
  }

  /** `String(v)` for a value that is not undefined. */
  function JsString(v: Json): string
    decreases v
  {
    match v
    case JNull => "null"
    case JBool(b) => if b then "true" else "false"
    case JNum(n) => Text.Decimal(n)
    case JStr(s) => s
    case JArr(items) =>
      // Array.prototype.join writes null elements as the empty string
      Text.Join(seq(|items|, i requires 0 <= i < |items| =>
             if items[i].JNull? then "" else JsString(items[i])), ",")
    case JObj(_) => "[object Object]"
  }

  /** `String(v)`, where `None` is undefined. */
  function ToJsString(v: Option<Json>): (r: string)
    ensures v.None? ==> r == "undefined"
    ensures v.Some? && v.value.JStr? ==> r == v.value.s
  {
    match v
    case None => "undefined"
    case Some(j) => JsString(j)
  }

  /** `Number(s)` for the numeric strings that denote integers: white space
      around an optionally signed run of decimal digits; the empty string is 0.
      `None` stands for NaN. */
  function StringToNumber(s: string): Option<int> {
    var t := Text.Trim(s);
    if t == "" then Some(0)
    else if (t[0] == '-' || t[0] == '+') && |t| > 1 && Text.AllDigits(t[1..]) then
      Some(if t[0] == '-' then -(Text.DigitsValue(t[1..]) as int) else Text.DigitsValue(t[1..]))
    else if Text.AllDigits(t) then Some(Text.DigitsValue(t))
    else None
  }

  /** `Number(v)`, where `None` on either side is undefined or NaN. */
  function ToNumber(v: Option<Json>): (r: Option<int>)
    ensures v.None? ==> r.None?
    ensures v == Some(JNull) ==> r == Some(0)
    ensures v.Some? && v.value.JNum? ==> r == Some(v.value.n)
  {
    match v
    case None => None
    case Some(JNull) => Some(0)
    case Some(JBool(b)) => Some(if b then 1 else 0)
    case Some(JNum(n)) => Some(n)
    case Some(JStr(s)) => StringToNumber(s)
    case Some(JArr(_)) => StringToNumber(JsString(v.value))
    case Some(JObj(_)) => None
  }

  /** Decimal text has no white space to trim. */
  lemma TrimDecimal(n: int)
    ensures Text.Trim(Text.Decimal(n)) == Text.Decimal(n)
  {
    var digits := Text.NatDigits(if n < 0 then -n else n);
    var d := Text.Decimal(n);
    assert Text.IsDigit(digits[|digits| - 1]);
    assert d[|d| - 1] == digits[|digits| - 1];
    assert d[0] == '-' || Text.IsDigit(d[0]);
  }

  /** `Number(String(n)) == n` for every integer `n`. */
  lemma NumberOfString(n: int)
    ensures ToNumber(Some(JStr(JsString(JNum(n))))) == Some(n)
  {
    TrimDecimal(n);
    var d := Text.Decimal(n);
    if n < 0 {
      assert d[1..] == Text.NatDigits(-n);
      Text.NatDigitsValue(-n);
    } else {
      Text.NatDigitsValue(n);
    }
  }

  /** The keys of the members, each once, in the order of first appearance. */
  function KeysOf(members: seq<(string, Json)>): (r: seq<string>)
    ensures forall i, j :: 0 <= i < j < |r| ==> r[i] != r[j]
    ensures forall k :: k in r <==> exists i :: 0 <= i < |members| && members[i].0 == k
  {
    if members == [] then []
    else
      var rest := KeysOf(members[..|members| - 1]);
      var k := members[|members| - 1].0;
      assert forall i :: 0 <= i < |members| - 1 ==> members[..|members| - 1][i] == members[i];
      if k in rest then rest else rest + [k]
  }

  /** `Object.keys(v)`; a TypeError on null. Arrays and strings have their
      indices as keys, other primitives have none. */
  function ObjectKeys(v: Json): (r: Result<seq<string>>)
    ensures r.Err? <==> v.JNull?
    ensures v.JObj? ==> r == Ok(KeysOf(v.members))
    ensures r.Ok? ==> forall i, j :: 0 <= i < j < |r.value| ==> r.value[i] != r.value[j]
  {
    match v
    case JNull => Err("Cannot convert undefined or null to object")
    case JObj(members) => Ok(KeysOf(members))
    case JArr(items) => IndexKeysDistinct(|items|); Ok(IndexKeys(|items|))
    case JStr(s) => IndexKeysDistinct(|s|); Ok(IndexKeys(|s|))
    case _ => Ok([])
  }

  /** The keys "0", "1", ... of an array or string of length `n`. */
  function IndexKeys(n: nat): (r: seq<string>)
    ensures |r| == n && forall i :: 0 <= i < n ==> r[i] == Text.Decimal(i)
  {
    seq(n, i => Text.Decimal(i))
  }

  lemma IndexKeysDistinct(n: nat)
    ensures forall i, j :: 0 <= i < j < n ==> IndexKeys(n)[i] != IndexKeys(n)[j]
  {
    forall i, j | 0 <= i < j < n
      ensures IndexKeys(n)[i] != IndexKeys(n)[j]
    {
      if IndexKeys(n)[i] == IndexKeys(n)[j] {
        Text.DecimalInjective(i, j);
      }
    }
  }

  function HexDigit(d: int): (c: char)
    requires 0 <= d < 16
  {
    if d < 10 then Text.DigitChar(d) else ('a' as int + d - 10) as char
  }

  /** How `JSON.stringify` writes one character inside a string literal. */
  function EscapeChar(c: char): (r: string)
    ensures |r| >= 1
    ensures c == '"' || c == '\\' || c as int < 0x20 <==> r[0] == '\\'
  {
    if c == '"' then "\\\""
    else if c == '\\' then "\\\\"
    else if c == '\U{8}' then "\\b"
    else if c == '\t' then "\\t"
    else if c == '\n' then "\\n"
    else if c == '\U{C}' then "\\f"
    else if c == '\r' then "\\r"
    else if c as int < 0x20 then "\\u00" + [HexDigit(c as int / 16), HexDigit(c as int % 16)]
    else [c]
  }

  function Escape(s: string): string {
    if s == [] then "" else EscapeChar(s[0]) + Escape(s[1..])
  }

  /** A JSON string literal. */
  function Quote(s: string): string {
    "\"" + Escape(s) + "\""
  }

  /** `JSON.stringify(v)`: objects list each key once, at its first position,
      with its last value. */
  function Stringify(v: Json): string
    decreases v
  {
    match v
    case JNull => "null"
    case JBool(b) => if b then "true" else "false"
    case JNum(n) => Text.Decimal(n)
    case JStr(s) => Quote(s)
    case JArr(items) =>
      "[" + Text.Join(seq(|items|, i requires 0 <= i < |items| => Stringify(items[i])), ",") + "]"
    case JObj(members) =>
      var keys := KeysOf(members);
      "{" + Text.Join(seq(|keys|, i requires 0 <= i < |keys| =>
                     Quote(keys[i]) + ":" + MemberString(members, keys[i])), ",") + "}"
  }

  /** The stringified last value of key `k`, which is among `members`. */
  function MemberString(members: seq<(string, Json)>, k: string): string
    requires k in KeysOf(members)
    decreases JObj(members), 0
  {
    var i := LastIndex(members, k).value;
    assert members[i] in members;
    Stringify(members[i].1)
  }
}
