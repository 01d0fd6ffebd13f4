/** The JavaScript values the library handles: parsed JSON documents, the
    values compared against them, and the conversions to text the library
    applies to them (string concatenation and `JSON.stringify`).
    Numbers are integral; floating point is not modelled. */
module JsValues {
  import opened Options
  import opened Text

  /** A JSON value. An object's fields are listed in the order a
      `for...in` loop visits them. */
  datatype Json =
    | JNull
    | JBool(b: bool)
    | JNum(n: int)
    | JStr(s: string)
    | JArr(items: seq<Json>)
    | JObj(fields: seq<(string, Json)>)

  /** JavaScript truthiness, `None` being `undefined`. */
  predicate Truthy(v: Option<Json>)
  {
    match v
    case None => false
    case Some(JNull) => false
    case Some(JBool(b)) => b
    case Some(JNum(n)) => n != 0
    case Some(JStr(s)) => s != ""
    case Some(JArr(_)) => true
    case Some(JObj(_)) => true
  }

  /** `typeof j === 'object'` (which holds of `null` too). */
  predicate IsObject(j: Json)
  {
    j.JNull? || j.JArr? || j.JObj?
  }

  /** A value the `in` operator can be applied to without a TypeError. */
  predicate IsContainer(j: Json)
  {
    j.JArr? || j.JObj?
  }

  /** The number of properties a `for...in` loop over `j` visits:
      an object's fields, an array's indices, a string's characters. */
  function EntryCount(j: Json): nat
  {
    match j
    case JObj(fs) => |fs|
    case JArr(items) => |items|
    case JStr(s) => |s|
    case _ => 0
  }

  /** The name of the `k`-th property visited. */
  function EntryKey(j: Json, k: nat): string
    requires k < EntryCount(j)
  {
    if j.JObj? then j.fields[k].0 else NatToString(k)
  }

  /** The value of the `k`-th property visited; the value of a field or an
      item is a smaller document than its container. */
  function EntryValue(j: Json, k: nat): (r: Json)
    requires k < EntryCount(j)
    ensures IsContainer(j) ==> Size(r) < Size(j)
  {
    if IsContainer(j) then SizeUpToBound(j, k, EntryCount(j)); Child(j, k)
    else JStr([j.s[k]])
  }

  /** The value of a field or an item. */
  function Child(j: Json, k: nat): Json
    requires IsContainer(j) && k < EntryCount(j)
  {
    if j.JObj? then j.fields[k].1 else j.items[k]
  }

  /** The number of values a document is built of: the measure recursion
      over a document's properties decreases. */
  function Size(j: Json): nat
    decreases j, 1, 0
  {
    if IsContainer(j) then 1 + SizeUpTo(j, EntryCount(j)) else 1
  }

  function SizeUpTo(j: Json, n: nat): nat
    requires IsContainer(j) && n <= EntryCount(j)
    decreases j, 0, n
  {
    if n == 0 then 0
    else SizeUpTo(j, n - 1) + (if j.JObj? then Size(j.fields[n - 1].1) else Size(j.items[n - 1]))
  }

  lemma {:induction false} SizeUpToBound(j: Json, k: nat, n: nat)
    requires IsContainer(j) && k < n <= EntryCount(j)
    ensures Size(Child(j, k)) <= SizeUpTo(j, n)
  {
    if k < n - 1 {
      SizeUpToBound(j, k, n - 1);
    }
  }

  /** The value of the first field named `key`. */
  function Lookup(fs: seq<(string, Json)>, key: string): Option<Json>
  {
    if |fs| == 0 then None
    else if fs[0].0 == key then Some(fs[0].1)
    else Lookup(fs[1..], key)
  }

  /** `key in o ? o[key] : absent`, for own properties: an object's fields,
      an array's indices and its `length`. */
  function Member(o: Json, key: string): Option<Json>
    requires IsContainer(o)
  {
    match o
    case JObj(fs) => Lookup(fs, key)
    case JArr(items) =>
      if key == "length" then Some(JNum(|items|))
      else match ParseIndex(key)
        case Some(i) => if i < |items| then Some(items[i]) else None
        case None => None
  }

  /** A document as `JSON.parse` builds it: no object repeats a key. */
  predicate WellFormed(j: Json)
  {
    match j
    case JArr(items) => forall i :: 0 <= i < |items| ==> WellFormed(items[i])
    case JObj(fs) =>
      (forall a, b :: 0 <= a < b < |fs| ==> fs[a].0 != fs[b].0) &&
      (forall i :: 0 <= i < |fs| ==> WellFormed(fs[i].1))
    case _ => true
  }

  lemma {:induction false} LookupDistinct(fs: seq<(string, Json)>, k: nat)
    requires k < |fs|
    requires forall a, b :: 0 <= a < b < |fs| ==> fs[a].0 != fs[b].0
    ensures Lookup(fs, fs[k].0) == Some(fs[k].1)
  {
    if k > 0 {
      assert fs[0].0 != fs[k].0;
      LookupDistinct(fs[1..], k - 1);
    }
  }

  /** Every property a `for...in` loop visits can be read back by name. */
  lemma MemberOfEntry(o: Json, k: nat)
    requires IsContainer(o) && WellFormed(o) && k < EntryCount(o)
    ensures Member(o, EntryKey(o, k)) == Some(EntryValue(o, k))
  {
    if o.JObj? {
      LookupDistinct(o.fields, k);
    } else {
      ParseIndexOfNatToString(k);
    }
  }

  /** `x === y`: primitives compare by value; two distinct objects are never
      identical, and the library only ever compares a document's value with
      a separately built one. `None` is `undefined`. */
  predicate StrictEquals(x: Option<Json>, y: Json)
  {
    x == Some(y) && !IsContainer(y)
  }

  /** `String(j)`, the text string concatenation gives a value. */
  function ToStr(j: Json): string
    decreases j, 1, 0
  {
    match j
    case JNull => "null"
    case JBool(b) => if b then "true" else "false"
    case JNum(n) => IntToString(n)
    case JStr(s) => s
    case JArr(items) => ItemsToStr(j, |items|)
    case JObj(_) => "[object Object]"
  }

  /** `Array.prototype.join` of the first `n` items: `null` items print as
      the empty string. */
  function ItemsToStr(j: Json, n: nat): string
    requires j.JArr? && n <= |j.items|
    decreases j, 0, n
  {
    if n == 0 then ""
    else
      var last := if j.items[n - 1].JNull? then "" else ToStr(j.items[n - 1]);
      if n == 1 then last else ItemsToStr(j, n - 1) + "," + last
  }

  function HexDigit(d: nat): char
    requires d < 16
  {
    if d < 10 then Digit(d) else ('a' as int + d - 10) as char
  }

  /** The escape `JSON.stringify` writes for one character of a string. */
  function EscapeChar(c: char): string
  {
    if c == '"' then "\\\""
    else if c == '\\' then "\\\\"
    else if c as int == 8 then "\\b"
    else if c as int == 12 then "\\f"
    else if c == '\n' then "\\n"
    else if c == '\r' then "\\r"
    else if c == '\t' then "\\t"
    else if c as int < 32 then "\\u00" + [HexDigit(c as int / 16), HexDigit(c as int % 16)]
    else [c]
  }

  function Escape(s: string): string
  {
    if |s| == 0 then "" else Escape(s[..|s| - 1]) + EscapeChar(s[|s| - 1])
  }

  function Quote(s: string): string
  {
    "\"" + Escape(s) + "\""
  }

  /** `JSON.stringify(j)`, without indentation. */
  function Stringify(j: Json): string
    decreases j, 1, 0
  {
    match j
    case JNull => "null"
    case JBool(b) => if b then "true" else "false"
    case JNum(n) => IntToString(n)
    case JStr(s) => Quote(s)
    case JArr(items) => "[" + StringifyItems(j, |items|) + "]"
    case JObj(fs) => "{" + StringifyFields(j, |fs|) + "}"
  }

  function StringifyItems(j: Json, n: nat): string
    requires j.JArr? && n <= |j.items|
    decreases j, 0, n
  {
    if n == 0 then ""
    else if n == 1 then Stringify(j.items[0])
    else StringifyItems(j, n - 1) + "," + Stringify(j.items[n - 1])
  }

  function StringifyFields(j: Json, n: nat): string
    requires j.JObj? && n <= |j.fields|
    decreases j, 0, n
  {
    if n == 0 then ""
    else
      var member := Quote(j.fields[n - 1].0) + ":" + Stringify(j.fields[n - 1].1);
      if n == 1 then member else StringifyFields(j, n - 1) + "," + member
  }
}
