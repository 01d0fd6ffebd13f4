/** The match operators of `f5_check_response`: each compares the value
    found in the response (`x`, possibly `undefined`) with the expected
    value of a check (`y`). */
module Operators {
  import opened Options
  import opened Text
  import opened JsValues
  import opened Ledger

  datatype Op = StrictEq | StrictNe | LooseEq | LooseNe | Lt | Le | Gt | Ge | Incl | NotIncl | Regex | Length

  /** The name an operator is written with, in lower case. */
  function OpName(op: Op): string
  {
    match op
    case StrictEq => "==="
    case StrictNe => "!=="
    case LooseEq => "=="
    case LooseNe => "!="
    case Lt => "<"
    case Le => "<="
    case Gt => ">"
    case Ge => ">="
    case Incl => "incl"
    case NotIncl => "notincl"
    case Regex => "regex"
    case Length => "length"
  }

  /** The `switch` on `op.toLowerCase()`: the operator whose name the
      lower-cased text is, and none for any other text. */
  function ParseOp(s: string): (r: Option<Op>)
    ensures r.Some? ==> ToLower(s) == OpName(r.value)
    ensures r.None? ==> forall op :: ToLower(s) != OpName(op)
  {
    var l := ToLower(s);
    if l == "===" then Some(StrictEq)
    else if l == "!==" then Some(StrictNe)
    else if l == "==" then Some(LooseEq)
    else if l == "!=" then Some(LooseNe)
    else if l == "<" then Some(Lt)
    else if l == "<=" then Some(Le)
    else if l == ">" then Some(Gt)
    else if l == ">=" then Some(Ge)
    else if l == "incl" then Some(Incl)
    else if l == "notincl" then Some(NotIncl)
    else if l == "regex" then Some(Regex)
    else if l == "length" then Some(Length)
    else None
  }

  /** What the model does not compute itself: JavaScript's type coercion
      for `==` and the relational operators between values of different
      types, and whether a string matches the regular expression a text
      evaluates to. */
  datatype Oracle = Oracle(coerce: (Op, Option<Json>, Json) -> bool, regex: (string, Json) -> bool)

  /** `x == y`: `undefined` and `null` equal each other and nothing else;
      primitives of one type compare by value; two distinct objects are
      unequal; the rest coerces. */
  predicate LooseEquals(x: Option<Json>, y: Json, o: Oracle)
  {
    if x.None? || x.value.JNull? then y.JNull?
    else if y.JNull? then false
    else match (x.value, y)
      case (JBool(a), JBool(b)) => a == b
      case (JNum(a), JNum(b)) => a == b
      case (JStr(a), JStr(b)) => a == b
      case _ => if IsContainer(x.value) && IsContainer(y) then false else o.coerce(LooseEq, x, y)
  }

  /** `a < b` on strings: code-unit order, a proper prefix first. */
  predicate StrLess(a: string, b: string)
  {
    if |b| == 0 then false
    else if |a| == 0 then true
    else if a[0] != b[0] then a[0] < b[0]
    else StrLess(a[1..], b[1..])
  }

  /** String order is a strict total order. */
  lemma {:induction false} StrLessTrichotomy(a: string, b: string)
    ensures !(StrLess(a, b) && StrLess(b, a))
    ensures a == b ==> !StrLess(a, b)
    ensures a != b ==> StrLess(a, b) || StrLess(b, a)
  {
    if |a| > 0 && |b| > 0 && a[0] == b[0] {
      StrLessTrichotomy(a[1..], b[1..]);
      if a != b {
        assert a == [a[0]] + a[1..] && b == [b[0]] + b[1..];
      }
    }
  }

  lemma {:induction false} StrLessTransitive(a: string, b: string, c: string)
    requires StrLess(a, b) && StrLess(b, c)
    ensures StrLess(a, c)
  {
    if |a| > 0 && a[0] == b[0] && b[0] == c[0] {
      StrLessTransitive(a[1..], b[1..], c[1..]);
    }
  }

  /** `x < y`, `x <= y`, `x > y`, `x >= y`: `undefined` compares false
      with everything; numbers by value, strings in code-unit order
      (`a <= b` being `!(b < a)`); mixed types coerce. */
  predicate Relational(op: Op, x: Option<Json>, y: Json, o: Oracle)
    requires op in {Lt, Le, Gt, Ge}
  {
    if x.None? then false
    else match (x.value, y)
      case (JNum(a), JNum(b)) =>
        if op == Lt then a < b else if op == Le then a <= b else if op == Gt then a > b else a >= b
      case (JStr(a), JStr(b)) =>
        if op == Lt then StrLess(a, b) else if op == Le then !StrLess(b, a)
        else if op == Gt then StrLess(b, a) else !StrLess(a, b)
      case _ => o.coerce(op, x, y)
  }

  /** On two strings, `<=` is `<` or equal, and `>=` is the negation of `<`. */
  lemma StringRelations(a: string, b: string, o: Oracle)
    ensures Relational(Le, Some(JStr(a)), JStr(b), o) <==> Relational(Lt, Some(JStr(a)), JStr(b), o) || a == b
    ensures Relational(Ge, Some(JStr(a)), JStr(b), o) <==> !Relational(Lt, Some(JStr(a)), JStr(b), o)
    ensures Relational(Gt, Some(JStr(a)), JStr(b), o) <==> Relational(Lt, Some(JStr(b)), JStr(a), o)
  {
    StrLessTrichotomy(a, b);
  }

  /** `x.indexOf(y) >= 0` on an array. */
  predicate InArray(items: seq<Json>, y: Json)
  {
    exists i :: 0 <= i < |items| && StrictEquals(Some(items[i]), y)
  }

  /** `x.length`: a string's or an array's length, an object's own
      `length` property; `undefined` for numbers and booleans. */
  function LengthOf(x: Json): Option<Json>
    requires !x.JNull?
  {
    match x
    case JStr(s) => Some(JNum(|s|))
    case JArr(items) => Some(JNum(|items|))
    case JObj(_) => Member(x, "length")
    case _ => None
  }

  /** What a match function returns, or the TypeError it throws. */
  datatype Outcome = Val(v: LedgerVal) | Threw

  /** `mf(x, y)` for the operator `op`. */
  function Compare(op: Op, x: Option<Json>, y: Json, o: Oracle): Outcome
  {
    match op
    case StrictEq => Val(Bool(StrictEquals(x, y)))
    case StrictNe => Val(Bool(!StrictEquals(x, y)))
    case LooseEq => Val(Bool(LooseEquals(x, y, o)))
    case LooseNe => Val(Bool(!LooseEquals(x, y, o)))
    case Incl =>
      (match x
       case Some(JStr(s)) => Val(Bool(Contains(s, ToStr(y))))
       case Some(JArr(items)) => Val(Num(if InArray(items, y) then 1 else 0))
       case _ => Val(Num(0)))
    case NotIncl =>
      (match x
       case Some(JStr(s)) => Val(Bool(!Contains(s, ToStr(y))))
       case Some(JArr(items)) => Val(Num(if !InArray(items, y) then 1 else 0))
       case _ => Val(Num(0)))
    case Regex =>
      (match x
       case Some(JStr(s)) => Val(Num(if o.regex(s, y) then 1 else 0))
       case _ => Val(Num(0)))
    case Length =>
      if x.None? || x.value.JNull? then Threw
      else Val(Bool(LooseEquals(LengthOf(x.value), y, o)))
    case _ => Val(Bool(Relational(op, x, y, o)))
  }

  /** `incl` and `notincl` disagree on strings and arrays, and both fail
      on anything else; `incl` on a string holds exactly when the text of
      `y` occurs in it. */
  lemma InclNotIncl(x: Option<Json>, y: Json, o: Oracle)
    ensures Compare(Incl, x, y, o).Val? && Compare(NotIncl, x, y, o).Val?
    ensures x.Some? && (x.value.JStr? || x.value.JArr?) ==>
      (Passed(Compare(Incl, x, y, o).v) <==> !Passed(Compare(NotIncl, x, y, o).v))
    ensures !(x.Some? && (x.value.JStr? || x.value.JArr?)) ==>
      Compare(Incl, x, y, o) == Val(Num(0)) && Compare(NotIncl, x, y, o) == Val(Num(0))
    ensures x.Some? && x.value.JStr? ==>
      (Passed(Compare(Incl, x, y, o).v) <==> exists i :: OccursAt(x.value.s, ToStr(y), i))
  {
    if x.Some? && x.value.JStr? {
      var s := x.value.s;
      assert Compare(Incl, x, y, o) == Val(Bool(Contains(s, ToStr(y))));
      ContainsOccurs(s, ToStr(y));
      assert Contains(s, ToStr(y)) <==> exists i :: OccursAt(s, ToStr(y), i);
    }
  }

  /** Strict equality implies loose equality, whatever the coercions. */
  lemma StrictImpliesLoose(x: Option<Json>, y: Json, o: Oracle)
    requires StrictEquals(x, y)
    ensures Compare(LooseEq, x, y, o) == Val(Bool(true))
  {
  }

  /** `length` throws on `undefined` and `null`; on a string or an array
      it compares the length with `y`. */
  lemma LengthCases(x: Option<Json>, y: Json, o: Oracle)
    ensures Compare(Length, x, y, o).Threw? <==> x.None? || x.value.JNull?
    ensures x.Some? && x.value.JStr? ==> Compare(Length, x, y, o) == Val(Bool(LooseEquals(Some(JNum(|x.value.s|)), y, o)))
    ensures x.Some? && x.value.JArr? ==> Compare(Length, x, y, o) == Val(Bool(LooseEquals(Some(JNum(|x.value.items|)), y, o)))
    ensures x.Some? && (x.value.JNum? || x.value.JBool?) ==> Compare(Length, x, y, o) == Val(Bool(y.JNull?))
  {
  }
}
