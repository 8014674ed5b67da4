/** JSON field values as the server and the registration page see them, and the
    JavaScript coercions they apply to them: `String(n)`, `Number(s)`,
    `parseInt(x) || 0` and loose equality `==`. */
module JsValues {

  datatype Option<+T> = None | Some(value: T)

  /** A JSON field value. Only strings and integers occur in the documents modelled. */
  datatype JsVal = Str(s: string) | Num(n: int)

  /** A JSON object. A key that is absent reads as `undefined` in JavaScript. */
  type Record = map<string, JsVal>

  /** `r[key]`, with `None` for `undefined`. */
  function Get(r: Record, key: string): (v: Option<JsVal>)
    ensures v.Some? <==> key in r
    ensures v.Some? ==> v.value == r[key]
  {
    if key in r then Some(r[key]) else None
  }

  predicate IsDigit(c: char) {
    '0' <= c <= '9'
  }

  predicate AllDigits(s: string) {
    forall i :: 0 <= i < |s| ==> IsDigit(s[i])
  }

  function DigitChar(d: nat): (c: char)
    requires d < 10
    ensures IsDigit(c) && c as int - '0' as int == d
  {
    ('0' as int + d) as char
  }

  /** The value of a string of decimal digits, most significant digit first. */
  function DigitsValue(s: string): nat
    requires AllDigits(s)
  {
    if s == [] then 0 else DigitsValue(s[..|s| - 1]) * 10 + (s[|s| - 1] as int - '0' as int)
  }

  /** The decimal digits of `n`, without leading zeros. */
  function NatToDigits(n: nat): (s: string)
    ensures s != [] && AllDigits(s)
    ensures DigitsValue(s) == n
    ensures s[0] == '0' ==> n == 0
  {
    if n < 10 then [DigitChar(n)]
    else
      var s := NatToDigits(n / 10) + [DigitChar(n % 10)];
      assert s[..|s| - 1] == NatToDigits(n / 10);
      s
  }

  /** `String(i)` for an integer `i`. */
  function IntToString(i: int): (s: string)
    ensures ToNumber(s) == Some(i)
  {
    if i < 0 then
      var s := "-" + NatToDigits(-i);
      assert s[1..] == NatToDigits(-i);
      s
    else NatToDigits(i)
  }

  /** `Number(s)` for a string: the empty string is 0, an optional minus sign
      followed by decimal digits is that integer, anything else is `NaN` (`None`). */
  function ToNumber(s: string): (r: Option<int>)
    ensures s != [] && r.Some? ==> ParseIntPrefix(s) == r
  {
    if s == [] then Some(0)
    else if s[0] == '-' && |s| > 1 && AllDigits(s[1..]) then Some(-(DigitsValue(s[1..]) as int))
    else if AllDigits(s) then Some(DigitsValue(s))
    else None
  }

  /** The longest prefix of `s` made of decimal digits. */
  function LeadingDigits(s: string): (d: string)
    ensures AllDigits(d) && d <= s
    ensures |d| < |s| ==> !IsDigit(s[|d|])
    ensures AllDigits(s) ==> d == s
  {
    if s == [] || !IsDigit(s[0]) then [] else [s[0]] + LeadingDigits(s[1..])
  }

  /** The integer `parseInt` reads from a string: an optional sign, then the
      leading decimal digits; `NaN` (`None`) when there are none. */
  function ParseIntPrefix(s: string): (r: Option<int>)
    ensures s != [] && AllDigits(s) ==> r == Some(DigitsValue(s) as int)
  {
    if |s| > 0 && (s[0] == '-' || s[0] == '+') then
      var d := LeadingDigits(s[1..]);
      if d == [] then None
      else if s[0] == '-' then Some(-(DigitsValue(d) as int))
      else Some(DigitsValue(d))
    else
      var d := LeadingDigits(s);
      if d == [] then None else Some(DigitsValue(d))
  }

  /** `parseInt(v) || 0` for a field value that may be `undefined`:
      `NaN` (and 0) become 0. */
  function ParseIntOrZero(v: Option<JsVal>): (r: int)
    ensures v.Some? && v.value.Str? && ToNumber(v.value.s).Some? ==> r == ToNumber(v.value.s).value
    ensures v.None? ==> r == 0
  {
    match v
    case None => 0
    case Some(Num(n)) => n
    case Some(Str(s)) =>
      match ParseIntPrefix(s)
      case None => 0
      case Some(n) => n
  }

  /** JavaScript's loose equality `==` on the modelled values: strings and
      numbers compare by value, and a string is converted with `Number`
      before it is compared with a number. */
  function LooseEq(a: JsVal, b: JsVal): (equal: bool)
    ensures a == b ==> equal
    ensures a.Str? == b.Str? ==> (equal <==> a == b)
  {
    match (a, b)
    case (Str(x), Str(y)) => x == y
    case (Num(x), Num(y)) => x == y
    case (Num(x), Str(y)) => ToNumber(y) == Some(x)
    case (Str(x), Num(y)) => ToNumber(x) == Some(y)
  }

  /** `parseInt(String(i)) || 0 == i`: the id the server writes is read back unchanged. */
  lemma ParseIntOrZeroOfString(i: int)
    ensures ParseIntOrZero(Some(Str(IntToString(i)))) == i
  {
  }

  /** The decimal string of an integer is loosely equal to a value exactly
      when that value denotes the same integer. */
  lemma LooseEqIntString(i: int, v: JsVal)
    ensures LooseEq(v, Str(IntToString(i))) <==>
            (v == Str(IntToString(i)) || v == Num(i))
  {
  }

  /** Loose equality is not transitive: `"1" == 1` and `1 == "01"`, yet `"1" != "01"`. */
  lemma LooseEqNotTransitive()
    ensures LooseEq(Str("1"), Num(1)) && LooseEq(Num(1), Str("01"))
    ensures !LooseEq(Str("1"), Str("01"))
  {
  }
}
