/** JavaScript's conversions of JSON values to strings, and to numbers as far as comparing with 2. */
module Conversions {
  import opened Json
  import opened JsonParser
  import opened Strings

  // ----- To a string ------------------------------------------------------------------------

  /** How a template literal writes a value: an array as its items with commas between. */
  function ToText(v: Json): string
    decreases v, 1
  {
    match v
    case Undefined => "undefined"
    case Str(s) => s
    case Arr(items) => Join(ItemTexts(items))
    case Obj(_) => "[object Object]"
    case _ => Scalar(v)
  }

  function ItemTexts(items: seq<Json>): seq<string>
    decreases items, 0
  {
    if items == [] then []
    else [if items[0] in {Undefined, Null} then "" else ToText(items[0])] + ItemTexts(items[1..])
  }

  // ----- To a number --------------------------------------------------------------------------

  /** The value of digits in a base up to 16; other characters count as the base itself. */
  function DigitsValue(s: string, base: nat): nat {
    if s == "" then 0 else base * DigitsValue(s[..|s| - 1], base) + DigitValue(s[|s| - 1], base)
  }

  function DigitValue(c: char, base: nat): nat {
    if 0 <= HexValue(c) < base then HexValue(c) else base
  }

  predicate IsInBase(s: string, base: nat) {
    s != "" && forall i :: 0 <= i < |s| ==> 0 <= HexValue(s[i]) < base
  }

  function ExponentValue(s: string): int {
    if |s| < 2 then 0
    else if s[1] == '-' then -(DigitsValue(s[2..], 10) as int)
    else if s[1] == '+' then DigitsValue(s[2..], 10)
    else DigitsValue(s[1..], 10)
  }

  /** Is m times ten to the power e at least 2? */
  predicate ScaledAtLeastTwo(m: nat, e: int) {
    if e >= 0 then m * Pow10(e) >= 2 else m >= 2 * Pow10(-e)
  }

  predicate DecimalAtLeastTwo(whole: string, decimals: string, exponent: string) {
    ScaledAtLeastTwo(DigitsValue(whole + decimals, 10), ExponentValue(exponent) - |decimals|)
  }

  predicate NamesBase(t: string) {
    |t| > 2 && t[0] == '0' && t[1] in {'x', 'X', 'o', 'O', 'b', 'B'}
  }

  predicate BasedAtLeastTwo(t: string)
    requires NamesBase(t)
  {
    var base := if t[1] in {'x', 'X'} then 16 else if t[1] in {'o', 'O'} then 8 else 2;
    IsInBase(t[2..], base) && DigitsValue(t[2..], base) >= 2
  }

  /** Digits with a point among them or at an end, and an exponent. */
  predicate LiteralAtLeastTwo(u: string) {
    var whole := Digits(u);
    var rest := u[|whole|..];
    var decimals := if StartsWith(rest, '.') then Digits(rest[1..]) else "";
    var e := ParseExponent(if StartsWith(rest, '.') then rest[1 + |decimals|..] else rest);
    (whole != "" || decimals != "") && e.Got? && e.rest == "" && DecimalAtLeastTwo(whole, decimals, e.value)
  }

  /** A text as `Number` reads it: with white space around it, a sign, an exponent, in another base
      or as an infinity. Anything else is not a number. */
  predicate TextAtLeastTwo(s: string) {
    var t := Trim(s);
    if NamesBase(t) then BasedAtLeastTwo(t)
    else
      var u := if StartsWith(t, '+') then t[1..] else t;
      u == "Infinity" || LiteralAtLeastTwo(u)
  }

  /** Is the value at least 2, converted to a number? */
  predicate AtLeastTwo(v: Json) {
    match v
    case Num(n) => n >= 2
    case Real(negative, whole, d, e) => !negative && DecimalAtLeastTwo(Decimal(whole), d, e)
    case Str(s) => TextAtLeastTwo(s)
    case Arr(_) => TextAtLeastTwo(ToText(v))
    case _ => false
  }

  // ----- What comparing with 2 means ---------------------------------------------------------------

  lemma DigitOf(d: nat)
    requires d < 10
    ensures DigitValue(DigitChar(d), 10) == d
  {
  }

  lemma {:induction false} DecimalValue(n: nat)
    ensures DigitsValue(Decimal(n), 10) == n
  {
    DigitOf(n % 10);
    if n >= 10 {
      DecimalValue(n / 10);
      assert Decimal(n)[..|Decimal(n)| - 1] == Decimal(n / 10);
    } else {
      assert [DigitChar(n)][..0] == "";
    }
  }

  lemma {:induction false} ValueConcat(a: string, b: string)
    requires IsDigits(b)
    ensures DigitsValue(a + b, 10) == DigitsValue(a, 10) * Pow10(|b|) + DigitsValue(b, 10)
    ensures DigitsValue(b, 10) < Pow10(|b|)
  {
    if b == "" {
      assert a + b == a;
    } else {
      var front, c := b[..|b| - 1], b[|b| - 1];
      assert (a + b)[..|a + b| - 1] == a + front;
      assert IsDigit(c) && 0 <= HexValue(c) < 10;
      ValueConcat(a, front);
      TenTimes(DigitsValue(a, 10), Pow10(|front|));
    }
  }

  lemma TenTimes(x: nat, p: nat)
    ensures 10 * (x * p) == x * (10 * p)
  {
  }

  lemma {:induction false} AllDigits(s: string)
    requires IsDigits(s)
    ensures Digits(s) == s
  {
    if s != "" {
      AllDigits(s[1..]);
    }
  }

  lemma ScaledByDecimals(w: nat, r: nat, p: nat)
    requires r < p
    ensures w * p + r >= 2 * p <==> w >= 2
  {
    if w >= 2 {
      assert w * p >= 2 * p;
    } else {
      assert w * p <= 1 * p;
    }
  }

  lemma NothingToTrim(s: string)
    requires s != "" && IsDigit(s[0]) && IsDigit(s[|s| - 1])
    ensures Trim(s) == s
  {
  }

  /** A number is at least 2 when its whole part is, and is not negative; a text of an integer counts as
      that integer; true, null and objects do not reach 2. */
  lemma AtLeastTwoMeans(n: nat, negative: bool, decimals: string, fields: seq<Entry<Json>>)
    requires IsDigits(decimals)
    ensures AtLeastTwo(Num(n)) <==> n >= 2
    ensures n > 0 ==> !AtLeastTwo(Num(0 - n))
    ensures AtLeastTwo(Str(Decimal(n))) <==> n >= 2
    ensures AtLeastTwo(Real(negative, n, decimals, "")) <==> !negative && n >= 2
    ensures !AtLeastTwo(Bool(true)) && !AtLeastTwo(Bool(false)) && !AtLeastTwo(Null) && !AtLeastTwo(Undefined)
    ensures !AtLeastTwo(Obj(fields))
  {
    IntegerTextAtLeastTwo(n);
    DecimalValue(n);
    ValueConcat(Decimal(n), decimals);
    ScaledByDecimals(n, DigitsValue(decimals, 10), Pow10(|decimals|));
    hide DigitsValue, Decimal, TextAtLeastTwo;
    assert Pow10(0) == 1;
  }

  lemma PlainLiteral(s: string)
    requires s != "" && IsDigits(s)
    ensures LiteralAtLeastTwo(s) <==> DigitsValue(s, 10) >= 2
  {
    AllDigits(s);
    hide Digits, DigitsValue;
    assert s[|s|..] == "" && s + "" == s;
    assert Pow10(0) == 1;
  }

  lemma IntegerTextAtLeastTwo(n: nat)
    ensures TextAtLeastTwo(Decimal(n)) <==> n >= 2
  {
    hide Decimal, DigitsValue, Trim, LiteralAtLeastTwo, BasedAtLeastTwo;
    var s := Decimal(n);
    DecimalDigits(n);
    DecimalValue(n);
    NothingToTrim(s);
    PlainLiteral(s);
    assert |s| > 1 ==> IsDigit(s[1]);
    assert s[0] != '+' && s[0] != 'I';
  }

  /** A list is written as its items with commas between, null and undefined as nothing; so a list of one
      integer counts as that integer. */
  lemma ListTexts(v: Json, w: Json, n: nat)
    requires v !in {Undefined, Null} && w !in {Undefined, Null}
    ensures ToText(Arr([])) == ToText(Arr([Null])) == ToText(Arr([Undefined])) == ""
    ensures ToText(Arr([v])) == ToText(v) && ToText(Arr([v, w])) == ToText(v) + "," + ToText(w)
    ensures AtLeastTwo(Arr([Num(n)])) <==> n >= 2
  {
    hide ToText, ItemTexts, TextAtLeastTwo;
    FewTexts(v, w);
    NoTexts();
    JoinFew(ToText(v), ToText(w));
    JoinFew("", "");
    FewTexts(Num(n), w);
    JoinFew(Decimal(n), "");
    IntegerTextAtLeastTwo(n);
    IntegerToText(n);
  }

  lemma IntegerToText(n: nat)
    ensures ToText(Num(n)) == Decimal(n)
  {
  }

  lemma NoTexts()
    ensures ToText(Arr([])) == Join([]) && ToText(Arr([Null])) == Join([""]) && ToText(Arr([Undefined])) == Join([""])
  {
    assert [Null][1..] == [] && [Undefined][1..] == [];
    assert ItemTexts([]) == [] && ItemTexts([Null]) == [""] && ItemTexts([Undefined]) == [""];
  }

  lemma FewTexts(v: Json, w: Json)
    requires v !in {Undefined, Null} && w !in {Undefined, Null}
    ensures ToText(Arr([v])) == Join([ToText(v)]) && ToText(Arr([v, w])) == Join([ToText(v), ToText(w)])
  {
    hide Join;
    assert [v][1..] == [] && [v, w][1..] == [w] && [w][1..] == [];
    assert ItemTexts([w]) == [ToText(w)];
    assert ItemTexts([v]) == [ToText(v)];
    assert ItemTexts([v, w]) == [ToText(v)] + ItemTexts([w]) == [ToText(v), ToText(w)];
  }
}
