/** A recursive-descent parser for JSON text (RFC 8259), as `JSON.parse` accepts it. A
    number keeps its numeral. Then the round trips with the two printers. */
module JsonParser {
  import opened Strings
  import opened Json
  import opened JsonCanonical

  datatype Parsed<+T> = Fail | Got(value: T, rest: string)

  // ----- The parser ------------------------------------------------------------------

  predicate IsSpace(c: char) {
    c == ' ' || c == '\t' || c == '\n' || c == '\r'
  }

  function SkipSpace(t: string): (r: string)
    ensures |r| <= |t|
  {
    if t != "" && IsSpace(t[0]) then SkipSpace(t[1..]) else t
  }

  function HexValue(c: char): (r: int)
    ensures -1 <= r < 16
  {
    if '0' <= c <= '9' then c as int - '0' as int
    else if 'a' <= c <= 'f' then c as int - 'a' as int + 10
    else if 'A' <= c <= 'F' then c as int - 'A' as int + 10
    else -1
  }

  /** The code unit of four hexadecimal digits, or -1. */
  function Hex4(t: string): (r: int)
    ensures -1 <= r < 0x10000
  {
    if |t| < 4 || HexValue(t[0]) < 0 || HexValue(t[1]) < 0 || HexValue(t[2]) < 0 || HexValue(t[3]) < 0 then -1
    else HexValue(t[0]) * 4096 + HexValue(t[1]) * 256 + HexValue(t[2]) * 16 + HexValue(t[3])
  }

  /** The character after a backslash. A lone surrogate has no character and is refused. */
  function Unescape(t: string): (r: Parsed<char>)
    ensures r.Got? ==> |r.rest| < |t|
  {
    if t == "" then Fail
    else if t[0] == '\"' || t[0] == '\\' || t[0] == '/' then Got(t[0], t[1..])
    else if t[0] == 'b' then Got(8 as char, t[1..])
    else if t[0] == 't' then Got(9 as char, t[1..])
    else if t[0] == 'n' then Got(10 as char, t[1..])
    else if t[0] == 'f' then Got(12 as char, t[1..])
    else if t[0] == 'r' then Got(13 as char, t[1..])
    else if t[0] != 'u' then Fail
    else
      var u := Hex4(t[1..]);
      if u < 0 then Fail
      else if u < 0xD800 || u >= 0xE000 then Got(u as char, t[5..])
      else if u >= 0xDC00 || |t| < 11 || t[5] != '\\' || t[6] != 'u' then Fail
      else
        var v := Hex4(t[7..]);
        if 0xDC00 <= v < 0xE000 then Got((0x10000 + (u - 0xD800) * 0x400 + (v - 0xDC00)) as char, t[11..]) else Fail
  }

  /** The characters of a string whose opening quote has been read. */
  function ParseChars(t: string): (r: Parsed<string>)
    ensures r.Got? ==> |r.rest| < |t|
    decreases |t|
  {
    if t == "" || t[0] as int < 32 then Fail
    else if t[0] == '\"' then Got("", t[1..])
    else if t[0] == '\\' then
      var c := Unescape(t[1..]);
      if c.Fail? then Fail
      else
        var more := ParseChars(c.rest);
        if more.Fail? then Fail else Got([c.value] + more.value, more.rest)
    else
      var more := ParseChars(t[1..]);
      if more.Fail? then Fail else Got([t[0]] + more.value, more.rest)
  }

  function ParseString(t: string): (r: Parsed<string>)
    ensures r.Got? ==> |r.rest| < |t|
  {
    if t != "" && t[0] == '\"' then ParseChars(t[1..]) else Fail
  }

  /** Reads digits after a number whose value so far is `n`. */
  function ParseDigits(t: string, n: nat): (r: Parsed<nat>)
    ensures r.Got? && |r.rest| <= |t|
    decreases |t|
  {
    if t != "" && IsDigit(t[0]) then ParseDigits(t[1..], 10 * n + (t[0] as int - '0' as int)) else Got(n, t)
  }

  function ParseNatural(t: string): (r: Parsed<nat>)
    ensures r.Got? ==> |r.rest| < |t|
  {
    if t == "" || !IsDigit(t[0]) then Fail
    else if t[0] == '0' then Got(0, t[1..])
    else ParseDigits(t[1..], t[0] as int - '0' as int)
  }

  /** The digits that a text begins with. */
  function Digits(t: string): (d: string)
    ensures d <= t
  {
    if t != "" && IsDigit(t[0]) then [t[0]] + Digits(t[1..]) else ""
  }

  /** The decimals after a point, if there is one. */
  function ParseFraction(t: string): (r: Parsed<string>)
    ensures r.Got? ==> |r.rest| <= |t|
  {
    if !StartsWith(t, '.') then Got("", t)
    else
      var d := Digits(t[1..]);
      if d == "" then Fail else Got(d, t[1 + |d|..])
  }

  function ParseExponent(t: string): (r: Parsed<string>)
    ensures r.Got? ==> |r.rest| <= |t|
  {
    if !StartsWith(t, 'e') && !StartsWith(t, 'E') then Got("", t)
    else
      var k := if |t| > 1 && t[1] in {'+', '-'} then 2 else 1;
      var d := Digits(t[k..]);
      if d == "" then Fail else Got(t[..k + |d|], t[k + |d|..])
  }

  function ParseNumber(t: string): (r: Parsed<Json>)
    ensures r.Got? ==> |r.rest| < |t|
  {
    var negative := StartsWith(t, '-');
    var n := ParseNatural(if negative then t[1..] else t);
    if n.Fail? then Fail
    else
      var d := ParseFraction(n.rest);
      if d.Fail? then Fail
      else
        var e := ParseExponent(d.rest);
        if e.Fail? then Fail
        else if d.value == "" && e.value == "" then Got(Num(if negative then 0 - n.value else n.value), e.rest)
        else Got(Real(negative, n.value, d.value, e.value), e.rest)
  }

  /** What cannot continue a number. */
  predicate EndsNumber(t: string) {
    t == "" || !(IsDigit(t[0]) || t[0] == '.' || t[0] == 'e' || t[0] == 'E')
  }

  /** Later duplicates of a key win, in the place of the first one. */
  function Put(fields: seq<Entry<Json>>, e: Entry<Json>): seq<Entry<Json>> {
    if fields == [] then [e]
    else if fields[0].key == e.key then [e] + fields[1..]
    else [fields[0]] + Put(fields[1..], e)
  }

  predicate StartsWith(t: string, c: char) {
    t != "" && t[0] == c
  }

  function ParseValue(text: string): (r: Parsed<Json>)
    ensures r.Got? ==> |r.rest| < |text|
    decreases |text|, 1
  {
    var t := SkipSpace(text);
    if t == "" then Fail
    else if t[0] == '[' then
      if StartsWith(SkipSpace(t[1..]), ']') then Got(Arr([]), SkipSpace(t[1..])[1..]) else ParseItems(t[1..], [])
    else if t[0] == '{' then
      if StartsWith(SkipSpace(t[1..]), '}') then Got(Obj([]), SkipSpace(t[1..])[1..]) else ParseFields(t[1..], [])
    else if t[0] == '\"' then
      var s := ParseString(t);
      if s.Fail? then Fail else Got(Str(s.value), s.rest)
    else if "null" <= t then Got(Null, t[4..])
    else if "true" <= t then Got(Bool(true), t[4..])
    else if "false" <= t then Got(Bool(false), t[5..])
    else ParseNumber(t)
  }

  /** The next item, then a comma and more items or the closing bracket. */
  function ParseItems(t: string, acc: seq<Json>): (r: Parsed<Json>)
    ensures r.Got? ==> |r.rest| < |t| && r.value.Arr?
    decreases |t|, 2
  {
    var v := ParseValue(t);
    if v.Fail? then Fail
    else
      var rest := SkipSpace(v.rest);
      if StartsWith(rest, ',') then ParseItems(rest[1..], acc + [v.value])
      else if StartsWith(rest, ']') then Got(Arr(acc + [v.value]), rest[1..])
      else Fail
  }

  function ParseFields(t: string, acc: seq<Entry<Json>>): (r: Parsed<Json>)
    ensures r.Got? ==> |r.rest| < |t|
    decreases |t|, 2
  {
    var k := ParseString(SkipSpace(t));
    if k.Fail? || !StartsWith(SkipSpace(k.rest), ':') then Fail
    else
      var v := ParseValue(SkipSpace(k.rest)[1..]);
      if v.Fail? then Fail
      else
        var rest := SkipSpace(v.rest);
        var fields := Put(acc, Entry(k.value, v.value));
        if StartsWith(rest, ',') then ParseFields(rest[1..], fields)
        else if StartsWith(rest, '}') then Got(Obj(fields), rest[1..])
        else Fail
  }

  /** Parsing a whole text: Undefined stands for the exception. */
  function Parse(text: string): Json {
    var v := ParseValue(text);
    if v.Got? && SkipSpace(v.rest) == "" then v.value else Undefined
  }

  // ----- Round trips ---------------------------------------------------------------------

  lemma UnescapeEscape(c: char, t: string)
    requires |Escape(c)| > 1
    ensures Escape(c)[0] == '\\' && Unescape(Escape(c)[1..] + t) == Got(c, t)
  {
    var e := Escape(c);
    var u := e[1..] + t;
    if |e| == 2 {
      assert u[1..] == t;
    } else {
      var hi, lo := c as int / 16, c as int % 16;
      assert u == "u00" + [HexDigit(hi), HexDigit(lo)] + t;
      assert u[1] == u[2] == '0' && u[3] == HexDigit(hi) && u[4] == HexDigit(lo);
      assert HexValue(HexDigit(hi)) == hi && HexValue(HexDigit(lo)) == lo;
      assert Hex4(u[1..]) == 16 * hi + lo == c as int;
      assert u[5..] == t;
    }
  }

  lemma NotEscaped(c: char)
    requires |Escape(c)| <= 1
    ensures Escape(c) == [c] && c != '\"' && c != '\\' && c as int >= 32
  {
  }

  lemma ParseOneEscape(c: char, t: string)
    requires ParseChars(t).Got?
    ensures ParseChars(Escape(c) + t) == Got([c] + ParseChars(t).value, ParseChars(t).rest)
  {
    hide Unescape, Escape;
    var e := Escape(c);
    if |e| > 1 {
      UnescapeEscape(c, t);
      assert (e + t)[1..] == e[1..] + t;
    } else {
      NotEscaped(c);
      assert (e + t)[1..] == t;
    }
  }

  lemma ParseClosing(t: string)
    ensures ParseChars("\"" + t) == Got("", t)
  {
    hide Unescape;
    assert ("\"" + t)[1..] == t;
  }

  /** Reading back an escaped string stops at its closing quote. */
  lemma {:induction false} ParseEscaped(s: string, t: string)
    ensures ParseChars(Escaped(s) + ("\"" + t)) == Got(s, t)
  {
    hide Escape, Unescape, ParseChars;
    if s == "" {
      ParseClosing(t);
      assert Escaped(s) + ("\"" + t) == "\"" + t;
    } else {
      ParseEscaped(s[1..], t);
      var more := Escaped(s[1..]) + ("\"" + t);
      ParseOneEscape(s[0], more);
      assert Escaped(s) + ("\"" + t) == Escape(s[0]) + more;
      assert [s[0]] + s[1..] == s;
    }
  }

  lemma ParseQuoted(s: string, t: string)
    ensures ParseString(Quote(s) + t) == Got(s, t)
  {
    hide ParseChars, Escaped;
    ParseEscaped(s, t);
    assert (Quote(s) + t)[1..] == Escaped(s) + ("\"" + t);
  }

  lemma {:induction false} DecimalHead(n: nat)
    ensures Decimal(n) != "" && IsDigit(Decimal(n)[0])
    ensures Decimal(n)[0] == '0' ==> n == 0
  {
    if n >= 10 {
      DecimalHead(n / 10);
    }
  }

  lemma DecimalTail(n: nat)
    requires n >= 10 && Decimal(n / 10) != ""
    ensures Decimal(n) != "" && Decimal(n)[0] == Decimal(n / 10)[0]
    ensures Decimal(n)[1..] == Decimal(n / 10)[1..] + [DigitChar(n % 10)]
  {
  }

  lemma OneDigit(n: nat)
    requires n < 10
    ensures |Decimal(n)| == 1 && Decimal(n)[0] as int - '0' as int == n
  {
  }

  lemma ReadsDigit(m: nat, d: nat, t: string)
    requires d < 10
    ensures ParseDigits([DigitChar(d)] + t, m) == ParseDigits(t, 10 * m + d)
  {
    assert ([DigitChar(d)] + t)[1..] == t;
  }

  /** Reading the digits after the first one amounts to having read the whole number. */
  lemma {:induction false} ReadsDecimal(n: nat, t: string)
    requires Decimal(n) != "" && IsDigit(Decimal(n)[0])
    ensures ParseDigits(Decimal(n)[1..] + t, Decimal(n)[0] as int - '0' as int) == ParseDigits(t, n)
  {
    hide ParseDigits, Decimal, DigitChar;
    if n < 10 {
      OneDigit(n);
      assert Decimal(n)[1..] + t == t;
    } else {
      var d := [DigitChar(n % 10)];
      DecimalHead(n / 10);
      ReadsDecimal(n / 10, d + t);
      DecimalTail(n);
      assert Decimal(n)[1..] + t == Decimal(n / 10)[1..] + (d + t);
      ReadsDigit(n / 10, n % 10, t);
    }
  }

  lemma StopsReading(t: string, n: nat)
    requires t == "" || !IsDigit(t[0])
    ensures ParseDigits(t, n) == Got(n, t)
  {
  }

  lemma DecimalZero()
    ensures Decimal(0) == "0"
  {
  }

  lemma ParseDecimal(n: nat, t: string)
    requires t == "" || !IsDigit(t[0])
    ensures ParseNatural(Decimal(n) + t) == Got(n, t)
  {
    hide Decimal, ParseDigits;
    DecimalHead(n);
    ReadsDecimal(n, t);
    StopsReading(t, n);
    var u := Decimal(n) + t;
    assert u[1..] == Decimal(n)[1..] + t;
    if n == 0 {
      DecimalZero();
      assert u[1..] == t;
    } else {
      assert ParseDigits(u[1..], u[0] as int - '0' as int) == ParseDigits(t, n);
    }
  }

  lemma ParseNum(n: int, t: string)
    requires EndsNumber(t)
    ensures ParseNumber(Scalar(Num(n)) + t) == Got(Num(n), t)
  {
    hide Decimal, ParseNatural;
    var u := Scalar(Num(n)) + t;
    if n < 0 {
      ParseDecimal(-n, t);
      assert u[1..] == Decimal(-n) + t;
    } else {
      DecimalHead(n);
      ParseDecimal(n, t);
    }
  }

  lemma {:induction false} ReadsDigits(d: string, t: string)
    requires IsDigits(d) && (t == "" || !IsDigit(t[0]))
    ensures Digits(d + t) == d
  {
    if d == "" {
      assert d + t == t;
    } else {
      ReadsDigits(d[1..], t);
      assert (d + t)[1..] == d[1..] + t;
    }
  }

  lemma ReadsFraction(d: string, t: string)
    requires IsDigits(d) && EndsDecimals(t) && d != ""
    ensures ParseFraction("." + d + t) == Got(d, t)
  {
    var u := "." + d + t;
    assert u[1..] == d + t;
    ReadsDigits(d, t);
    assert u[1 + |d|..] == t;
  }

  /** What can follow the decimals: an exponent, or the end of the number. */
  predicate EndsDecimals(t: string) {
    t == "" || !IsDigit(t[0])
  }

  lemma ReadsExponent(e: string, t: string)
    requires IsExponent(e) && e != "" && EndsNumber(t)
    ensures ParseExponent(e + t) == Got(e, t)
  {
    hide Digits, IsDigits, EndsNumber;
    EndsDigits(t);
    var u, k := e + t, if e[1] in {'+', '-'} then 2 else 1;
    assert u[0] == e[0] && u[1] == e[1];
    assert u[k..] == e[k..] + t;
    ReadsDigits(e[k..], t);
    assert |e[k..]| > 0 && k + |e[k..]| == |e|;
    assert u[..|e|] == e && u[|e|..] == t;
  }

  lemma EndsDigits(t: string)
    requires EndsNumber(t)
    ensures t == "" || !IsDigit(t[0])
  {
  }

  lemma ReadsTail(d: string, e: string, t: string)
    requires IsNumeral(d, e) && EndsNumber(t)
    ensures ParseFraction(Tail(d, e) + t) == Got(d, e + t) && ParseExponent(e + t) == Got(e, t)
    ensures EndsDecimals(Tail(d, e) + t)
  {
    hide Digits, IsDigits, IsExponent, ParseExponent, ParseFraction, EndsNumber;
    AfterDecimals(e, t);
    if d != "" {
      assert Tail(d, e) + t == "." + d + (e + t);
      ReadsFraction(d, e + t);
    } else {
      assert Tail(d, e) + t == e + t;
      NoFraction(e + t);
    }
  }

  /** What comes after the decimals is no digit and no point. */
  lemma AfterDecimals(e: string, t: string)
    requires IsExponent(e) && EndsNumber(t)
    ensures ParseExponent(e + t) == Got(e, t) && EndsDecimals(e + t) && !StartsWith(e + t, '.')
  {
    hide Digits, IsDigits;
    if e != "" {
      ReadsExponent(e, t);
    } else {
      assert e + t == t;
    }
  }

  lemma NoFraction(t: string)
    requires !StartsWith(t, '.')
    ensures ParseFraction(t) == Got("", t)
  {
  }

  lemma ParseReal(v: Json, t: string)
    requires v.Real? && IsNumeral(v.decimals, v.exponent) && EndsNumber(t)
    ensures ParseNumber(Scalar(v) + t) == Got(v, t)
    ensures Scalar(v) != "" && (Scalar(v)[0] == '-' || IsDigit(Scalar(v)[0]))
  {
    hide Decimal, ParseNatural, ParseFraction, ParseExponent, IsNumeral, Tail;
    var rest := Tail(v.decimals, v.exponent) + t;
    ReadsTail(v.decimals, v.exponent, t);
    DecimalHead(v.whole);
    ParseDecimal(v.whole, rest);
    var u := Scalar(v) + t;
    assert (if v.negative then u[1..] else u) == Decimal(v.whole) + rest;
    NumeralParts(v.decimals, v.exponent);
  }

  lemma NumeralParts(d: string, e: string)
    requires IsNumeral(d, e)
    ensures d != "" || e != ""
  {
  }

  /** Which branch of ParseValue the first character selects. */
  lemma ParseByHead(t: string)
    requires t != ""
    ensures t[0] == '-' || IsDigit(t[0]) ==> ParseValue(t) == ParseNumber(t)
    ensures t[0] == '\"' && ParseString(t).Got? ==> ParseValue(t) == Got(Str(ParseString(t).value), ParseString(t).rest)
    ensures t[0] == 'n' && "null" <= t ==> ParseValue(t) == Got(Null, t[4..])
    ensures t[0] == 't' && "true" <= t ==> ParseValue(t) == Got(Bool(true), t[4..])
    ensures t[0] == 'f' && "false" <= t ==> ParseValue(t) == Got(Bool(false), t[5..])
  {
    hide ParseNumber, ParseString, ParseItems, ParseFields;
    assert "null"[0] == 'n' && "true"[0] == 't' && "false"[0] == 'f';
  }

  lemma ParseScalar(v: Json, t: string)
    requires IsPlain(v) && !v.Arr? && !v.Obj? && (v.Num? || v.Real? ==> EndsNumber(t))
    ensures ParseValue(Scalar(v) + t) == Got(v, t)
  {
    hide ParseValue, ParseNumber, ParseString;
    var u := Scalar(v) + t;
    ParseByHead(u);
    match v
    case Num(n) =>
      ParseNum(n, t);
      DecimalHead(if n < 0 then -n else n);
    case Real(_, _, _, _) =>
      ParseReal(v, t);
    case Str(s) =>
      ParseQuoted(s, t);
    case Bool(b) =>
      assert u[if b then 4 else 5..] == t;
    case Null =>
      assert u[4..] == t;
  }

  lemma {:induction false} PutFresh(acc: seq<Entry<Json>>, e: Entry<Json>)
    requires forall i :: 0 <= i < |acc| ==> acc[i].key != e.key
    ensures Put(acc, e) == acc + [e]
  {
    if acc != [] {
      PutFresh(acc[1..], e);
      assert acc == [acc[0]] + acc[1..];
    }
  }

  lemma NumHead(n: int)
    ensures Scalar(Num(n)) != "" && (Scalar(Num(n))[0] == '-' || IsDigit(Scalar(Num(n))[0]))
  {
    DecimalHead(if n < 0 then -n else n);
    hide Decimal;
  }

  /** No printed value begins with white space or a closing bracket. */
  lemma PrintHead(v: Json)
    requires IsPlain(v)
    ensures Print(v) != "" && !IsSpace(Print(v)[0]) && Print(v)[0] != ']' && Print(v)[0] != '}'
  {
    if v.Num? {
      NumHead(v.n);
    } else if v.Real? {
      hide Scalar;
      ParseReal(v, "");
    } else {
      hide Decimal;
    }
  }

  lemma ItemsStep(t: string, acc: seq<Json>, v: Json, rest: string)
    requires ParseValue(t) == Got(v, rest)
    ensures StartsWith(rest, ',') ==> ParseItems(t, acc) == ParseItems(rest[1..], acc + [v])
    ensures StartsWith(rest, ']') ==> ParseItems(t, acc) == Got(Arr(acc + [v]), rest[1..])
  {
  }

  lemma FieldsStep(t: string, acc: seq<Entry<Json>>, e: Entry<Json>, colon: string, rest: string)
    requires SkipSpace(t) == t && ParseString(t) == Got(e.key, colon)
    requires StartsWith(colon, ':') && ParseValue(colon[1..]) == Got(e.value, rest)
    ensures StartsWith(rest, ',') ==> ParseFields(t, acc) == ParseFields(rest[1..], Put(acc, e))
    ensures StartsWith(rest, '}') ==> ParseFields(t, acc) == Got(Obj(Put(acc, e)), rest[1..])
  {
    hide ParseString, ParseValue, Put;
  }

  lemma Regroup(a: string, b: string, c: string, d: string)
    ensures (a + (b + c)) + d == a + (b + (c + d))
  {
  }

  lemma FieldStep(e: Entry<Json>, acc: seq<Entry<Json>>, rest: string)
    requires ParseValue(Print(e.value) + rest) == Got(e.value, rest)
    requires forall i :: 0 <= i < |acc| ==> acc[i].key != e.key
    ensures StartsWith(rest, ',') ==> ParseFields(PrintField(e) + rest, acc) == ParseFields(rest[1..], acc + [e])
    ensures StartsWith(rest, '}') ==> ParseFields(PrintField(e) + rest, acc) == Got(Obj(acc + [e]), rest[1..])
  {
    hide ParseString, ParseValue, ParseFields, Print, Escaped, Put;
    var value := Print(e.value) + rest;
    var t := PrintField(e) + rest;
    Regroup(Quote(e.key), ":", Print(e.value), rest);
    ParseQuoted(e.key, ":" + value);
    assert (":" + value)[1..] == value;
    FieldsStep(t, acc, e, ":" + value, rest);
    PutFresh(acc, e);
  }

  lemma {:induction false} ParsePrintedItems(items: seq<Json>, acc: seq<Json>, t: string)
    requires items != [] && IsPlain(Arr(items))
    ensures ParseItems(Print(items[0]) + (PrintItems(items[1..]) + t), acc) == Got(Arr(acc + items), t)
    decreases items, 0
  {
    hide ParseValue, ParseItems, Print;
    var more := PrintItems(items[1..]) + t;
    ParsePrinted(items[0], more);
    ItemsStep(Print(items[0]) + more, acc, items[0], more);
    if |items| == 1 {
      assert more == "]" + t && more[1..] == t;
      assert items == [items[0]];
    } else {
      assert more[1..] == Print(items[1]) + (PrintItems(items[1..][1..]) + t);
      ParsePrintedItems(items[1..], acc + [items[0]], t);
      assert acc + [items[0]] + items[1..] == acc + items;
    }
  }

  lemma {:induction false} ParsePrintedFields(fields: seq<Entry<Json>>, acc: seq<Entry<Json>>, t: string)
    requires fields != [] && IsPlain(Obj(fields)) && DistinctKeys(acc + fields)
    ensures ParseFields(PrintField(fields[0]) + (PrintFields(fields[1..]) + t), acc) == Got(Obj(acc + fields), t)
    decreases fields, 0
  {
    hide ParseValue, ParseFields, PrintField, Print;
    var e, more := fields[0], PrintFields(fields[1..]) + t;
    ParsePrinted(e.value, more);
    forall i | 0 <= i < |acc| ensures acc[i].key != e.key {
      assert (acc + fields)[i] == acc[i] && (acc + fields)[|acc|] == e;
    }
    FieldStep(e, acc, more);
    if |fields| == 1 {
      assert more == "}" + t && more[1..] == t;
      assert fields == [e];
    } else {
      assert more[1..] == PrintField(fields[1]) + (PrintFields(fields[1..][1..]) + t);
      assert acc + [e] + fields[1..] == acc + fields;
      ParsePrintedFields(fields[1..], acc + [e], t);
    }
  }

  lemma FieldHead(e: Entry<Json>)
    ensures StartsWith(PrintField(e), '\"')
  {
    assert Quote(e.key)[0] == '\"';
  }

  lemma ParseBracket(t: string)
    requires t != "" && (t[0] == '[' || t[0] == '{')
    ensures t[0] == '[' && t[1..] != "" && !IsSpace(t[1]) && t[1] != ']' ==> ParseValue(t) == ParseItems(t[1..], [])
    ensures t[0] == '{' && t[1..] != "" && !IsSpace(t[1]) && t[1] != '}' ==> ParseValue(t) == ParseFields(t[1..], [])
    ensures t[0] == '[' && StartsWith(t[1..], ']') ==> ParseValue(t) == Got(Arr([]), t[2..])
    ensures t[0] == '{' && StartsWith(t[1..], '}') ==> ParseValue(t) == Got(Obj([]), t[2..])
  {
  }

  lemma ParseArray(items: seq<Json>, t: string)
    requires IsPlain(Arr(items))
    requires items != [] ==>
               ParseItems(Print(items[0]) + (PrintItems(items[1..]) + t), []) == Got(Arr(items), t)
    ensures ParseValue(Print(Arr(items)) + t) == Got(Arr(items), t)
  {
    hide ParseValue, ParseItems, ParseFields, PrintItems;
    var u := Print(Arr(items)) + t;
    ParseBracket(u);
    if items == [] {
      assert u[2..] == t;
    } else {
      PrintHead(items[0]);
      assert u[1..] == Print(items[0]) + (PrintItems(items[1..]) + t);
    }
  }

  lemma ParseObject(fields: seq<Entry<Json>>, t: string)
    requires fields != [] ==>
               ParseFields(PrintField(fields[0]) + (PrintFields(fields[1..]) + t), []) == Got(Obj(fields), t)
    ensures ParseValue(Print(Obj(fields)) + t) == Got(Obj(fields), t)
  {
    hide ParseValue, ParseItems, ParseFields, PrintField, PrintFields;
    var u := Print(Obj(fields)) + t;
    ParseBracket(u);
    if fields == [] {
      assert u[2..] == t;
    } else {
      FieldHead(fields[0]);
      assert u[1..] == PrintField(fields[0]) + (PrintFields(fields[1..]) + t);
    }
  }

  lemma PrintIsScalar(v: Json)
    requires !v.Arr? && !v.Obj?
    ensures Print(v) == Scalar(v)
  {
    hide Scalar;
  }

  /** Parsing printed text followed by anything that cannot extend the last token gives back the
      value and that remainder. */
  lemma {:induction false} ParsePrinted(v: Json, t: string)
    requires IsPlain(v) && (v.Num? || v.Real? ==> EndsNumber(t))
    ensures ParseValue(Print(v) + t) == Got(v, t)
    decreases v, 1
  {
    hide ParseValue, ParseItems, ParseFields, Print, PrintField, PrintFields, PrintItems, Scalar;
    if v.Arr? {
      if v.items != [] {
        ParsePrintedItems(v.items, [], t);
        assert [] + v.items == v.items;
      }
      ParseArray(v.items, t);
    } else if v.Obj? {
      if v.fields != [] {
        assert [] + v.fields == v.fields;
        ParsePrintedFields(v.fields, [], t);
      }
      ParseObject(v.fields, t);
    } else {
      PrintIsScalar(v);
      ParseScalar(v, t);
    }
  }

  /** `JSON.parse` undoes `JSON.stringify` on plain values. */
  lemma ParsePrint(v: Json)
    requires IsPlain(v)
    ensures Parse(Print(v)) == v
  {
    ParsePrinted(v, "");
    assert Print(v) + "" == Print(v);
  }

  /** Parsing canonical text, followed by any suffix that cannot extend it, gives the canonical
      form of the value and that suffix. */
  lemma ParseCanon(v: Json, t: string)
    requires IsValue(v) && (v.Num? || v.Real? ==> EndsNumber(t))
    ensures ParseValue(Canon(v) + t) == Got(Normalize(v), t)
    ensures Parse(Canon(v)) == Normalize(v)
  {
    CanonIsPrint(v);
    NormalizeIsPlain(v);
    ParsePrinted(Normalize(v), t);
    ParsePrint(Normalize(v));
  }

  /** Two values print equally exactly when they are equal up to key order, undefined as null. */
  lemma CanonEquality(v: Json, w: Json)
    requires IsValue(v) && IsValue(w)
    ensures Canon(v) == Canon(w) <==> Same(v, w)
    ensures Same(v, w) <==> Normalize(v) == Normalize(w)
  {
    if Same(v, w) {
      SameNormalizes(v, w);
      CanonIsPrint(v);
      CanonIsPrint(w);
    } else if Canon(v) == Canon(w) || Normalize(v) == Normalize(w) {
      ParseCanon(v, "");
      ParseCanon(w, "");
      NormalizesSame(v, w);
    }
  }
}
