/** JavaScript's order of strings, decimal text, and lists of strings. */
module Strings {

  /** Where a character stands among UTF-16 code units. Characters beyond U+FFFF are encoded
      with surrogates D800..DFFF, so they come before U+E000..U+FFFF and after U+D7FF. */
  function Rank(c: char): nat {
    var n := c as int;
    if n < 0xD800 then n else if n >= 0x1_0000 then n - 0x2800 else n + 0x10_0000
  }

  lemma RankInjective(a: char, b: char)
    requires Rank(a) == Rank(b)
    ensures a == b
  {
    assert a as int == b as int;
  }

  /** The first differing code unit decides; a proper prefix is smaller. */
  predicate Less(a: string, b: string) {
    b != "" && (a == "" || Rank(a[0]) < Rank(b[0]) || (a[0] == b[0] && Less(a[1..], b[1..])))
  }

  lemma {:induction false} LessIrreflexive(a: string)
    ensures !Less(a, a)
  {
    if a != "" {
      LessIrreflexive(a[1..]);
    }
  }

  lemma {:induction false} LessTransitive(a: string, b: string, c: string)
    requires Less(a, b) && Less(b, c)
    ensures Less(a, c)
  {
    if a != "" && a[0] == b[0] && b[0] == c[0] {
      LessTransitive(a[1..], b[1..], c[1..]);
    }
  }

  lemma {:induction false} LessTotal(a: string, b: string)
    ensures Less(a, b) || Less(b, a) || a == b
  {
    if a != "" && b != "" {
      if a[0] == b[0] {
        LessTotal(a[1..], b[1..]);
        assert a == [a[0]] + a[1..] && b == [b[0]] + b[1..];
      } else if Rank(a[0]) == Rank(b[0]) {
        RankInjective(a[0], b[0]);
      }
    }
  }

  lemma LessAsymmetric(a: string, b: string)
    requires Less(a, b)
    ensures !Less(b, a)
  {
    if Less(b, a) {
      LessTransitive(a, b, a);
      LessIrreflexive(a);
    }
  }

  // ----- The order, on code units --------------------------------------------------

  /** The UTF-16 code units of a character. */
  function UnitsOf(c: char): seq<nat> {
    var n := c as int;
    if n < 0x1_0000 then [n] else [0xD800 + (n - 0x1_0000) / 0x400, 0xDC00 + (n - 0x1_0000) % 0x400]
  }

  function CodeUnits(s: string): seq<nat> {
    if s == "" then [] else UnitsOf(s[0]) + CodeUnits(s[1..])
  }

  /** Equal up to place `n`, and there `x` ends or has the smaller unit. */
  predicate SmallerFrom(x: seq<nat>, y: seq<nat>, n: nat) {
    n <= |x| && n < |y| && x[..n] == y[..n] && (n == |x| || x[n] < y[n])
  }

  ghost predicate Lexicographic(x: seq<nat>, y: seq<nat>) {
    exists n: nat :: SmallerFrom(x, y, n)
  }

  lemma SmallerPast(p: seq<nat>, x: seq<nat>, y: seq<nat>, n: nat)
    requires SmallerFrom(p + x, p + y, n)
    ensures n >= |p|
  {
  }

  lemma LexicographicPrefix(p: seq<nat>, x: seq<nat>, y: seq<nat>)
    ensures Lexicographic(p + x, p + y) <==> Lexicographic(x, y)
  {
    if Lexicographic(x, y) {
      var n: nat :| SmallerFrom(x, y, n);
      assert (p + x)[..|p| + n] == p + x[..n] == p + y[..n] == (p + y)[..|p| + n];
      assert SmallerFrom(p + x, p + y, |p| + n);
    }
    if Lexicographic(p + x, p + y) {
      var n: nat :| SmallerFrom(p + x, p + y, n);
      SmallerPast(p, x, y, n);
      var m := n - |p|;
      assert x[..m] == (p + x)[..n][|p|..] == (p + y)[..n][|p|..] == y[..m];
      assert SmallerFrom(x, y, m);
    }
  }

  lemma SmallerHead(x: seq<nat>, y: seq<nat>, n: nat)
    requires SmallerFrom(x, y, n) && x != []
    ensures x[0] == y[0] || (n == 0 && x[0] < y[0])
  {
    if n > 0 {
      assert x[0] == x[..n][0] && y[0] == y[..n][0];
    }
  }

  lemma LexicographicFirst(x: seq<nat>, y: seq<nat>)
    requires x != [] && y != [] && x[0] != y[0]
    ensures Lexicographic(x, y) <==> x[0] < y[0]
  {
    if x[0] < y[0] {
      assert SmallerFrom(x, y, 0);
    } else {
      forall n: nat ensures !SmallerFrom(x, y, n) {
        if SmallerFrom(x, y, n) {
          SmallerHead(x, y, n);
        }
      }
    }
  }

  lemma CharacterOrder(a: char, b: char, x: seq<nat>, y: seq<nat>)
    requires a != b
    ensures Lexicographic(UnitsOf(a) + x, UnitsOf(b) + y) <==> Rank(a) < Rank(b)
  {
    var u, v := UnitsOf(a), UnitsOf(b);
    var m, n := a as int, b as int;
    if u[0] != v[0] {
      LexicographicFirst(u + x, v + y);
    } else {
      assert |u| == |v| == 2;
      assert u + x == [u[0]] + ([u[1]] + x) && v + y == [u[0]] + ([v[1]] + y);
      LexicographicPrefix([u[0]], [u[1]] + x, [v[1]] + y);
      LexicographicFirst([u[1]] + x, [v[1]] + y);
    }
  }

  /** Less is the lexicographic order of UTF-16 code units. */
  lemma {:induction false} LessIsLexicographic(a: string, b: string)
    ensures Less(a, b) <==> Lexicographic(CodeUnits(a), CodeUnits(b))
  {
    if b == "" {
      assert forall n: nat :: !SmallerFrom(CodeUnits(a), [], n);
    } else if a == "" {
      assert SmallerFrom([], CodeUnits(b), 0);
    } else if a[0] == b[0] {
      LessIsLexicographic(a[1..], b[1..]);
      LexicographicPrefix(UnitsOf(a[0]), CodeUnits(a[1..]), CodeUnits(b[1..]));
    } else {
      CharacterOrder(a[0], b[0], CodeUnits(a[1..]), CodeUnits(b[1..]));
    }
  }

  /** A non-negative integer in decimal digits. */
  function Decimal(n: nat): string {
    if n < 10 then [DigitChar(n)] else Decimal(n / 10) + [DigitChar(n % 10)]
  }

  function DigitChar(d: nat): char
    requires d < 10
  {
    '0' + d as char
  }

  predicate IsDigit(c: char) {
    '0' <= c <= '9'
  }

  predicate IsDigits(s: string) {
    forall i :: 0 <= i < |s| ==> IsDigit(s[i])
  }

  lemma {:induction false} DecimalDigits(n: nat)
    ensures Decimal(n) != "" && IsDigits(Decimal(n))
  {
    if n >= 10 {
      DecimalDigits(n / 10);
    }
  }

  lemma {:induction false} DecimalInjective(m: nat, n: nat)
    requires Decimal(m) == Decimal(n)
    ensures m == n
  {
    DecimalDigits(m / 10);
    DecimalDigits(n / 10);
    if m >= 10 && n >= 10 {
      assert Decimal(m / 10) == Decimal(m)[..|Decimal(m)| - 1] == Decimal(n)[..|Decimal(n)| - 1] == Decimal(n / 10);
      assert DigitChar(m % 10) == Decimal(m)[|Decimal(m)| - 1] == DigitChar(n % 10);
      DecimalInjective(m / 10, n / 10);
    }
  }

  // ----- Lists of strings ----------------------------------------------------

  function Pow10(k: nat): (p: nat)
    ensures p > 0
  {
    if k == 0 then 1 else 10 * Pow10(k - 1)
  }

  /** White space and line ends, as JavaScript trims them. */
  predicate IsWhiteSpace(c: char) {
    var n := c as int;
    9 <= n <= 13 || n in {0x20, 0xA0, 0x1680, 0x2028, 0x2029, 0x202F, 0x205F, 0x3000, 0xFEFF} || 0x2000 <= n <= 0x200A
  }

  function Trim(s: string): string {
    if s == "" then ""
    else if IsWhiteSpace(s[0]) then Trim(s[1..])
    else if IsWhiteSpace(s[|s| - 1]) then Trim(s[..|s| - 1])
    else s
  }

  /** Comma-separated. */
  function Join(parts: seq<string>): string {
    if parts == [] then ""
    else if |parts| == 1 then parts[0]
    else parts[0] + "," + Join(parts[1..])
  }

  lemma JoinFew(x: string, y: string)
    ensures Join([]) == "" && Join([x]) == x && Join([x, y]) == x + "," + y
  {
    assert [x, y][1..] == [y];
  }

  function InsertText(x: string, s: seq<string>): seq<string> {
    if s == [] || !Less(s[0], x) then [x] + s else [s[0]] + InsertText(x, s[1..])
  }

  /** Insertion sort. SortedAlike shows that only the members matter. */
  function SortTexts(s: seq<string>): seq<string> {
    if s == [] then [] else InsertText(s[0], SortTexts(s[1..]))
  }

  lemma {:induction false} InsertTextKeeps(x: string, s: seq<string>)
    ensures multiset(InsertText(x, s)) == multiset{x} + multiset(s)
  {
    if s != [] && Less(s[0], x) {
      InsertTextKeeps(x, s[1..]);
      assert s == [s[0]] + s[1..];
    }
  }

  lemma {:induction false} SortTextsKeeps(s: seq<string>)
    ensures multiset(SortTexts(s)) == multiset(s)
  {
    if s != [] {
      SortTextsKeeps(s[1..]);
      InsertTextKeeps(s[0], SortTexts(s[1..]));
      assert s == [s[0]] + s[1..];
    }
  }

  ghost predicate TextsSorted(s: seq<string>) {
    forall i, j :: 0 <= i < j < |s| ==> !Less(s[j], s[i])
  }

  lemma {:induction false} InsertTextSorted(x: string, s: seq<string>)
    requires TextsSorted(s)
    ensures TextsSorted(InsertText(x, s))
  {
    hide Less;
    if s != [] {
      if Less(s[0], x) {
        InsertTextSorted(x, s[1..]);
        InsertTextKeeps(x, s[1..]);
        LessAsymmetric(s[0], x);
        var tail := InsertText(x, s[1..]);
        forall j | 0 <= j < |tail| ensures !Less(tail[j], s[0]) {
          assert tail[j] in multiset(tail);
        }
      } else {
        forall j | 0 <= j < |s| ensures !Less(s[j], x) {
          LessTotal(s[0], x);
          if Less(s[j], x) && Less(x, s[0]) {
            LessTransitive(s[j], x, s[0]);
          }
          LessIrreflexive(s[0]);
        }
      }
    }
  }

  lemma {:induction false} SortTextsSorted(s: seq<string>)
    ensures TextsSorted(SortTexts(s))
  {
    if s != [] {
      SortTextsSorted(s[1..]);
      InsertTextSorted(s[0], SortTexts(s[1..]));
    }
  }

  lemma HeadIsLeast(s: seq<string>, x: string)
    requires TextsSorted(s) && x in s
    ensures !Less(x, s[0])
  {
    LessIrreflexive(x);
  }

  lemma WithoutHead(s: seq<string>)
    requires TextsSorted(s) && s != []
    ensures TextsSorted(s[1..]) && s == [s[0]] + s[1..] && multiset(s[1..]) == multiset(s) - multiset{s[0]}
  {
  }

  lemma {:induction false} SortedTextsUnique(a: seq<string>, b: seq<string>)
    requires TextsSorted(a) && TextsSorted(b) && multiset(a) == multiset(b)
    ensures a == b
  {
    hide Less, TextsSorted;
    assert |a| == |multiset(a)| == |multiset(b)| == |b|;
    if a != [] {
      assert a[0] in multiset(b) && b[0] in multiset(a);
      HeadIsLeast(a, b[0]);
      HeadIsLeast(b, a[0]);
      LessTotal(a[0], b[0]);
      WithoutHead(a);
      WithoutHead(b);
      SortedTextsUnique(a[1..], b[1..]);
    }
  }

  /** Sorting forgets the order of a list and nothing else. */
  lemma SortedAlike(a: seq<string>, b: seq<string>)
    ensures SortTexts(a) == SortTexts(b) <==> multiset(a) == multiset(b)
  {
    SortTextsKeeps(a);
    SortTextsKeeps(b);
    SortTextsSorted(a);
    SortTextsSorted(b);
    if multiset(a) == multiset(b) {
      SortedTextsUnique(SortTexts(a), SortTexts(b));
    }
  }
}
