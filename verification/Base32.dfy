/** Base32 of authenticator secrets. The loops keep their bits in one 32-bit word that is never
    masked; they still compute the encoding of section 6 of RFC 4648, without padding. */
module Base32 {

  type Byte = n: nat | n < 256

  // ----- Bits ---------------------------------------------------------------------------

  type Bit = n: nat | n < 2

  function Pow2(k: nat): (p: nat)
    ensures p > 0
  {
    if k == 0 then 1 else 2 * Pow2(k - 1)
  }

  /** The low `k` bits of `n`, highest first. */
  function Bits(n: nat, k: nat): (b: seq<Bit>)
    ensures |b| == k
  {
    if k == 0 then [] else Bits(n / 2, k - 1) + [n % 2]
  }

  /** The bits of a list of `w`-bit units, one after the other. */
  function Stream(units: seq<nat>, w: nat): (b: seq<Bit>)
    ensures |b| == w * |units|
  {
    if units == [] then [] else Stream(units[..|units| - 1], w) + Bits(units[|units| - 1], w)
  }

  function Number(b: seq<Bit>): nat {
    if b == [] then 0 else 2 * Number(b[..|b| - 1]) + b[|b| - 1]
  }

  function Zeros(k: nat): seq<Bit> {
    seq(k, _ => 0)
  }

  // ----- RFC 4648 -------------------------------------------------------------------------

  /** Groups of five bits from the left; zero bits complete the last group. */
  function Quintets(b: seq<Bit>): seq<nat>
    decreases |b|
  {
    if b == [] then []
    else if |b| < 5 then [Number(b + Zeros(5 - |b|))]
    else [Number(b[..5])] + Quintets(b[5..])
  }

  /** Groups of eight bits from the left; an incomplete last group is dropped. */
  function Octets(b: seq<Bit>): seq<nat>
    decreases |b|
  {
    if |b| < 8 then [] else [Number(b[..8])] + Octets(b[8..])
  }

  ghost predicate Below(units: seq<nat>, w: nat) {
    forall u :: u in units ==> u < Pow2(w)
  }

  /** The alphabet: A to Z, then 2 to 7. */
  function CharOf(digit: nat): char {
    if digit % 32 < 26 then 'A' + (digit % 32) as char else '2' + (digit % 32 - 26) as char
  }

  function Spell(digits: seq<nat>): string {
    seq(|digits|, i requires 0 <= i < |digits| => CharOf(digits[i]))
  }

  function Encoded(buf: seq<Byte>): string {
    Spell(Quintets(Stream(buf, 8)))
  }

  /** The place of a character in the alphabet, or 32 for other characters. */
  function IndexOf(c: char): (i: nat)
    ensures i <= 32 && (i < 32 ==> CharOf(i) == c)
  {
    if 'A' <= c <= 'Z' then c as int - 'A' as int
    else if '2' <= c <= '7' then c as int - '2' as int + 26
    else 32
  }

  /** What is left of a character when it is put in upper case and everything outside the alphabet
      is dropped. Some ligatures and accented letters turn into plain capitals. */
  function Letters(c: char): string {
    var n := c as int;
    if IndexOf(c) < 32 then [c]
    else if 'a' <= c <= 'z' then [c - 'a' + 'A']
    else if n == 0x131 then "I"
    else if n == 0x17F then "S"
    else if n == 0xDF then "SS"
    else if n == 0x149 then "N"
    else if n == 0x1F0 then "J"
    else if n == 0x1E96 then "H"
    else if n == 0x1E97 then "T"
    else if n == 0x1E98 then "W"
    else if n == 0x1E99 then "Y"
    else if n == 0x1E9A then "A"
    else if n == 0xFB00 then "FF"
    else if n == 0xFB01 then "FI"
    else if n == 0xFB02 then "FL"
    else if n == 0xFB03 then "FFI"
    else if n == 0xFB04 then "FFL"
    else if n == 0xFB05 || n == 0xFB06 then "ST"
    else ""
  }

  function Clean(text: string): string {
    if text == "" then "" else Clean(text[..|text| - 1]) + Letters(text[|text| - 1])
  }

  function Indices(clean: string): seq<nat> {
    seq(|clean|, i requires 0 <= i < |clean| => IndexOf(clean[i]))
  }

  function Decoded(text: string): seq<nat> {
    Octets(Stream(Indices(Clean(text)), 5))
  }

  // ----- Facts about bits --------------------------------------------------------------------

  lemma Pow2Small()
    ensures Pow2(0) == 1 && Pow2(1) == 2 && Pow2(2) == 4 && Pow2(3) == 8 && Pow2(4) == 16 && Pow2(5) == 32
    ensures Pow2(6) == 64 && Pow2(7) == 128 && Pow2(8) == 256
  {
    assert Pow2(3) == 8;
    assert Pow2(6) == 64;
  }

  lemma {:induction false} Pow2Sum(a: nat, b: nat)
    ensures Pow2(a + b) == Pow2(a) * Pow2(b)
  {
    if b > 0 {
      Pow2Sum(a, b - 1);
      assert Pow2(a + b) == 2 * Pow2(a + b - 1);
      assert Pow2(a) * Pow2(b) == 2 * (Pow2(a) * Pow2(b - 1));
    }
  }

  /** Adding a multiple of 2^k leaves the low k bits alone. */
  lemma {:induction false} BitsModulo(n: nat, m: nat, k: nat)
    ensures Bits(n + m * Pow2(k), k) == Bits(n, k)
  {
    if k > 0 {
      var x := n + m * Pow2(k);
      assert x == n + 2 * (m * Pow2(k - 1));
      assert x / 2 == n / 2 + m * Pow2(k - 1) && x % 2 == n % 2;
      BitsModulo(n / 2, m, k - 1);
    }
  }

  lemma BitsLast(n: nat, k: nat)
    requires k > 0
    ensures Bits(n, k) == Bits(n / 2, k - 1) + [n % 2]
  {
  }

  /** The unsigned shift to the right by k places, one at a time. */
  function Shift(n: nat, k: nat): nat {
    if k == 0 then n else Shift(n / 2, k - 1)
  }

  /** The low a + b bits are the low a bits of what remains after b bits, then the low b bits. */
  lemma {:induction false} BitsSplit(n: nat, a: nat, b: nat)
    ensures Bits(n, a + b) == Bits(Shift(n, b), a) + Bits(n, b)
  {
    hide Bits;
    if b == 0 {
      BitsNothing(n);
    } else {
      BitsSplit(n / 2, a, b - 1);
      BitsLast(n, a + b);
      BitsLast(n, b);
    }
  }

  lemma BitsNothing(n: nat)
    ensures Bits(n, 0) == []
  {
  }

  lemma {:induction false} BitsOfZero(k: nat)
    ensures Bits(0, k) == Zeros(k)
  {
    if k > 0 {
      BitsOfZero(k - 1);
    }
  }

  lemma {:induction false} NumberOfBits(n: nat, k: nat)
    requires n < Pow2(k)
    ensures Number(Bits(n, k)) == n
  {
    if k > 0 {
      NumberOfBits(n / 2, k - 1);
      assert Bits(n, k)[..k - 1] == Bits(n / 2, k - 1);
    }
  }

  lemma {:induction false} StreamFirst(units: seq<nat>, w: nat)
    requires units != []
    ensures Stream(units, w) == Bits(units[0], w) + Stream(units[1..], w)
  {
    if |units| > 1 {
      var front := units[..|units| - 1];
      StreamFirst(front, w);
      assert units[1..][..|units| - 2] == front[1..];
    }
  }

  // ----- Grouping is determined by the bits ---------------------------------------------------

  lemma {:induction false} QuintetsAre(digits: seq<nat>, b: seq<Bit>)
    requires 0 <= 5 * |digits| - |b| < 5
    requires Below(digits, 5) && Stream(digits, 5) == b + Zeros(5 * |digits| - |b|)
    ensures digits == Quintets(b)
    decreases |digits|
  {
    hide Stream, Bits, Number;
    if digits != [] {
      StreamFirst(digits, 5);
      assert digits[0] in digits;
      NumberOfBits(digits[0], 5);
      var s := Stream(digits, 5);
      assert s[..5] == Bits(digits[0], 5) && s[5..] == Stream(digits[1..], 5);
      if |b| < 5 {
        assert |digits| == 1;
        assert b + Zeros(5 - |b|) == s == s[..5];
        assert digits == [digits[0]];
      } else {
        assert s[..5] == b[..5];
        assert s[5..] == b[5..] + Zeros(5 * |digits[1..]| - |b[5..]|);
        assert forall u :: u in digits[1..] ==> u in digits;
        QuintetsAre(digits[1..], b[5..]);
        assert digits == [digits[0]] + digits[1..];
      }
    }
  }

  lemma {:induction false} OctetsAre(bytes: seq<nat>, rest: seq<Bit>)
    requires Below(bytes, 8) && |rest| < 8
    ensures Octets(Stream(bytes, 8) + rest) == bytes
    decreases |bytes|
  {
    hide Stream, Bits, Number;
    if bytes == [] {
      assert Stream(bytes, 8) + rest == rest;
    } else {
      StreamFirst(bytes, 8);
      assert bytes[0] in bytes;
      NumberOfBits(bytes[0], 8);
      assert forall u :: u in bytes[1..] ==> u in bytes;
      OctetsAre(bytes[1..], rest);
      var b := Stream(bytes, 8) + rest;
      assert b[..8] == Bits(bytes[0], 8) && b[8..] == Stream(bytes[1..], 8) + rest;
      assert bytes == [bytes[0]] + bytes[1..];
    }
  }

  // ----- The 32-bit word ------------------------------------------------------------------------

  const WORD: nat := 0x1_0000_0000

  /** A 32-bit word shifted left by k places, with `low` put in: the high bits fall off, and since
      the k bits that come in are zero, putting in is adding. The word is read unsigned. */
  function Push(value: nat, k: nat, low: nat): nat {
    value * Pow2(k) % WORD + low
  }

  lemma WordIsPow2()
    ensures Pow2(32) == WORD
  {
    Pow2Small();
    Pow2Sum(8, 8);
    Pow2Sum(16, 16);
  }

  lemma DivMod(n: nat, p: nat)
    requires p > 0
    ensures n == n % p + (n / p) * p
  {
  }

  lemma MulAssociates(a: nat, b: nat, c: nat)
    ensures a * (b * c) == (a * b) * c
  {
  }

  /** What falls off the word lies above the bits in use. */
  lemma WrapKeepsBits(n: nat, low: nat, k: nat)
    requires k <= 32
    ensures Bits(n % WORD + low, k) == Bits(n + low, k)
  {
    hide Pow2, Bits;
    WordIsPow2();
    Pow2Sum(32 - k, k);
    var r, q := n % WORD, n / WORD;
    DivMod(n, WORD);
    MulAssociates(q, Pow2(32 - k), Pow2(k));
    BitsModulo(r + low, q * Pow2(32 - k), k);
    assert n + low == r + low + (q * Pow2(32 - k)) * Pow2(k);
  }

  /** Pushing w bits appends them to the bits in use, although the word wraps around. */
  lemma PushBits(value: nat, used: nat, w: nat, low: nat)
    requires low < Pow2(w) && used + w <= 32
    ensures Bits(Push(value, w, low), used + w) == Bits(value, used) + Bits(low, w)
  {
    hide Bits, Pow2, Shift;
    WrapKeepsBits(value * Pow2(w), low, used + w);
    BitsSplit(value * Pow2(w) + low, used, w);
    ShiftPushed(value, w, low);
    BitsModulo(low, value, w);
    assert low + value * Pow2(w) == value * Pow2(w) + low;
  }

  lemma {:induction false} ShiftPushed(value: nat, w: nat, low: nat)
    requires low < Pow2(w)
    ensures Shift(value * Pow2(w) + low, w) == value
  {
    if w > 0 {
      var n := value * Pow2(w) + low;
      assert n == 2 * (value * Pow2(w - 1)) + low;
      assert n / 2 == value * Pow2(w - 1) + low / 2;
      ShiftPushed(value, w - 1, low / 2);
    }
  }

  /** Taking the top w of the bits in use, by shifting and masking. */
  lemma TakeBits(value: nat, used: nat, w: nat)
    requires w <= used
    ensures Bits(value, used) == Bits(Shift(value, used - w) % Pow2(w), w) + Bits(value, used - w)
    ensures Shift(value, used - w) % Pow2(w) < Pow2(w)
  {
    hide Bits, Shift;
    BitsSplit(value, w, used - w);
    BitsOfRemainder(Shift(value, used - w), w);
  }

  lemma BitsOfRemainder(n: nat, w: nat)
    ensures Bits(n % Pow2(w), w) == Bits(n, w)
  {
    hide Bits, Pow2;
    DivMod(n, Pow2(w));
    var r, q := n % Pow2(w), n / Pow2(w);
    BitsModulo(r, q, w);
  }

  lemma StreamAppend(units: seq<nat>, u: nat, w: nat)
    ensures Stream(units + [u], w) == Stream(units, w) + Bits(u, w)
  {
  }

  /** Reading one more unit: its bits go to the end of the pending ones. */
  lemma ReadUnit(out: seq<nat>, wOut: nat, value: nat, bits: nat, done: seq<nat>, u: nat, wIn: nat)
    requires Stream(out, wOut) + Bits(value, bits) == Stream(done, wIn) && u < Pow2(wIn) && bits + wIn <= 32
    ensures Stream(out, wOut) + Bits(Push(value, wIn, u), bits + wIn) == Stream(done + [u], wIn)
  {
    hide Stream, Bits, Push, Pow2;
    PushBits(value, bits, wIn, u);
    StreamAppend(done, u, wIn);
    assert (Stream(out, wOut) + Bits(value, bits)) + Bits(u, wIn)
        == Stream(out, wOut) + (Bits(value, bits) + Bits(u, wIn));
  }

  /** Writing one more unit: it takes its bits from the front of the pending ones. */
  lemma WriteUnit(out: seq<nat>, wOut: nat, value: nat, bits: nat, all: seq<Bit>)
    requires wOut <= bits && Stream(out, wOut) + Bits(value, bits) == all
    ensures var u := Shift(value, bits - wOut) % Pow2(wOut);
            u < Pow2(wOut) && Stream(out + [u], wOut) + Bits(value, bits - wOut) == all
  {
    hide Stream, Bits, Shift, Pow2;
    var u := Shift(value, bits - wOut) % Pow2(wOut);
    TakeBits(value, bits, wOut);
    StreamAppend(out, u, wOut);
    assert Stream(out, wOut) + (Bits(u, wOut) + Bits(value, bits - wOut))
        == (Stream(out, wOut) + Bits(u, wOut)) + Bits(value, bits - wOut);
  }

  /** The last, incomplete group of five. */
  lemma WriteLast(out: seq<nat>, value: nat, bits: nat, all: seq<Bit>)
    requires 0 < bits < 5 && Stream(out, 5) + Bits(value, bits) == all
    ensures var u := Push(value, 5 - bits, 0) % 32;
            Stream(out + [u], 5) == all + Zeros(5 - bits)
  {
    hide Stream, Bits, Push, Pow2;
    Pow2Small();
    PushBits(value, bits, 5 - bits, 0);
    BitsOfRemainder(Push(value, 5 - bits, 0), 5);
    BitsOfZero(5 - bits);
    StreamAppend(out, Push(value, 5 - bits, 0) % 32, 5);
    assert Stream(out, 5) + (Bits(value, bits) + Zeros(5 - bits)) == all + Zeros(5 - bits);
  }

  lemma NothingRead(w: nat, v: nat)
    ensures Stream([], w) + Bits(0, 0) == Stream([], v)
  {
  }

  lemma BelowAppend(units: seq<nat>, u: nat, w: nat)
    requires Below(units, w) && u < Pow2(w)
    ensures Below(units + [u], w)
  {
  }

  // ----- The loops ---------------------------------------------------------------------------------

  /** `bufToBase32`. */
  method BufToBase32(buf: seq<Byte>) returns (out: string)
    ensures out == Encoded(buf)
  {
    hide Bits, Shift, Push, Quintets, Pow2, Stream, Below, CharOf, Spell;
    Pow2Small();
    var bits, value := 0, 0;
    out := "";
    assert Spell([]) == "" by {
      SpellNothing();
    }
    ghost var digits: seq<nat> := [];
    NothingRead(5, 8);
    NothingBelow(5);
    for i := 0 to |buf|
      invariant 0 <= bits < 5 && 0 <= value
      invariant out == Spell(digits) && Below(digits, 5)
      invariant Stream(digits, 5) + Bits(value, bits) == Stream(buf[..i], 8)
    {
      ReadUnit(digits, 5, value, bits, buf[..i], buf[i], 8);
      value := Push(value, 8, buf[i]);
      bits := bits + 8;
      assert buf[..i + 1] == buf[..i] + [buf[i]];
      while bits >= 5
        invariant 0 <= bits <= 12
        invariant out == Spell(digits) && Below(digits, 5)
        invariant Stream(digits, 5) + Bits(value, bits) == Stream(buf[..i + 1], 8)
      {
        WriteUnit(digits, 5, value, bits, Stream(buf[..i + 1], 8));
        var d := Shift(value, bits - 5) % 32;
        BelowAppend(digits, d, 5);
        SpellAppend(digits, d);
        out := out + [CharOf(d)];
        digits := digits + [d];
        bits := bits - 5;
      }
    }
    assert buf[..|buf|] == buf;
    if bits > 0 {
      WriteLast(digits, value, bits, Stream(buf, 8));
      var d := Push(value, 5 - bits, 0) % 32;
      BelowAppend(digits, d, 5);
      SpellAppend(digits, d);
      out := out + [CharOf(d)];
      digits := digits + [d];
    } else {
      BitsNothing(value);
      assert Stream(digits, 5) == Stream(buf, 8) + Zeros(0);
    }
    QuintetsAre(digits, Stream(buf, 8));
  }

  lemma SpellNothing()
    ensures Spell([]) == ""
  {
  }

  lemma SpellAppend(digits: seq<nat>, d: nat)
    ensures Spell(digits + [d]) == Spell(digits) + [CharOf(d)]
  {
    hide CharOf;
  }

  lemma NothingBelow(w: nat)
    ensures Below([], w)
  {
  }

  /** `base32ToBuf`. */
  method Base32ToBuf(secret: string) returns (bytes: seq<nat>)
    ensures bytes == Decoded(secret) && Below(bytes, 8)
  {
    hide Bits, Shift, Push, Octets, Pow2, Clean, Stream, Below;
    Pow2Small();
    CleanIsAlphabet(secret);
    var clean := Clean(secret);
    var bits, value := 0, 0;
    bytes := [];
    NothingRead(8, 5);
    NothingBelow(8);
    assert Indices(clean[..0]) == [];
    for i := 0 to |clean|
      invariant 0 <= bits < 8 && 0 <= value
      invariant Below(bytes, 8)
      invariant Stream(bytes, 8) + Bits(value, bits) == Stream(Indices(clean[..i]), 5)
    {
      var idx := IndexOf(clean[i]);
      ReadUnit(bytes, 8, value, bits, Indices(clean[..i]), idx, 5);
      value := Push(value, 5, idx);
      bits := bits + 5;
      assert Indices(clean[..i + 1]) == Indices(clean[..i]) + [idx];
      if bits >= 8 {
        WriteUnit(bytes, 8, value, bits, Stream(Indices(clean[..i + 1]), 5));
        var byte := Shift(value, bits - 8) % 256;
        BelowAppend(bytes, byte, 8);
        bytes := bytes + [byte];
        bits := bits - 8;
      }
    }
    assert clean[..|clean|] == clean;
    OctetsAre(bytes, Bits(value, bits));
  }

  lemma LettersAreAlphabet(c: char)
    ensures forall i :: 0 <= i < |Letters(c)| ==> IndexOf(Letters(c)[i]) < 32
  {
  }

  lemma {:induction false} CleanIsAlphabet(text: string)
    ensures forall i :: 0 <= i < |Clean(text)| ==> IndexOf(Clean(text)[i]) < 32
  {
    hide Letters, IndexOf;
    if text != "" {
      CleanIsAlphabet(text[..|text| - 1]);
      LettersAreAlphabet(text[|text| - 1]);
    }
  }

  /** The alphabet of RFC 4648, and the place of each of its characters. */
  lemma AlphabetIs(d: nat)
    requires d < 32
    ensures CharOf(d) == "ABCDEFGHIJKLMNOPQRSTUVWXYZ234567"[d] && IndexOf(CharOf(d)) == d
  {
    var letters, digits := "ABCDEFGHIJKLMNOPQRSTUVWXYZ", "234567";
    assert "ABCDEFGHIJKLMNOPQRSTUVWXYZ234567" == letters + digits;
    if d < 26 {
      LetterIs(d);
    } else {
      assert digits[d - 26] == '2' + (d - 26) as char;
    }
  }

  lemma LetterIs(d: nat)
    requires d < 26
    ensures "ABCDEFGHIJKLMNOPQRSTUVWXYZ"[d] == 'A' + d as char
  {
  }

  /** Reading a secret is reading its characters one by one: capitals and the digits 2 to 7 count as
      they are, small letters as capitals, and the rest of ASCII is dropped. */
  lemma CleanMeans(a: string, b: string, c: char)
    ensures Clean(a + b) == Clean(a) + Clean(b)
    ensures 'A' <= c <= 'Z' || '2' <= c <= '7' ==> Clean([c]) == [c]
    ensures 'a' <= c <= 'z' ==> Clean([c]) == [c - 'a' + 'A']
    ensures c as int < 128 && !('A' <= c <= 'Z' || '2' <= c <= '7' || 'a' <= c <= 'z') ==> Clean([c]) == ""
  {
    CleanConcat(a, b);
    assert [c][..0] == "" && Clean("") == "";
    assert Clean([c]) == Clean([c][..0]) + Letters(c);
  }

  lemma {:induction false} CleanConcat(a: string, b: string)
    ensures Clean(a + b) == Clean(a) + Clean(b)
  {
    hide Letters;
    if b == "" {
      assert a + b == a;
    } else {
      var front, c := b[..|b| - 1], b[|b| - 1];
      assert a + b == (a + front) + [c] && b == front + [c];
      CleanConcat(a, front);
      CleanAppend(a + front, c);
      CleanAppend(front, c);
    }
  }

  // ----- Round trip ----------------------------------------------------------------------------------

  lemma {:induction false} BitsOfNumber(b: seq<Bit>)
    ensures Number(b) < Pow2(|b|) && Bits(Number(b), |b|) == b
  {
    if b != [] {
      BitsOfNumber(b[..|b| - 1]);
      assert b == b[..|b| - 1] + [b[|b| - 1]];
    }
  }

  lemma FrontQuintet(digits: seq<nat>, rest: seq<nat>, b: seq<Bit>)
    requires |b| >= 5 && digits == [Number(b[..5])] + rest
    requires Number(b[..5]) < Pow2(5) && Bits(Number(b[..5]), 5) == b[..5]
    requires 0 <= 5 * |rest| - |b[5..]| && Stream(rest, 5) == b[5..] + Zeros(5 * |rest| - |b[5..]|) && Below(rest, 5)
    ensures Stream(digits, 5) == b + Zeros(5 * |rest| - |b[5..]|) && Below(digits, 5)
  {
    hide Bits, Number, Pow2, Stream;
    StreamFirst(digits, 5);
    assert digits[1..] == rest;
    assert b == b[..5] + b[5..];
  }

  /** The groups of five spell out the bits and fewer than five zeros. */
  lemma {:induction false} QuintetsStream(b: seq<Bit>)
    ensures 0 <= 5 * |Quintets(b)| - |b| < 5
    ensures Stream(Quintets(b), 5) == b + Zeros(5 * |Quintets(b)| - |b|)
    ensures Below(Quintets(b), 5)
    decreases |b|
  {
    hide Bits, Number, Pow2;
    if b == [] {
    } else if |b| < 5 {
      BitsOfNumber(b + Zeros(5 - |b|));
      StreamFirst(Quintets(b), 5);
    } else {
      BitsOfNumber(b[..5]);
      QuintetsStream(b[5..]);
      var digits, rest := Quintets(b), Quintets(b[5..]);
      FrontQuintet(digits, rest, b);
    }
  }

  lemma CleanAppend(text: string, c: char)
    ensures Clean(text + [c]) == Clean(text) + Letters(c)
  {
    hide Letters;
    assert (text + [c])[..|text|] == text;
  }

  lemma {:induction false} SpelledIsClean(digits: seq<nat>)
    requires forall d :: d in digits ==> d < 32
    ensures Clean(Spell(digits)) == Spell(digits) && Indices(Spell(digits)) == digits
  {
    hide Clean, CharOf, IndexOf, Letters;
    if digits == [] {
      assert Spell(digits) == "";
      CleanNothing();
    } else {
      var front, d := digits[..|digits| - 1], digits[|digits| - 1];
      assert digits == front + [d];
      assert d in digits && forall x :: x in front ==> x in digits;
      SpelledIsClean(front);
      SpellAppend(front, d);
      SpelledDigit(d);
      CleanAppend(Spell(front), CharOf(d));
      assert Indices(Spell(digits)) == Indices(Spell(front)) + [d];
    }
  }

  lemma CleanNothing()
    ensures Clean("") == ""
  {
  }

  lemma SpelledDigit(d: nat)
    requires d < 32
    ensures Letters(CharOf(d)) == [CharOf(d)] && IndexOf(CharOf(d)) == d
  {
  }

  /** Decoding an encoded secret gives back the bytes, for every length. */
  lemma RoundTrip(buf: seq<Byte>)
    ensures Decoded(Encoded(buf)) == buf
  {
    Pow2Small();
    var b := Stream(buf, 8);
    var digits := Quintets(b);
    QuintetsStream(b);
    hide Stream, Quintets, Octets, Pow2, Clean;
    SpelledIsClean(digits);
    OctetsAre(buf, Zeros(5 * |digits| - |b|));
  }

  // ----- The encoding as a number ---------------------------------------------------------------

  /** The number that a list of digits makes in a base, the first being the most significant. */
  function Value(digits: seq<nat>, base: nat): nat {
    if digits == [] then 0 else base * Value(digits[..|digits| - 1], base) + digits[|digits| - 1]
  }

  lemma {:induction false} NumberConcat(a: seq<Bit>, b: seq<Bit>)
    ensures Number(a + b) == Number(a) * Pow2(|b|) + Number(b)
  {
    hide Number, Pow2;
    if b == [] {
      assert a + b == a;
      NumberOfNothing();
      Pow2Small();
    } else {
      var front := b[..|b| - 1];
      assert (a + b)[..|a + b| - 1] == a + front;
      NumberConcat(a, front);
      NumberLast(a + b);
      NumberLast(b);
      Pow2Step(|front|);
      Twice(Number(a), Pow2(|front|));
    }
  }

  lemma NumberLast(b: seq<Bit>)
    requires b != []
    ensures Number(b) == 2 * Number(b[..|b| - 1]) + b[|b| - 1]
  {
  }

  lemma Pow2Step(k: nat)
    ensures Pow2(k + 1) == 2 * Pow2(k)
  {
  }

  lemma Twice(x: nat, p: nat)
    ensures x * (2 * p) == 2 * (x * p)
  {
  }

  lemma {:induction false} NumberOfZeros(k: nat)
    ensures Number(Zeros(k)) == 0
  {
    if k > 0 {
      assert Zeros(k)[..k - 1] == Zeros(k - 1);
      NumberOfZeros(k - 1);
    }
  }

  lemma {:induction false} StreamValue(units: seq<nat>, w: nat)
    requires Below(units, w)
    ensures Number(Stream(units, w)) == Value(units, Pow2(w))
  {
    hide Number, Bits, Pow2;
    if units == [] {
      NumberOfNothing();
    } else {
      var front, u := units[..|units| - 1], units[|units| - 1];
      assert units == front + [u] && u in units;
      assert forall x :: x in front ==> x in units;
      StreamValue(front, w);
      NumberConcat(Stream(front, w), Bits(u, w));
      NumberOfBits(u, w);
    }
  }

  lemma NumberOfNothing()
    ensures Number([]) == 0
  {
  }

  /** The text writes, in the 32 digits of the alphabet, the number that the bytes make, with as many
      zero bits after it as complete the last group of five. */
  lemma EncodedValue(buf: seq<Byte>)
    ensures var digits := Indices(Encoded(buf));
            && 0 <= 5 * |digits| - 8 * |buf| < 5
            && (forall d :: d in digits ==> d < 32)
            && Value(digits, 32) == Value(buf, 256) * Pow2(5 * |digits| - 8 * |buf|)
  {
    var b := Stream(buf, 8);
    var digits := Quintets(b);
    QuintetsStream(b);
    Pow2Small();
    assert Below(buf, 8);
    hide Stream, Quintets, Pow2, Number, Bits, Clean;
    SpelledIsClean(digits);
    StreamValue(digits, 5);
    StreamValue(buf, 8);
    NumberConcat(b, Zeros(5 * |digits| - |b|));
    NumberOfZeros(5 * |digits| - |b|);
  }
}
