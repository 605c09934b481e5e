/** Time-based one-time codes (RFC 6238) over the dynamic truncation of section 5.3 of RFC 4226.
    `hmac(key, message)` stands for HMAC-SHA-1. Time is a whole number of milliseconds. */
module Totp {
  import opened Strings
  import B = Base32

  type Hmac = (seq<nat>, seq<nat>) -> seq<nat>

  const LIMIT := 0x1_0000_0000
  const MODULUS := 1_000_000

  /** Twenty bytes for every key and message. */
  ghost predicate IsSha1Hmac(hmac: Hmac) {
    forall k, m :: |hmac(k, m)| == 20 && forall i :: 0 <= i < 20 ==> hmac(k, m)[i] < 256
  }

  // ----- What the standards define --------------------------------------------------------

  /** The number of whole windows since the epoch. */
  function Counter(timeMs: int, window: nat): int
    requires window > 0
  {
    timeMs / (1000 * window)
  }

  function BigEndian(n: nat, k: nat): (b: seq<nat>)
    ensures |b| == k
  {
    if k == 0 then [] else BigEndian(n / 256, k - 1) + [n % 256]
  }

  function FromBigEndian(b: seq<nat>): nat {
    if b == [] then 0 else 256 * FromBigEndian(b[..|b| - 1]) + b[|b| - 1]
  }

  /** The low 31 bits of the four bytes that the last nibble points at. */
  function Truncate(h: seq<nat>): nat
    requires |h| == 20
  {
    FromBigEndian(h[h[19] % 16..h[19] % 16 + 4]) % 0x8000_0000
  }

  /** Exactly `k` decimal digits of `n`, the lowest ones. */
  function FixedDigits(n: nat, k: nat): (s: string)
    ensures |s| == k
  {
    if k == 0 then "" else FixedDigits(n / 10, k - 1) + [DigitChar(n % 10)]
  }

  function Code(hmac: Hmac, secret: string, counter: nat): string
    requires IsSha1Hmac(hmac)
  {
    FixedDigits(Truncate(hmac(B.Decoded(secret), BigEndian(counter, 8))) % MODULUS, 6)
  }

  // ----- Decimal digits ---------------------------------------------------------------------

  function PadStart(s: string, k: nat): string {
    if |s| >= k then s else seq(k - |s|, _ => '0') + s
  }

  lemma {:induction false} PaddedIsFixed(n: nat, k: nat)
    requires k > 0 && n < Pow10(k)
    ensures |Decimal(n)| <= k && PadStart(Decimal(n), k) == FixedDigits(n, k)
  {
    if k == 1 {
      assert FixedDigits(n, 1) == FixedDigits(n / 10, 0) + [DigitChar(n % 10)];
    } else if n < 10 {
      ZeroDigits(k - 1);
      assert FixedDigits(n, k) == FixedDigits(0, k - 1) + [DigitChar(n)];
    } else {
      PaddedIsFixed(n / 10, k - 1);
      assert PadStart(Decimal(n), k) == PadStart(Decimal(n / 10), k - 1) + [DigitChar(n % 10)];
    }
  }

  lemma {:induction false} ZeroDigits(k: nat)
    ensures FixedDigits(0, k) == seq(k, _ => '0')
  {
    if k > 0 {
      ZeroDigits(k - 1);
    }
  }

  // ----- The code -----------------------------------------------------------------------------

  datatype Result<+T> = Ok(value: T) | RangeError

  /** Masking and shifting four bytes together is reading them as a 31-bit number. */
  lemma MaskIsRemainder(h: seq<nat>, o: nat)
    requires o + 4 <= |h| && forall i :: 0 <= i < |h| ==> h[i] < 256
    ensures FromBigEndian(h[o..o + 4]) % 0x8000_0000
         == (h[o] % 128) * 0x100_0000 + h[o + 1] * 0x1_0000 + h[o + 2] * 0x100 + h[o + 3]
  {
    var b := h[o..o + 4];
    FourBytes(b);
    assert b == [h[o], h[o + 1], h[o + 2], h[o + 3]];
    TopBit(b[0], b[1] * 0x1_0000 + b[2] * 0x100 + b[3]);
  }

  lemma {:induction false} FourBytes(b: seq<nat>)
    requires |b| == 4
    ensures FromBigEndian(b) == b[0] * 0x100_0000 + b[1] * 0x1_0000 + b[2] * 0x100 + b[3]
  {
    var p1, p2, p3 := [b[0]], [b[0], b[1]], [b[0], b[1], b[2]];
    assert p1[..0] == [] && p2[..1] == p1 && p3[..2] == p2 && b[..3] == p3;
    assert FromBigEndian([]) == 0;
    assert FromBigEndian(p1) == 256 * FromBigEndian(p1[..0]) + b[0];
    assert FromBigEndian(p2) == 256 * FromBigEndian(p2[..1]) + b[1];
    assert FromBigEndian(p3) == 256 * FromBigEndian(p3[..2]) + b[2];
  }

  lemma TopBit(first: nat, rest: nat)
    requires first < 256 && rest < 0x100_0000
    ensures (first * 0x100_0000 + rest) % 0x8000_0000 == first % 128 * 0x100_0000 + rest
  {
    var q, r := first / 128, first % 128;
    assert first == 128 * q + r;
    assert first * 0x100_0000 + rest == 0x8000_0000 * q + (r * 0x100_0000 + rest);
  }

  lemma TruncateIs(h: seq<nat>)
    requires |h| == 20 && forall i :: 0 <= i < 20 ==> h[i] < 256
    ensures var o := h[19] % 16;
            Truncate(h) == (h[o] % 128) * 0x100_0000 + h[o + 1] * 0x1_0000 + h[o + 2] * 0x100 + h[o + 3]
  {
    hide FromBigEndian;
    MaskIsRemainder(h, h[19] % 16);
  }

  lemma CounterBytes(c: nat)
    requires c < LIMIT
    ensures BigEndian(c, 8) == [0, 0, 0, 0, c / 0x100_0000, c / 0x1_0000 % 256, c / 0x100 % 256, c % 256]
  {
    var a, b, d := c / 256, c / 256 / 256, c / 256 / 256 / 256;
    assert a == c / 0x100 && b == c / 0x1_0000 && d == c / 0x100_0000;
    assert d / 256 == 0 && d % 256 == d;
    assert BigEndian(0, 4) == [0, 0, 0, 0] by {
      assert BigEndian(0, 2) == [0, 0];
    }
    assert BigEndian(d, 5) == BigEndian(0, 4) + [d];
    assert BigEndian(b, 6) == BigEndian(d, 5) + [b % 256];
    assert BigEndian(a, 7) == BigEndian(b, 6) + [a % 256];
  }

  /** Writes the counter into an 8-byte buffer; the write refuses anything outside 32 bits. */
  method WriteCounter(buf: array<nat>, counter: int) returns (ok: bool)
    requires buf.Length == 8
    modifies buf
    ensures ok == (0 <= counter < LIMIT)
    ensures ok ==> buf[..] == BigEndian(counter, 8)
  {
    hide BigEndian;
    buf[0], buf[1], buf[2], buf[3] := 0, 0, 0, 0;
    ok := 0 <= counter < LIMIT;
    if ok {
      buf[4], buf[5] := counter / 0x100_0000, counter / 0x1_0000 % 256;
      buf[6], buf[7] := counter / 0x100 % 256, counter % 256;
      CounterBytes(counter);
    }
  }

  /** `totp`: the code of the window that the time falls in. */
  method Totp(hmac: Hmac, secret: string, window: nat, timeMs: int) returns (r: Result<string>)
    requires IsSha1Hmac(hmac) && window > 0
    ensures var c := Counter(timeMs, window);
            r == if 0 <= c < LIMIT then Ok(Code(hmac, secret, c)) else RangeError
  {
    hide B.Decoded, BigEndian, FixedDigits, Decimal, PadStart, Pow10, Truncate;
    var key := B.Base32ToBuf(secret);
    var counter := timeMs / (1000 * window);
    var buf := new nat[8](_ => 0);
    var ok := WriteCounter(buf, counter);
    if !ok {
      return RangeError;
    }
    var h := hmac(key, buf[..]);
    var offset := h[|h| - 1] % 16;
    TruncateIs(h);
    var code := (h[offset] % 128) * 0x100_0000 + h[offset + 1] * 0x1_0000 + h[offset + 2] * 0x100 + h[offset + 3];
    PowerOfSix();
    PaddedIsFixed(code % MODULUS, 6);
    r := Ok(PadStart(Decimal(code % MODULUS), 6));
  }

  lemma PowerOfSix()
    ensures Pow10(6) == MODULUS
  {
    assert Pow10(3) == 1000;
  }

  // ----- Verification ------------------------------------------------------------------------------

  function WithoutSpace(s: string): string {
    if s == "" then "" else WithoutSpace(s[..|s| - 1]) + if IsWhiteSpace(s[|s| - 1]) then "" else [s[|s| - 1]]
  }

  /** White space is dropped wherever it stands, and nothing else. */
  lemma {:induction false} WithoutSpaceMeans(a: string, b: string, c: char)
    ensures WithoutSpace(a + b) == WithoutSpace(a) + WithoutSpace(b)
    ensures WithoutSpace([c]) == if IsWhiteSpace(c) then "" else [c]
    ensures c as int < 128 ==> (IsWhiteSpace(c) <==> c as int in {9, 10, 11, 12, 13, 32})
  {
    assert [c][..0] == "" && WithoutSpace("") == "";
    assert WithoutSpace([c]) == WithoutSpace([c][..0]) + if IsWhiteSpace(c) then "" else [c];
    if b == "" {
      assert a + b == a;
    } else {
      hide IsWhiteSpace;
      assert (a + b)[..|a + b| - 1] == a + b[..|b| - 1];
      WithoutSpaceMeans(a, b[..|b| - 1], c);
    }
  }

  predicate IsSixDigits(s: string) {
    |s| == 6 && forall i :: 0 <= i < 6 ==> '0' <= s[i] <= '9'
  }

  /** One comparison of the loop, for the counter of its window. */
  function Matches(hmac: Hmac, secret: string, clean: string, c: int): Result<bool>
    requires IsSha1Hmac(hmac)
  {
    if 0 <= c < LIMIT then Ok(clean == Code(hmac, secret, c)) else RangeError
  }

  /** The windows are tried in the order now, before, after; the first match or error ends it. */
  function Verdict(hmac: Hmac, secret: string, clean: string, c: int): Result<bool>
    requires IsSha1Hmac(hmac)
  {
    if Matches(hmac, secret, clean, c) != Ok(false) then Matches(hmac, secret, clean, c)
    else if Matches(hmac, secret, clean, c - 1) != Ok(false) then Matches(hmac, secret, clean, c - 1)
    else Matches(hmac, secret, clean, c + 1)
  }

  lemma NextWindow(timeMs: int, window: nat)
    requires window > 0
    ensures Counter(timeMs - window * 1000, window) == Counter(timeMs, window) - 1
    ensures Counter(timeMs + window * 1000, window) == Counter(timeMs, window) + 1
  {
    var d := 1000 * window;
    ShiftedQuotient(timeMs, d);
    ShiftedQuotient(timeMs - d, d);
    assert timeMs - d + d == timeMs;
  }

  lemma ShiftedQuotient(t: int, d: nat)
    requires d > 0
    ensures (t + d) / d == t / d + 1
  {
    var q, r := t / d, t % d;
    assert t + d == d * (q + 1) + r;
    Quotient(t + d, d, q + 1, r);
  }

  lemma Quotient(x: int, d: nat, q: int, r: int)
    requires d > 0 && x == d * q + r && 0 <= r < d
    ensures x / d == q
  {
    assert d * (x / d) + x % d == x;
    assert d * (x / d - q) == r - x % d;
    MulMonotone(d, x / d - q);
  }

  lemma MulMonotone(p: int, d: int)
    requires p > 0
    ensures d >= 1 ==> p * d >= p
    ensures d <= -1 ==> p * d <= -p
  {
  }

  /** What `verifyTotp` answers for a code as typed. */
  function Answer(hmac: Hmac, secret: string, code: string, window: nat, timeMs: int): Result<bool>
    requires IsSha1Hmac(hmac) && window > 0
  {
    var clean := WithoutSpace(code);
    if IsSixDigits(clean) then Verdict(hmac, secret, clean, Counter(timeMs, window)) else Ok(false)
  }

  /** The window with that counter lasts `window` seconds and holds the time. */
  lemma CounterIsWindow(timeMs: int, window: nat)
    requires window > 0
    ensures var c := Counter(timeMs, window);
            c * (1000 * window) <= timeMs < (c + 1) * (1000 * window)
  {
    var d := 1000 * window;
    assert timeMs == d * (timeMs / d) + timeMs % d;
    assert (timeMs / d + 1) * d == d * (timeMs / d) + d;
  }

  /** `verifyTotp`. */
  method VerifyTotp(hmac: Hmac, secret: string, code: string, window: nat, timeMs: int) returns (r: Result<bool>)
    requires IsSha1Hmac(hmac) && window > 0
    ensures r == Answer(hmac, secret, code, window, timeMs)
  {
    hide Code, Counter;
    var clean := WithoutSpace(code);
    if !IsSixDigits(clean) {
      return Ok(false);
    }
    var winMs := window * 1000;
    NextWindow(timeMs, window);
    var skews := [0, -winMs, winMs];
    ghost var c := Counter(timeMs, window);
    ghost var counters := [c, c - 1, c + 1];
    for i := 0 to 3
      invariant forall j :: 0 <= j < i ==> Matches(hmac, secret, clean, counters[j]) == Ok(false)
    {
      var expected := Totp(hmac, secret, window, timeMs + skews[i]);
      assert timeMs + 0 == timeMs && timeMs + -winMs == timeMs - winMs;
      assert Counter(timeMs + skews[i], window) == counters[i];
      if expected.RangeError? {
        assert Matches(hmac, secret, clean, counters[i]) == RangeError;
        assert i >= 1 ==> Matches(hmac, secret, clean, counters[0]) == Ok(false);
        assert i == 2 ==> Matches(hmac, secret, clean, counters[1]) == Ok(false);
        return RangeError;
      }
      if expected.value == clean {
        assert Matches(hmac, secret, clean, counters[i]) == Ok(true);
        assert i >= 1 ==> Matches(hmac, secret, clean, counters[0]) == Ok(false);
        assert i == 2 ==> Matches(hmac, secret, clean, counters[1]) == Ok(false);
        return Ok(true);
      }
    }
    assert Matches(hmac, secret, clean, counters[0]) == Matches(hmac, secret, clean, counters[1]) == Ok(false);
    assert Matches(hmac, secret, clean, counters[2]) == Ok(false);
    return Ok(false);
  }

  lemma {:induction false} FixedDigitsAreDigits(n: nat, k: nat)
    ensures forall i :: 0 <= i < k ==> '0' <= FixedDigits(n, k)[i] <= '9'
  {
    if k > 0 {
      FixedDigitsAreDigits(n / 10, k - 1);
    }
  }

  /** Whatever the secret and the counter, a code is six digits. */
  lemma CodeIsSixDigits(hmac: Hmac, secret: string, counter: nat)
    requires IsSha1Hmac(hmac)
    ensures IsSixDigits(Code(hmac, secret, counter))
  {
    FixedDigitsAreDigits(Truncate(hmac(B.Decoded(secret), BigEndian(counter, 8))) % MODULUS, 6);
  }

  /** The code of the window with that counter, if it has one. */
  predicate IsCodeOf(hmac: Hmac, secret: string, clean: string, c: int)
    requires IsSha1Hmac(hmac)
  {
    0 <= c < LIMIT && clean == Code(hmac, secret, c)
  }

  lemma OneWindow(hmac: Hmac, secret: string, clean: string, c: int)
    requires IsSha1Hmac(hmac)
    ensures Matches(hmac, secret, clean, c) == Ok(true) <==> IsCodeOf(hmac, secret, clean, c)
    ensures Matches(hmac, secret, clean, c) == RangeError <==> !(0 <= c < LIMIT)
    ensures Matches(hmac, secret, clean, c) == Ok(false) <==> 0 <= c < LIMIT && !IsCodeOf(hmac, secret, clean, c)
    ensures IsCodeOf(hmac, secret, clean, c) ==> IsSixDigits(clean) && 0 <= c < LIMIT
  {
    hide Code, IsSixDigits;
    if 0 <= c < LIMIT {
      CodeIsSixDigits(hmac, secret, c);
    }
  }

  /** For every code as typed and every time: accepted are exactly the codes of the window of the time,
      of the one before and of the one after, except that the first window of all does not look at
      the one after. What looks like a code and is not accepted is an exception, instead of a
      refusal, exactly in the first and the last window and outside of the 32-bit counter. */
  lemma AcceptedCodes(hmac: Hmac, secret: string, code: string, window: nat, timeMs: int)
    requires IsSha1Hmac(hmac) && window > 0
    ensures var c, clean := Counter(timeMs, window), WithoutSpace(code);
            var a := Answer(hmac, secret, code, window, timeMs);
            && (a == Ok(true) <==>
                  0 <= c < 0x1_0000_0000
                  && (|| IsCodeOf(hmac, secret, clean, c)
                      || IsCodeOf(hmac, secret, clean, c - 1)
                      || (c > 0 && IsCodeOf(hmac, secret, clean, c + 1))))
            && (a == RangeError <==>
                  |clean| == 6 && (forall i :: 0 <= i < 6 ==> '0' <= clean[i] <= '9')
                  && a != Ok(true) && !(1 <= c < 0x1_0000_0000 - 1))
  {
    hide Code, Counter, WithoutSpace, IsCodeOf, Matches;
    var c, clean := Counter(timeMs, window), WithoutSpace(code);
    OneWindow(hmac, secret, clean, c);
    OneWindow(hmac, secret, clean, c - 1);
    OneWindow(hmac, secret, clean, c + 1);
  }

  // ----- A code, in numbers -------------------------------------------------------------------

  /** Read as a number, the last k digits of n are n modulo ten to the power k. */
  lemma {:induction false} FixedDigitsValue(n: nat, k: nat)
    ensures ReadDigits(FixedDigits(n, k)) == n % Pow10(k)
  {
    if k > 0 {
      FixedDigitsValue(n / 10, k - 1);
      var front := FixedDigits(n / 10, k - 1);
      assert FixedDigits(n, k)[..k - 1] == front;
      assert ReadDigits(FixedDigits(n, k)) == 10 * ReadDigits(front) + n % 10;
      ModuloByTens(n, Pow10(k - 1));
    }
  }

  function ReadDigits(s: string): int {
    if s == "" then 0 else 10 * ReadDigits(s[..|s| - 1]) + (s[|s| - 1] as int - '0' as int)
  }

  lemma ModuloByTens(n: nat, p: nat)
    requires p > 0
    ensures 10 * (n / 10 % p) + n % 10 == n % (10 * p)
  {
    var q, r := n / 10 / p, n / 10 % p;
    assert n / 10 == p * q + r;
    assert n == 10 * (n / 10) + n % 10;
    assert n == (10 * p) * q + (10 * r + n % 10);
    Remainder(n, 10 * p, q, 10 * r + n % 10);
  }

  lemma Remainder(x: nat, d: nat, q: nat, r: nat)
    requires d > 0 && x == d * q + r && r < d
    ensures x % d == r
  {
    Quotient(x, d, q, r);
    assert x == d * (x / d) + x % d;
  }

  /** The code of a counter is six digits, and as a number the low 31 bits, modulo a million, of four
      bytes of the HMAC of the counter in eight bytes, from the place that its last four bits give. */
  lemma CodeMeans(hmac: Hmac, secret: string, c: nat)
    requires IsSha1Hmac(hmac) && c < LIMIT
    ensures var h := hmac(B.Decoded(secret),
                          [0, 0, 0, 0, c / 0x100_0000, c / 0x1_0000 % 256, c / 0x100 % 256, c % 256]);
            var o := h[19] % 16;
            && |Code(hmac, secret, c)| == 6 && (forall i :: 0 <= i < 6 ==> '0' <= Code(hmac, secret, c)[i] <= '9')
            && ReadDigits(Code(hmac, secret, c))
               == ((h[o] % 128) * 0x100_0000 + h[o + 1] * 0x1_0000 + h[o + 2] * 0x100 + h[o + 3]) % 1_000_000
  {
    hide BigEndian, Truncate, FixedDigits, ReadDigits, B.Decoded;
    CounterBytes(c);
    var h := hmac(B.Decoded(secret), BigEndian(c, 8));
    TruncateIs(h);
    CodeIsSixDigits(hmac, secret, c);
    FixedDigitsValue(Truncate(h) % MODULUS, 6);
    PowerOfSix();
    assert Truncate(h) % MODULUS % MODULUS == Truncate(h) % MODULUS;
  }
}
