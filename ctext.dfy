/**
 * C text semantics used by every program of the instrument: fixed-capacity `char[]`
 * fields, `strncpy`, `snprintf`, the decimal conversions `%d`, `%+d`, `%f`, `%.1f`,
 * and `atoi`. A `char[]` is a `seq<char>` of its full capacity; the string it holds
 * is the part before the first NUL.
 */
module CText {

  const NUL: char := 0 as char

  function Min(a: int, b: int): int { if a <= b then a else b }

  /** `n` NUL bytes. */
  function Nuls(n: nat): (r: seq<char>)
    ensures |r| == n && forall j :: 0 <= j < n ==> r[j] == NUL
  {
    seq(n, _ => NUL)
  }

  /** The C string held by a byte buffer: everything before its first NUL. */
  function CStr(s: seq<char>): (r: seq<char>)
    ensures r <= s
    ensures NUL !in r
    ensures |r| < |s| ==> s[|r|] == NUL
  {
    if s == [] then [] else if s[0] == NUL then [] else [s[0]] + CStr(s[1..])
  }

  /** A prefix that ends at a NUL, or the whole NUL-free buffer, is the C string. */
  lemma {:induction false} CStrUnique(s: seq<char>, p: seq<char>)
    requires p <= s && NUL !in p
    requires |p| < |s| ==> s[|p|] == NUL
    ensures CStr(s) == p
  {
    if s != [] && s[0] != NUL {
      assert p != [] && p[0] == s[0];
      CStrUnique(s[1..], p[1..]);
    }
  }

  /** `strncpy(dst, src, n)`: the first `n` bytes become src's string, then NUL. */
  function StrNCpy(dst: seq<char>, src: seq<char>, n: nat): seq<char>
    requires n <= |dst|
  {
    var c := CStr(src);
    seq(|dst|, j requires 0 <= j < |dst| => if j < n then (if j < |c| then c[j] else NUL) else dst[j])
  }

  /** A `char[size]` that holds `src` cut to at most `size - 1` characters, NUL-padded. */
  function Fixed(src: seq<char>, size: nat): seq<char>
    requires size >= 1
  {
    var k := Min(|CStr(src)|, size - 1);
    CStr(src)[..k] + Nuls(size - k)
  }

  /**
   * The idiom `strncpy(dst, src, n); dst[size - 1] = '\0';` with `n` equal to the
   * capacity or one less fills the whole buffer: the first `size - 1` characters of
   * src, then NUL to the end, whatever the buffer held before.
   */
  lemma StrNCpyTerminated(dst: seq<char>, src: seq<char>, n: nat)
    requires |dst| >= 1 && |dst| - 1 <= n <= |dst|
    ensures StrNCpy(dst, src, n)[|dst| - 1 := NUL] == Fixed(src, |dst|)
  {
    var r := StrNCpy(dst, src, n)[|dst| - 1 := NUL];
    var f := Fixed(src, |dst|);
    assert |r| == |f|;
    forall j | 0 <= j < |r| ensures r[j] == f[j] {
      var k := Min(|CStr(src)|, |dst| - 1);
      if j < k {
        assert f[j] == CStr(src)[j];
      } else {
        assert f[j] == Nuls(|dst| - k)[j - k];
      }
    }
  }

  /** What a fixed buffer holds as a string: src truncated to `size - 1` characters. */
  lemma CStrFixed(src: seq<char>, size: nat)
    requires size >= 1
    ensures CStr(Fixed(src, size)) == CStr(src)[..Min(|CStr(src)|, size - 1)]
    ensures |Fixed(src, size)| == size
  {
    var k := Min(|CStr(src)|, size - 1);
    var f := Fixed(src, size);
    assert f[..k] == CStr(src)[..k];
    assert f[k] == NUL;
    CStrUnique(f, CStr(src)[..k]);
  }

  /** A NUL-free text shorter than the buffer is kept whole. */
  lemma FixedText(t: seq<char>, size: nat)
    requires NUL !in t && |t| < size
    ensures CStr(Fixed(t, size)) == t
  {
    CStrUnique(t, t);
    CStrFixed(t, size);
  }

  /**
   * `snprintf(dst, n, "%s", text)` for a NUL-free text: min(|text|, n - 1) characters
   * and a NUL; the bytes after that NUL keep their old values.
   */
  function SnPrintf(dst: seq<char>, text: seq<char>, n: nat): seq<char>
    requires 1 <= n <= |dst|
  {
    var k := Min(|text|, n - 1);
    text[..k] + [NUL] + dst[k + 1..]
  }

  lemma CStrSnPrintf(dst: seq<char>, text: seq<char>, n: nat)
    requires 1 <= n <= |dst| && NUL !in text
    ensures CStr(SnPrintf(dst, text, n)) == text[..Min(|text|, n - 1)]
    ensures |SnPrintf(dst, text, n)| == |dst|
  {
    var k := Min(|text|, n - 1);
    var r := SnPrintf(dst, text, n);
    assert r[..k] == text[..k];
    assert r[k] == NUL;
    CStrUnique(r, text[..k]);
  }

  // ---------------------------------------------------------------- decimal text

  predicate IsDigit(c: char) { '0' <= c <= '9' }

  function Digit(d: nat): (c: char)
    requires d < 10
    ensures IsDigit(c) && c as int - '0' as int == d
  {
    ('0' as int + d) as char
  }

  predicate AllDigits(s: seq<char>) { forall j :: 0 <= j < |s| ==> IsDigit(s[j]) }

  /** `%d` of a non-negative value: its decimal digits, most significant first. */
  function Decimal(n: nat): (r: seq<char>)
    ensures |r| >= 1 && AllDigits(r)
    ensures r[0] == '0' ==> n == 0
  {
    if n < 10 then [Digit(n)] else Decimal(n / 10) + [Digit(n % 10)]
  }

  /** The value of a string of decimal digits. */
  function DigitsValue(s: seq<char>): nat
    requires AllDigits(s)
  {
    if s == [] then 0 else DigitsValue(s[..|s| - 1]) * 10 + (s[|s| - 1] as int - '0' as int)
  }

  lemma {:induction false} DecimalRoundTrip(n: nat)
    ensures DigitsValue(Decimal(n)) == n
  {
    if n >= 10 {
      var r := Decimal(n);
      assert r[..|r| - 1] == Decimal(n / 10);
      DecimalRoundTrip(n / 10);
    }
  }

  /** `%d` of any int. */
  function Signed(x: int): seq<char>
  {
    if x < 0 then "-" + Decimal(-x) else Decimal(x)
  }

  /** `%+d`: the sign is always written, "+0" for zero. */
  function PlusSigned(x: int): seq<char>
  {
    if x < 0 then "-" + Decimal(-x) else "+" + Decimal(x)
  }

  function Zeros(n: nat): (r: seq<char>)
    ensures |r| == n && AllDigits(r)
  {
    seq(n, _ => '0')
  }

  /**
   * `%.Nf` (N >= 1) of the exact value t / 10, for a frequency `t` kept in tenths of
   * a MHz: integer part, point, tenths digit, then N - 1 zeros. `%f` is N = 6.
   */
  function Tenths(t: nat, decimals: nat): seq<char>
    requires decimals >= 1
  {
    Decimal(t / 10) + "." + [Digit(t % 10)] + Zeros(decimals - 1)
  }

  /** Digits never contain a NUL. */
  lemma DigitsNoNul(s: seq<char>)
    requires AllDigits(s)
    ensures NUL !in s
  {
    forall j | 0 <= j < |s| ensures s[j] != NUL {
      assert IsDigit(s[j]);
    }
  }

  /** A value below 1000 has at most three digits. */
  lemma DecimalShort(n: nat)
    requires n < 1000
    ensures |Decimal(n)| <= 3
  {
    if n >= 10 {
      assert |Decimal(n)| == |Decimal(n / 10)| + 1;
      if n / 10 >= 10 {
        assert |Decimal(n / 10)| == |Decimal(n / 100)| + 1;
      }
    }
  }

  function Pow10(w: nat): (p: nat)
    ensures p >= 1
  {
    if w == 0 then 1 else 10 * Pow10(w - 1)
  }

  /** A value below 10^w (w >= 1) has at most w digits. */
  lemma {:induction false} DecimalWidth(n: nat, w: nat)
    requires w >= 1 && n < Pow10(w)
    ensures |Decimal(n)| <= w
  {
    if n >= 10 {
      assert Pow10(1) == 10;
      assert n / 10 < Pow10(w - 1);
      DecimalWidth(n / 10, w - 1);
    }
  }

  /** `%+d` of a 32-bit int takes at most 11 characters. */
  lemma PlusSignedWidth(x: int)
    requires -0x8000_0000 <= x < 0x8000_0000
    ensures |PlusSigned(x)| <= 11
  {
    var n: nat := if x < 0 then -x else x;
    assert Pow10(10) == 10_000_000_000 by {
      assert Pow10(2) == 100;
      assert Pow10(4) == 10 * (10 * Pow10(2));
      assert Pow10(6) == 10 * (10 * Pow10(4));
      assert Pow10(8) == 10 * (10 * Pow10(6));
      assert Pow10(10) == 10 * (10 * Pow10(8));
    }
    DecimalWidth(n, 10);
  }

  /**
   * The text `%.Nf` writes holds no NUL, and is as long as the integer part plus
   * the point plus N decimals.
   */
  lemma TenthsText(t: nat, decimals: nat)
    requires decimals >= 1
    ensures NUL !in Tenths(t, decimals)
    ensures |Tenths(t, decimals)| == |Decimal(t / 10)| + 1 + decimals
  {
    var s := Tenths(t, decimals);
    var i := |Decimal(t / 10)|;
    assert s == Decimal(t / 10) + ("." + [Digit(t % 10)] + Zeros(decimals - 1));
    forall j | 0 <= j < |s| ensures s[j] != NUL {
      if j < i {
        assert s[j] == Decimal(t / 10)[j];
        assert IsDigit(Decimal(t / 10)[j]);
      } else if j > i + 1 {
        assert s[j] == Zeros(decimals - 1)[j - i - 2];
      }
    }
  }

  lemma {:induction false} DigitsValueZeros(r: nat, k: nat)
    requires r < 10
    ensures DigitsValue([Digit(r)] + Zeros(k)) as real == r as real * Pow10(k) as real
  {
    if k > 0 {
      var s := [Digit(r)] + Zeros(k);
      assert s[..|s| - 1] == [Digit(r)] + Zeros(k - 1);
      DigitsValueZeros(r, k - 1);
      var p := Pow10(k - 1) as real;
      assert DigitsValue(s) as real == DigitsValue(s[..|s| - 1]) as real * 10.0;
      assert Pow10(k) as real == 10.0 * p;
      assert r as real * p * 10.0 == r as real * (10.0 * p);
    }
  }

  lemma Quotient(r: real, p: real, y: real, d: real)
    requires p > 0.0 && y == r * p && d == 10.0 * p
    ensures y / d == r / 10.0
  {
    assert y == (r / 10.0) * d;
  }

  /** The N decimals of `%.Nf`, a tenths digit and zeros, are worth that digit's tenths. */
  lemma DecimalsValue(r: nat, decimals: nat)
    requires r < 10 && decimals >= 1
    ensures DigitsValue([Digit(r)] + Zeros(decimals - 1)) as real / Pow10(decimals) as real == r as real / 10.0
  {
    var k := decimals - 1;
    DigitsValueZeros(r, k);
    assert Pow10(k + 1) == 10 * Pow10(k);
    Quotient(r as real, Pow10(k) as real, DigitsValue([Digit(r)] + Zeros(k)) as real, Pow10(decimals) as real);
  }

  /** `%.Nf` of q + r / 10 has exactly that value. */
  lemma FixedValue(q: nat, r: nat, decimals: nat)
    requires r < 10 && decimals >= 1
    ensures DigitsValue(Decimal(q)) as real
              + DigitsValue([Digit(r)] + Zeros(decimals - 1)) as real / Pow10(decimals) as real
            == (10 * q + r) as real / 10.0
  {
    DecimalRoundTrip(q);
    DecimalsValue(r, decimals);
  }

  /** `%d` and `%+d` write no NUL. */
  lemma SignedText(x: int)
    ensures NUL !in Signed(x) && NUL !in PlusSigned(x)
  {
    var n: nat := if x < 0 then -x else x;
    DigitsNoNul(Decimal(n));
    assert Signed(x) == Decimal(n) || Signed(x) == "-" + Decimal(n);
    assert PlusSigned(x) == "+" + Decimal(n) || PlusSigned(x) == "-" + Decimal(n);
  }

  // ---------------------------------------------------------------- atoi

  predicate IsSpace(c: char) { c == ' ' || c == '\t' || c == '\n' || c == '\r' || c == 11 as char || c == 12 as char }

  function SkipSpace(s: seq<char>): (r: seq<char>)
    ensures |r| <= |s| && r == s[|s| - |r|..]
    ensures r == [] || !IsSpace(r[0])
  {
    if s != [] && IsSpace(s[0]) then SkipSpace(s[1..]) else s
  }

  /** The longest prefix of decimal digits. */
  function LeadingDigits(s: seq<char>): (r: seq<char>)
    ensures r <= s && AllDigits(r)
    ensures |r| < |s| ==> !IsDigit(s[|r|])
  {
    if s != [] && IsDigit(s[0]) then [s[0]] + LeadingDigits(s[1..]) else []
  }

  /**
   * C `atoi`: leading white space, an optional sign, then as many digits as follow.
   * No digits gives 0. (Out-of-range input is undefined in C; the model is unbounded.)
   */
  function Atoi(s: seq<char>): int
  {
    var t := SkipSpace(s);
    if t != [] && t[0] == '-' then 0 - DigitsValue(LeadingDigits(t[1..])) as int
    else if t != [] && t[0] == '+' then DigitsValue(LeadingDigits(t[1..]))
    else DigitsValue(LeadingDigits(t))
  }

  lemma {:induction false} LeadingDigitsOfDigits(s: seq<char>)
    requires AllDigits(s)
    ensures LeadingDigits(s) == s
  {
    if s != [] { LeadingDigitsOfDigits(s[1..]); }
  }

  lemma AtoiOfDigits(d: seq<char>)
    requires d != [] && AllDigits(d)
    ensures Atoi(d) == DigitsValue(d)
  {
    assert IsDigit(d[0]);
    assert SkipSpace(d) == d;
    LeadingDigitsOfDigits(d);
  }

  lemma AtoiOfNegated(d: seq<char>)
    requires d != [] && AllDigits(d)
    ensures Atoi("-" + d) == 0 - DigitsValue(d) as int
  {
    var t := "-" + d;
    assert t[0] == '-' && t[1..] == d;
    assert SkipSpace(t) == t;
    LeadingDigitsOfDigits(d);
  }

  lemma AtoiOfPlus(d: seq<char>)
    requires d != [] && AllDigits(d)
    ensures Atoi("+" + d) == DigitsValue(d)
  {
    var t := "+" + d;
    assert t[0] == '+' && t[1..] == d;
    assert SkipSpace(t) == t;
    LeadingDigitsOfDigits(d);
  }

  /** `atoi` reads back what `%+d` writes. */
  lemma AtoiPlusSigned(x: int)
    ensures Atoi(PlusSigned(x)) == x
  {
    var n: nat := if x < 0 then -x else x;
    DecimalRoundTrip(n);
    if x < 0 { AtoiOfNegated(Decimal(n)); } else { AtoiOfPlus(Decimal(n)); }
  }

  /** `atoi` reads back what `%d` writes. */
  lemma AtoiSigned(x: int)
    ensures Atoi(Signed(x)) == x
  {
    var n: nat := if x < 0 then -x else x;
    DecimalRoundTrip(n);
    if x < 0 { AtoiOfNegated(Decimal(n)); } else { AtoiOfDigits(Decimal(n)); }
  }

  /** A text with no digit after its sign is read as 0 by `atoi`. */
  lemma AtoiNoDigits(s: seq<char>)
    requires forall j :: 0 <= j < |s| ==> !IsDigit(s[j])
    ensures Atoi(s) == 0
  {
    var t := SkipSpace(s);
    assert t == s[|s| - |t|..][..|t|];
    if t != [] && (t[0] == '-' || t[0] == '+') {
      assert LeadingDigits(t[1..]) == [] by {
        if |t| > 1 { assert t[1] == s[|s| - |t| + 1]; }
      }
    } else {
      assert LeadingDigits(t) == [] by {
        if t != [] { assert t[0] == s[|s| - |t|]; }
      }
    }
  }
}
