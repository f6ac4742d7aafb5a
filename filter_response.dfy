/**
 * The two conversion helpers of the filter-response plots: ADC codes to volts in
 * the two interpretations of the ADS1263's 32-bit code, and the parser that reads
 * the FREQUENCY column's text back as MHz. Floats are exact reals here.
 */
module FilterResponse {
  import opened Wrappers
  import opened CText

  datatype PyError = ValueError

  const Two31: int := 0x8000_0000
  const Two32: int := 0x1_0000_0000
  const Two64: int := 0x1_0000_0000_0000_0000

  /** The keyword defaults of adc_counts_to_voltage. */
  const DefaultRef: real := 3.27
  const DefaultDenomPos: real := 2147483647.8
  const DefaultDenomNeg: real := 2147483648.0

  // ---------------------------------------------------------------- signed_bipolar

  /** `((cs + (1<<31)) % (1<<32)) - (1<<31)`, Python's `%` with a positive divisor. */
  function SignedBipolar(c: int): int
  {
    (c + Two31) % Two32 - Two31
  }

  /** The result is a 32-bit two's-complement value congruent to the code. */
  lemma SignedBipolarRange(c: int)
    ensures -Two31 <= SignedBipolar(c) < Two31
    ensures (SignedBipolar(c) - c) % Two32 == 0
  {
    var q := (c + Two31) / Two32;
    assert SignedBipolar(c) - c == Two32 * (0 - q);
  }

  /** It is the only such value. */
  lemma SignedBipolarUnique(c: int, x: int)
    requires -Two31 <= x < Two31 && (x - c) % Two32 == 0
    ensures SignedBipolar(c) == x
  {
    var y := SignedBipolar(c);
    SignedBipolarRange(c);
    var p := (y - c) / Two32;
    var q := (x - c) / Two32;
    assert y - c == Two32 * p;
    assert x - c == Two32 * q;
    assert y - x == Two32 * (p - q);
    assert -Two32 < Two32 * (p - q) < Two32;
  }

  /**
   * Codes already signed are left alone (the "no-op" case); codes stored as
   * unsigned 32-bit values at or above 2^31 become negative.
   */
  lemma SignedBipolarCases(c: int)
    ensures -Two31 <= c < Two31 ==> SignedBipolar(c) == c
    ensures Two31 <= c < Two32 ==> SignedBipolar(c) == c - Two32
  {
    if -Two31 <= c < Two31 {
      SignedBipolarUnique(c, c);
    }
    if Two31 <= c < Two32 {
      assert (c - Two32 - c) % Two32 == 0;
      SignedBipolarUnique(c, c - Two32);
    }
  }

  /** `(cs / float((1<<31) - 1)) * ref` */
  function SignedVolt(c: int, ref: real): real
  {
    (SignedBipolar(c) as real / (Two31 - 1) as real) * ref
  }

  /** Full scale maps to the reference voltage, either sign, and zero to zero. */
  lemma SignedVoltScale(ref: real)
    ensures SignedVolt(Two31 - 1, ref) == ref
    ensures SignedVolt(-(Two31 - 1), ref) == -ref
    ensures SignedVolt(0, ref) == 0.0
  {
    SignedBipolarCases(Two31 - 1);
    SignedBipolarCases(-(Two31 - 1));
    SignedBipolarCases(0);
  }

  // ---------------------------------------------------------------- c_like

  /** `c.astype(np.uint64)` of an integer code: wrap-around modulo 2^64. */
  function AsUint64(c: int): int
  {
    c % Two64
  }

  /** `((cu >> 31) & 0x1) == 1` */
  predicate Msb(cu: int)
  {
    (cu / Two31) % 2 == 1
  }

  /** The value c_like gives one code: the masked branch its bit 31 selects. */
  function CLikeVolt(c: int, ref: real, denomPos: real, denomNeg: real): real
    requires denomPos != 0.0 && denomNeg != 0.0
  {
    var cu := AsUint64(c);
    if Msb(cu) then ref * 2.0 - (cu as real / denomNeg) * ref else (cu as real / denomPos) * ref
  }

  /**
   * On 32-bit codes, signed or unsigned, the negative branch is taken exactly for
   * the codes whose two's-complement reading is negative.
   */
  lemma CLikeBranch(c: int)
    requires -Two31 <= c < Two32
    ensures Msb(AsUint64(c)) <==> c < 0 || Two31 <= c
  {
    if c < 0 {
      assert AsUint64(c) == c + Two64;
      assert (c + Two64) / Two31 == 2 * Two32 - 1;
    } else {
      assert AsUint64(c) == c;
      if c < Two31 {
        assert c / Two31 == 0;
      } else {
        assert c / Two31 == 1;
      }
    }
  }

  lemma ScaledUnit(a: real, ref: real)
    requires 0.0 <= a <= 1.0 && 0.0 <= ref
    ensures 0.0 <= a * ref <= ref
  {
    assert (1.0 - a) * ref >= 0.0;
  }

  /**
   * With the default denominators, every unsigned 32-bit code maps into [0, ref]:
   * the "~0..ref V" of the docstring.
   */
  lemma CLikeDefaultRange(c: int, ref: real)
    requires 0 <= c < Two32 && 0.0 <= ref
    ensures 0.0 <= CLikeVolt(c, ref, DefaultDenomPos, DefaultDenomNeg) <= ref
  {
    var cu := AsUint64(c);
    assert cu == c;
    CLikeBranch(c);
    if Msb(cu) {
      var x := cu as real / DefaultDenomNeg;
      assert 1.0 <= x < 2.0;
      assert ref * 2.0 - x * ref == (2.0 - x) * ref;
      ScaledUnit(2.0 - x, ref);
      assert CLikeVolt(c, ref, DefaultDenomPos, DefaultDenomNeg) == ref * 2.0 - x * ref;
      assert 0.0 <= (2.0 - x) * ref <= ref;
    } else {
      assert cu < Two31;
      var x := cu as real / DefaultDenomPos;
      assert cu as real <= 2147483647.0;
      assert 0.0 <= x < 1.0;
      ScaledUnit(x, ref);
      assert CLikeVolt(c, ref, DefaultDenomPos, DefaultDenomNeg) == x * ref;
    }
  }

  /**
   * A negative code is seen through its 64-bit wrap-around, not its 32-bit one,
   * so with the defaults it lands far below -ref.
   */
  lemma CLikeNegativeCodes(c: int, ref: real)
    requires -Two31 <= c < 0 && 0.0 < ref
    ensures CLikeVolt(c, ref, DefaultDenomPos, DefaultDenomNeg) < -ref
  {
    var cu := AsUint64(c);
    assert cu == c + Two64;
    CLikeBranch(c);
    var x := cu as real / DefaultDenomNeg;
    assert x >= 3.0;
    assert ref * 2.0 - x * ref == (2.0 - x) * ref;
    assert (x - 3.0) * ref >= 0.0;
  }

  /**
   * The c_like path: `V = np.empty_like(c)`, then the negative-branch entries and
   * the positive-branch entries are filled through the two masks.
   */
  method CLikeVolts(counts: seq<int>, ref: real, denomPos: real, denomNeg: real) returns (v: array<real>)
    requires denomPos != 0.0 && denomNeg != 0.0
    ensures fresh(v) && v.Length == |counts|
    ensures forall k :: 0 <= k < |counts| ==> v[k] == CLikeVolt(counts[k], ref, denomPos, denomNeg)
  {
    var cu := seq(|counts|, k requires 0 <= k < |counts| => AsUint64(counts[k]));
    var neg := seq(|counts|, k requires 0 <= k < |counts| => Msb(cu[k]));
    v := new real[|counts|];
    for k := 0 to |counts|
      invariant forall j :: 0 <= j < k && neg[j] ==> v[j] == CLikeVolt(counts[j], ref, denomPos, denomNeg)
    {
      if neg[k] {
        v[k] := ref * 2.0 - (cu[k] as real / denomNeg) * ref;
      }
    }
    for k := 0 to |counts|
      invariant forall j :: 0 <= j < |counts| && neg[j] ==> v[j] == CLikeVolt(counts[j], ref, denomPos, denomNeg)
      invariant forall j :: 0 <= j < k ==> v[j] == CLikeVolt(counts[j], ref, denomPos, denomNeg)
    {
      if !neg[k] {
        v[k] := (cu[k] as real / denomPos) * ref;
      }
    }
  }

  /**
   * adc_counts_to_voltage: the mode picks the interpretation; any other mode is a
   * ValueError. The denominators matter, and must be non-zero, only for c_like.
   */
  method AdcCountsToVoltage(counts: seq<int>, ref: real, mode: seq<char>, denomPos: real, denomNeg: real)
    returns (r: Result<seq<real>, PyError>)
    requires mode == "c_like" ==> denomPos != 0.0 && denomNeg != 0.0
    ensures r.Err? <==> mode != "c_like" && mode != "signed_bipolar"
    ensures r.Err? ==> r.error == ValueError
    ensures r.Ok? ==> |r.value| == |counts|
    ensures mode == "c_like" ==>
      forall k :: 0 <= k < |counts| ==> r.value[k] == CLikeVolt(counts[k], ref, denomPos, denomNeg)
    ensures mode == "signed_bipolar" ==>
      forall k :: 0 <= k < |counts| ==> r.value[k] == SignedVolt(counts[k], ref)
  {
    if mode == "c_like" {
      var v := CLikeVolts(counts, ref, denomPos, denomNeg);
      r := Ok(v[..]);
    } else if mode == "signed_bipolar" {
      r := Ok(seq(|counts|, k requires 0 <= k < |counts| => SignedVolt(counts[k], ref)));
    } else {
      r := Err(ValueError);
    }
  }

  // ---------------------------------------------------------------- _parse_freq_mhz

  /** `np.nan` or a float in MHz. */
  datatype Mhz = NaN | Mhz(value: real)

  /** The ASCII characters `str.strip()` removes: \t \n \v \f \r, \x1c-\x1f and space. */
  predicate IsWhitespace(c: char)
  {
    c == ' ' || (9 as char <= c <= 13 as char) || (28 as char <= c <= 31 as char)
  }

  function StripLeft(s: seq<char>): (r: seq<char>)
    ensures |r| <= |s| && r == s[|s| - |r|..]
    ensures r == [] || !IsWhitespace(r[0])
  {
    if s != [] && IsWhitespace(s[0]) then StripLeft(s[1..]) else s
  }

  /** What StripLeft drops is all white space. */
  lemma {:induction false} StripLeftDrops(s: seq<char>)
    ensures forall j :: 0 <= j < |s| - |StripLeft(s)| ==> IsWhitespace(s[j])
  {
    if s != [] && IsWhitespace(s[0]) {
      StripLeftDrops(s[1..]);
      assert forall j :: 1 <= j < |s| ==> s[j] == s[1..][j - 1];
    }
  }

  function StripRight(s: seq<char>): (r: seq<char>)
    ensures |r| <= |s| && r == s[..|r|]
    ensures r == [] || !IsWhitespace(r[|r| - 1])
  {
    if s != [] && IsWhitespace(s[|s| - 1]) then StripRight(s[..|s| - 1]) else s
  }

  /** What StripRight drops is all white space. */
  lemma {:induction false} StripRightDrops(s: seq<char>)
    ensures forall j :: |StripRight(s)| <= j < |s| ==> IsWhitespace(s[j])
  {
    if s != [] && IsWhitespace(s[|s| - 1]) {
      StripRightDrops(s[..|s| - 1]);
    }
  }

  function Strip(s: seq<char>): seq<char>
  {
    StripRight(StripLeft(s))
  }

  predicate HasDigit(s: seq<char>)
  {
    exists j :: 0 <= j < |s| && IsDigit(s[j])
  }

  /** Stripping removes only white space, so it keeps every digit. */
  lemma StripDigits(s: seq<char>)
    ensures HasDigit(Strip(s)) <==> HasDigit(s)
  {
    StripLeftDigits(s);
    StripRightDigits(StripLeft(s));
  }

  lemma {:induction false} StripLeftDigits(s: seq<char>)
    ensures HasDigit(StripLeft(s)) <==> HasDigit(s)
  {
    if s != [] && IsWhitespace(s[0]) {
      StripLeftDigits(s[1..]);
      HasDigitTail(s);
    }
  }

  /** A text that does not start with a digit has one exactly when its tail has. */
  lemma HasDigitTail(s: seq<char>)
    requires s != [] && !IsDigit(s[0])
    ensures HasDigit(s) <==> HasDigit(s[1..])
  {
    if HasDigit(s) {
      var j :| 0 <= j < |s| && IsDigit(s[j]);
      assert s[1..][j - 1] == s[j];
    }
    if HasDigit(s[1..]) {
      var j :| 0 <= j < |s| - 1 && IsDigit(s[1..][j]);
      assert s[j + 1] == s[1..][j];
    }
  }

  lemma StripRightDigits(s: seq<char>)
    ensures HasDigit(StripRight(s)) <==> HasDigit(s)
  {
    var u := StripRight(s);
    StripRightDrops(s);
    if HasDigit(s) {
      var j :| 0 <= j < |s| && IsDigit(s[j]);
      assert j < |u|;
      assert u[j] == s[j];
    }
    if HasDigit(u) {
      var j :| 0 <= j < |u| && IsDigit(u[j]);
      assert u[j] == s[j];
    }
  }

  predicate IsSign(c: char)
  {
    c == '+' || c == '-'
  }

  /** `[-+]?\d+` can match at i: a digit, or a sign then a digit. */
  predicate StartsNumber(s: seq<char>, i: nat)
  {
    i < |s| && (IsDigit(s[i]) || (IsSign(s[i]) && i + 1 < |s| && IsDigit(s[i + 1])))
  }

  /** `re.search` from i: the leftmost position where a match begins. */
  function FirstMatch(s: seq<char>, i: nat): (r: Option<nat>)
    requires i <= |s|
    decreases |s| - i
    ensures r.Some? ==> i <= r.value < |s| && StartsNumber(s, r.value)
  {
    if i == |s| then None else if StartsNumber(s, i) then Some(i) else FirstMatch(s, i + 1)
  }

  /** The search finds the leftmost start, and fails only when there is none. */
  lemma {:induction false} FirstMatchLeftmost(s: seq<char>, i: nat)
    requires i <= |s|
    decreases |s| - i
    ensures FirstMatch(s, i).Some? ==> forall j :: i <= j < FirstMatch(s, i).value ==> !StartsNumber(s, j)
    ensures FirstMatch(s, i).None? ==> forall j :: i <= j < |s| ==> !StartsNumber(s, j)
  {
    if i < |s| && !StartsNumber(s, i) {
      FirstMatchLeftmost(s, i + 1);
    }
  }

  /** The end of the greedy run of digits from i. */
  function DigitsEnd(s: seq<char>, i: nat): (e: nat)
    requires i <= |s|
    decreases |s| - i
    ensures i <= e <= |s|
    ensures e == |s| || !IsDigit(s[e])
  {
    if i < |s| && IsDigit(s[i]) then DigitsEnd(s, i + 1) else i
  }

  /** Everything the run covers is a digit. */
  lemma {:induction false} DigitsEndRun(s: seq<char>, i: nat)
    requires i <= |s|
    decreases |s| - i
    ensures forall j :: i <= j < DigitsEnd(s, i) ==> IsDigit(s[j])
  {
    if i < |s| && IsDigit(s[i]) {
      DigitsEndRun(s, i + 1);
    }
  }

  /** The run of digits from i ends exactly where the digits stop. */
  lemma {:induction false} DigitsEndAt(s: seq<char>, i: nat, e: nat)
    requires i <= e <= |s| && (forall j :: i <= j < e ==> IsDigit(s[j])) && (e == |s| || !IsDigit(s[e]))
    ensures DigitsEnd(s, i) == e
    decreases e - i
  {
    if i < e {
      DigitsEndAt(s, i + 1, e);
    }
  }

  /** The parts of a match of `[-+]?\d+(?:\.\d+)?(?:[eE][-+]?\d+)?`. */
  datatype Numeral = Numeral(negative: bool, whole: seq<char>, fraction: seq<char>,
                             expNegative: bool, exponent: seq<char>)
  {
    predicate Valid() { AllDigits(whole) && AllDigits(fraction) && AllDigits(exponent) }
  }

  /** After the whole part ending at we: the end of `(?:\.\d+)?`, or we when it is absent. */
  function FractionEnd(s: seq<char>, we: nat): (fe: nat)
    requires we <= |s|
    ensures we <= fe <= |s|
    ensures fe != we ==> we + 1 < fe && s[we] == '.' && fe == DigitsEnd(s, we + 1)
  {
    if we + 1 < |s| && s[we] == '.' && IsDigit(s[we + 1]) then DigitsEnd(s, we + 1) else we
  }

  /**
   * Where the digits of `(?:[eE][-+]?\d+)?` start after fe: fe + 1 after a bare
   * `e`, fe + 2 after `e` and a sign, fe itself when there is no exponent.
   */
  function ExponentStart(s: seq<char>, fe: nat): (es: nat)
    requires fe <= |s|
    ensures fe <= es <= |s| && (es == fe || es == fe + 1 || es == fe + 2)
  {
    if fe < |s| && (s[fe] == 'e' || s[fe] == 'E') then
      if fe + 1 < |s| && IsDigit(s[fe + 1]) then fe + 1
      else if fe + 2 < |s| && IsSign(s[fe + 1]) && IsDigit(s[fe + 2]) then fe + 2
      else fe
    else fe
  }

  lemma SliceDigits(s: seq<char>, a: nat, b: nat)
    requires a <= b <= |s| && forall j :: a <= j < b ==> IsDigit(s[j])
    ensures AllDigits(s[a..b])
  {
  }

  /** The greedy match that begins at i. */
  function NumeralAt(s: seq<char>, i: nat): (n: Numeral)
    requires StartsNumber(s, i)
    ensures n.Valid() && n.whole != []
  {
    var signed := !IsDigit(s[i]);
    var ws := if signed then i + 1 else i;
    var we := DigitsEnd(s, ws);
    var fe := FractionEnd(s, we);
    var es := ExponentStart(s, fe);
    var ee := if es == fe then fe else DigitsEnd(s, es);
    DigitsEndRun(s, ws);
    SliceDigits(s, ws, we);
    DigitsEndRun(s, if fe == we then we else we + 1);
    SliceDigits(s, if fe == we then we else we + 1, fe);
    DigitsEndRun(s, es);
    SliceDigits(s, es, ee);
    Numeral(signed && s[i] == '-', s[ws..we], if fe == we then [] else s[we + 1..fe],
            es == fe + 2 && s[fe + 1] == '-', s[es..ee])
  }

  function RealPow10(e: int): real
  {
    if e >= 0 then Pow10(e) as real else 1.0 / Pow10(-e) as real
  }

  /** `float` of the matched text, exactly. */
  function NumeralValue(n: Numeral): real
    requires n.Valid()
  {
    var m := DigitsValue(n.whole) as real + DigitsValue(n.fraction) as real / Pow10(|n.fraction|) as real;
    var e := if n.expNegative then 0 - DigitsValue(n.exponent) else DigitsValue(n.exponent);
    (if n.negative then -m else m) * RealPow10(e)
  }

  function Lower(c: char): char
  {
    if 'A' <= c <= 'Z' then (c as int + 32) as char else c
  }

  /** `str.lower()` on ASCII letters. */
  function LowerAscii(s: seq<char>): seq<char>
  {
    seq(|s|, j requires 0 <= j < |s| => Lower(s[j]))
  }

  /** Python's `t in s` on strings. */
  predicate Contains(s: seq<char>, t: seq<char>)
    decreases |s|
  {
    StartsWith(s, t) || (s != [] && Contains(s[1..], t))
  }

  /** t is a prefix of s, compared a character at a time. */
  predicate StartsWith(s: seq<char>, t: seq<char>)
    decreases |t|
  {
    t == [] || (s != [] && s[0] == t[0] && StartsWith(s[1..], t[1..]))
  }

  lemma {:induction false} StartsWithSelf(a: seq<char>, t: seq<char>)
    ensures StartsWith(t + a, t)
    decreases |t|
  {
    if t != [] {
      assert (t + a)[1..] == t[1..] + a;
      StartsWithSelf(a, t[1..]);
    }
  }

  /** The first number in the text, as `float(m.group(1))`; None when the search fails. */
  function Number(s: seq<char>): Option<real>
  {
    var m := FirstMatch(s, 0);
    if m.None? then None else Some(NumeralValue(NumeralAt(s, m.value)))
  }

  /** The unit tests in their order: ghz, mhz, khz, hz, else MHz is assumed. */
  function ScaleToMhz(low: seq<char>, value: real): real
  {
    if Contains(low, "ghz") then value * 1000.0
    else if Contains(low, "mhz") then value
    else if Contains(low, "khz") then value / 1000.0
    else if Contains(low, "hz") then value / 1000000.0
    else value
  }

  /** _parse_freq_mhz: strip, find the first number, then scale by the first unit found. */
  function ParseFreqMhz(v: Option<seq<char>>): Mhz
  {
    if v.None? then NaN
    else
      var s := Strip(v.value);
      var n := Number(s);
      if n.None? then NaN else Mhz(ScaleToMhz(LowerAscii(s), n.value))
  }

  /** The search fails exactly when the text has no digit. */
  lemma NumberNone(s: seq<char>)
    ensures Number(s).None? <==> !HasDigit(s)
  {
    FirstMatchLeftmost(s, 0);
    if HasDigit(s) {
      var j :| 0 <= j < |s| && IsDigit(s[j]);
      assert StartsNumber(s, j);
    }
  }

  /** NaN exactly for None and for text without a digit. */
  lemma ParseNaN(v: Option<seq<char>>)
    ensures ParseFreqMhz(v) == NaN <==> v.None? || !HasDigit(v.value)
  {
    if v.Some? {
      StripDigits(v.value);
      NumberNone(Strip(v.value));
    }
  }

  lemma {:induction false} ContainsSuffix(a: seq<char>, t: seq<char>)
    ensures Contains(a + t, t)
    decreases |a|
  {
    if a != [] {
      assert (a + t)[1..] == a[1..] + t;
      ContainsSuffix(a[1..], t);
    } else {
      StartsWithSelf([], t);
      assert t + [] == t && a + t == t;
    }
  }

  /** A string contains t only if it contains t's first character. */
  lemma {:induction false} ContainsHead(s: seq<char>, t: seq<char>)
    requires t != [] && Contains(s, t)
    ensures t[0] in s
    decreases |s|
  {
    if !StartsWith(s, t) {
      ContainsHead(s[1..], t);
      assert t[0] in s[1..];
    } else {
      assert s[0] == t[0];
    }
  }

  /** Digits, the point and white space are unchanged by lower-casing. */
  lemma LowerDigits(d: seq<char>)
    requires AllDigits(d)
    ensures LowerAscii(d) == d
  {
    forall j | 0 <= j < |d| ensures LowerAscii(d)[j] == d[j] {
      assert IsDigit(d[j]);
    }
  }

  lemma LowerAppend(a: seq<char>, b: seq<char>)
    ensures LowerAscii(a + b) == LowerAscii(a) + LowerAscii(b)
  {
  }

  /** Text that starts and ends with something other than white space is kept whole. */
  lemma StripPlain(s: seq<char>)
    requires s != [] && !IsWhitespace(s[0]) && !IsWhitespace(s[|s| - 1])
    ensures Strip(s) == s
  {
    assert StripLeft(s) == s;
  }

  /** A digit run at the start, followed by neither a point nor an exponent. */
  lemma NumberOfWhole(s: seq<char>, e: nat)
    requires 0 < e <= |s| && forall j :: 0 <= j < e ==> IsDigit(s[j])
    requires e < |s| ==> !IsDigit(s[e]) && s[e] != '.' && s[e] != 'e' && s[e] != 'E'
    ensures AllDigits(s[..e]) && Number(s) == Some(DigitsValue(s[..e]) as real)
  {
    assert StartsNumber(s, 0) && IsDigit(s[0]);
    DigitsEndAt(s, 0, e);
    assert FractionEnd(s, e) == e;
    assert ExponentStart(s, e) == e;
    assert NumeralAt(s, 0) == Numeral(false, s[..e], [], false, []);
  }

  /** A numeral with neither sign nor exponent is worth its digits, the fraction scaled down. */
  lemma PlainValue(w: seq<char>, f: seq<char>)
    requires AllDigits(w) && AllDigits(f)
    ensures NumeralValue(Numeral(false, w, f, false, [])) == DigitsValue(w) as real + DigitsValue(f) as real / Pow10(|f|) as real
  {
    assert RealPow10(0) == 1.0;
  }

  /** Where the match at 0 has a whole part ending at e and a fraction ending the text. */
  lemma FixedNumeral(s: seq<char>, e: nat)
    requires 0 < e && e + 1 < |s| && s[e] == '.'
    requires forall j :: 0 <= j < |s| && j != e ==> IsDigit(s[j])
    ensures StartsNumber(s, 0) && NumeralAt(s, 0) == Numeral(false, s[..e], s[e + 1..], false, [])
  {
    assert IsDigit(s[0]);
    DigitsEndAt(s, 0, e);
    DigitsEndAt(s, e + 1, |s|);
    assert FractionEnd(s, e) == |s|;
    assert ExponentStart(s, |s|) == |s|;
  }

  /** A digit run, a point and a second digit run ending the text. */
  lemma NumberOfFixed(s: seq<char>, e: nat)
    requires 0 < e && e + 1 < |s| && s[e] == '.'
    requires forall j :: 0 <= j < |s| && j != e ==> IsDigit(s[j])
    ensures AllDigits(s[..e]) && AllDigits(s[e + 1..])
    ensures Number(s) == Some(NumeralValue(Numeral(false, s[..e], s[e + 1..], false, [])))
  {
    FixedNumeral(s, e);
    assert FirstMatch(s, 0) == Some(0);
  }

  /** Digits before the text change no unit test, as no unit word starts with a digit. */
  lemma {:induction false} ContainsAfterDigits(d: seq<char>, l: seq<char>, t: seq<char>)
    requires AllDigits(d) && t != [] && !IsDigit(t[0])
    ensures Contains(d + l, t) == Contains(l, t)
    decreases |d|
  {
    if d == [] {
      assert d + l == l;
    } else {
      assert (d + l)[0] == d[0];
      assert (d + l)[1..] == d[1..] + l;
      ContainsAfterDigits(d[1..], l, t);
    }
  }

  lemma ScaleAfterDigits(d: seq<char>, l: seq<char>, x: real)
    requires AllDigits(d)
    ensures ScaleToMhz(d + l, x) == ScaleToMhz(l, x)
  {
    ContainsAfterDigits(d, l, "ghz");
    ContainsAfterDigits(d, l, "mhz");
    ContainsAfterDigits(d, l, "khz");
    ContainsAfterDigits(d, l, "hz");
  }

  /** " ghz" multiplies by a thousand. */
  lemma WrittenGHz(low: seq<char>, x: real)
    requires low == " ghz"
    ensures Contains(low, "ghz")
    ensures ScaleToMhz(low, x) == x * 1000.0
  {
    ContainsSuffix(" ", "ghz");
  }

  /** " mhz" keeps the value. */
  lemma WrittenMHz(low: seq<char>, x: real)
    requires low == " mhz"
    ensures !Contains(low, "ghz") && Contains(low, "mhz") && Contains(low, "hz")
    ensures ScaleToMhz(low, x) == x
  {
    ContainsSuffix(" ", "mhz");
    ContainsSuffix(" m", "hz");
    Absent(" mhz", 'g');
  }

  /** " khz" divides by a thousand. */
  lemma WrittenKHz(low: seq<char>, x: real)
    requires low == " khz"
    ensures !Contains(low, "ghz") && !Contains(low, "mhz") && Contains(low, "khz")
    ensures ScaleToMhz(low, x) == x / 1000.0
  {
    ContainsSuffix(" ", "khz");
    Absent(" khz", 'g');
    Absent(" khz", 'm');
  }

  /** " hz" divides by a million. */
  lemma WrittenHz(low: seq<char>, x: real)
    requires low == " hz"
    ensures !Contains(low, "ghz") && !Contains(low, "mhz") && !Contains(low, "khz") && Contains(low, "hz")
    ensures ScaleToMhz(low, x) == x / 1000000.0
  {
    ContainsSuffix(" ", "hz");
    Absent(" hz", 'g');
    Absent(" hz", 'm');
    Absent(" hz", 'k');
  }

  /**
   * Digits, then a unit word that lower-cases to `low`: a space, a letter other
   * than `e`, and a letter last.
   */
  lemma DigitsThenUnit(d: seq<char>, u: seq<char>, low: seq<char>)
    requires d != [] && AllDigits(d) && LowerAscii(u) == low && |low| >= 2 && low[0] == ' '
    requires 'a' <= low[1] <= 'z' && low[1] != 'e' && 'a' <= low[|low| - 1] <= 'z'
    ensures ParseFreqMhz(Some(d + u)) == Mhz(ScaleToMhz(low, DigitsValue(d) as real))
  {
    assert Lower(u[0]) == ' ' && Lower(u[1]) == low[1] && Lower(u[|u| - 1]) == low[|low| - 1];
    var s := d + u;
    assert IsDigit(s[0]);
    assert s[|s| - 1] == u[|u| - 1];
    StripPlain(s);
    assert s[..|d|] == d;
    NumberOfWhole(s, |d|);
    LowerAppend(d, u);
    LowerDigits(d);
    ScaleAfterDigits(d, low, DigitsValue(d) as real);
  }

  /** A unit written "GHz", in any case, scales by a thousand. */
  lemma UnitGHz(d: seq<char>, u: seq<char>)
    requires d != [] && AllDigits(d) && LowerAscii(u) == " ghz"
    ensures ParseFreqMhz(Some(d + u)) == Mhz(DigitsValue(d) as real * 1000.0)
  {
    var low := LowerAscii(u);
    WrittenGHz(low, DigitsValue(d) as real);
    DigitsThenUnit(d, u, low);
  }

  /** "MHz", in any case, keeps the value: although it contains "hz", it is never read as Hz. */
  lemma UnitMHz(d: seq<char>, u: seq<char>)
    requires d != [] && AllDigits(d) && LowerAscii(u) == " mhz"
    ensures ParseFreqMhz(Some(d + u)) == Mhz(DigitsValue(d) as real)
  {
    var low := LowerAscii(u);
    WrittenMHz(low, DigitsValue(d) as real);
    DigitsThenUnit(d, u, low);
  }

  /** "kHz", in any case, divides by a thousand. */
  lemma UnitKHz(d: seq<char>, u: seq<char>)
    requires d != [] && AllDigits(d) && LowerAscii(u) == " khz"
    ensures ParseFreqMhz(Some(d + u)) == Mhz(DigitsValue(d) as real / 1000.0)
  {
    var low := LowerAscii(u);
    WrittenKHz(low, DigitsValue(d) as real);
    DigitsThenUnit(d, u, low);
  }

  /** "Hz", in any case, divides by a million. */
  lemma UnitHz(d: seq<char>, u: seq<char>)
    requires d != [] && AllDigits(d) && LowerAscii(u) == " hz"
    ensures ParseFreqMhz(Some(d + u)) == Mhz(DigitsValue(d) as real / 1000000.0)
  {
    var low := LowerAscii(u);
    WrittenHz(low, DigitsValue(d) as real);
    DigitsThenUnit(d, u, low);
  }

  /** Without the letter x, a string contains no substring that starts with x. */
  lemma Absent(s: seq<char>, x: char)
    requires x !in s
    ensures forall t :: t != [] && t[0] == x ==> !Contains(s, t)
  {
    forall t | t != [] && t[0] == x ensures !Contains(s, t) {
      if Contains(s, t) {
        ContainsHead(s, t);
      }
    }
  }

  lemma DigitsLack(d: seq<char>, x: char)
    requires AllDigits(d) && !IsDigit(x)
    ensures x !in d
  {
  }

  /**
   * The FREQUENCY text the C programs write (`%.1f` or `%f` of a whole number of
   * tenths of a MHz) parses back to that frequency in MHz.
   */
  lemma ParseTenths(t: nat, decimals: nat)
    requires decimals >= 1
    ensures ParseFreqMhz(Some(Tenths(t, decimals))) == Mhz(t as real / 10.0)
  {
    var s := Tenths(t, decimals);
    var e := TenthsNumber(t, decimals);
    StripPlain(s);
    NoUnit(s, e);
  }

  /** `%.Nf` of t / 10 is digits around one point: the whole part before it, the decimals after. */
  lemma TenthsShape(t: nat, decimals: nat) returns (e: nat)
    requires decimals >= 1
    ensures e < |Tenths(t, decimals)| - 1 && Tenths(t, decimals)[e] == '.'
    ensures forall j :: 0 <= j < |Tenths(t, decimals)| && j != e ==> IsDigit(Tenths(t, decimals)[j])
    ensures Tenths(t, decimals)[..e] == Decimal(t / 10)
    ensures Tenths(t, decimals)[e + 1..] == [Digit(t % 10)] + Zeros(decimals - 1)
  {
    var w := Decimal(t / 10);
    var f := [Digit(t % 10)] + Zeros(decimals - 1);
    var s := Tenths(t, decimals);
    e := |w|;
    assert s == w + "." + f;
    assert s[..e] == w && s[e + 1..] == f;
    forall j | 0 <= j < |s| && j != e ensures IsDigit(s[j]) {
      if j < e {
        assert s[j] == w[j];
      } else {
        assert s[j] == f[j - e - 1];
      }
    }
  }

  /** The number in `%.Nf` of t / 10, and where its point is. */
  lemma TenthsNumber(t: nat, decimals: nat) returns (e: nat)
    requires decimals >= 1
    ensures e < |Tenths(t, decimals)| && Tenths(t, decimals)[e] == '.'
    ensures forall j :: 0 <= j < |Tenths(t, decimals)| && j != e ==> IsDigit(Tenths(t, decimals)[j])
    ensures Number(Tenths(t, decimals)) == Some(t as real / 10.0)
  {
    var s := Tenths(t, decimals);
    e := TenthsShape(t, decimals);
    var w := s[..e];
    var f := s[e + 1..];
    NumberOfFixed(s, e);
    PlainValue(w, f);
    FixedValue(t / 10, t % 10, decimals);
  }

  /** Digits around one point: no unit word, so the value stays in MHz. */
  lemma NoUnit(s: seq<char>, e: nat)
    requires e < |s| && s[e] == '.' && forall j :: 0 <= j < |s| && j != e ==> IsDigit(s[j])
    ensures forall x: real :: ScaleToMhz(LowerAscii(s), x) == x
  {
    assert LowerAscii(s) == s;
    Absent(s, 'g');
    Absent(s, 'm');
    Absent(s, 'k');
    Absent(s, 'h');
  }
}
