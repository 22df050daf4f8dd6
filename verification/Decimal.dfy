/**
 The micro-dollar codec. The adapter, the fee policy and the SDK each carry a copy;
 the last two are `FormatUsd` with no minimum number of fraction digits.
 */
module Decimal {
  import opened Wrappers
  import opened Text

  predicate IsDigit(c: char) { '0' <= c <= '9' }

  predicate AllDigits(s: string) {
    forall i :: 0 <= i < |s| ==> IsDigit(s[i])
  }

  function DigitChar(d: nat): (c: char)
    requires d < 10
    ensures IsDigit(c) && DigitValue(c) == d
  {
    ('0' as int + d) as char
  }

  function DigitValue(c: char): (d: nat)
    requires IsDigit(c)
    ensures d < 10
  {
    c as int - '0' as int
  }

  function Pow10(n: nat): (p: nat)
    ensures p > 0
  {
    if n == 0 then 1 else 10 * Pow10(n - 1)
  }

  /** The decimal numeral of `n`, without leading zeros. */
  function NatText(n: nat): (s: string)
    ensures AllDigits(s) && |s| > 0
    ensures s[0] == '0' ==> n == 0 && s == "0"
    ensures NatValue(s) == n
  {
    if n < 10 then [DigitChar(n)]
    else
      var s := NatText(n / 10) + [DigitChar(n % 10)];
      assert s[..|s| - 1] == NatText(n / 10);
      s
  }

  /** The number a string of digits denotes, leading zeros allowed. */
  function NatValue(s: string): nat
    requires AllDigits(s)
  {
    if s == [] then 0 else 10 * NatValue(s[..|s| - 1]) + DigitValue(s[|s| - 1])
  }

  function IntText(v: int): (s: string)
    ensures |s| > 0
    ensures v >= 0 ==> s == NatText(v)
    ensures v < 0 ==> s[0] == '-'
  {
    if v < 0 then "-" + NatText(-v) else NatText(v)
  }

  /** BigInt division drops the fraction, rounding toward zero. */
  function TruncDiv(a: int, b: int): (q: int)
    requires b > 0
    ensures a >= 0 ==> q == a / b
  {
    if a >= 0 then a / b else -((-a) / b)
  }

  function DropTrailingZeros(s: string): (r: string)
    ensures |r| <= |s| && r == s[..|r|]
    ensures r == [] || r[|r| - 1] != '0'
    ensures forall i :: |r| <= i < |s| ==> s[i] == '0'
  {
    if s != [] && s[|s| - 1] == '0' then DropTrailingZeros(s[..|s| - 1]) else s
  }

  function FormatUsd(v: int, minFractionDigits: nat): string {
    var whole := TruncDiv(v, 1_000_000);
    var fraction := v - whole * 1_000_000;
    if fraction == 0 && minFractionDigits == 0 then IntText(whole)
    else IntText(whole) + "." + FractionText(fraction, minFractionDigits)
  }

  /** Six digits, trailing zeros dropped, then padded back to the minimum asked for. */
  function FractionText(fraction: int, minFractionDigits: nat): string {
    PadEnd(DropTrailingZeros(PadStart(IntText(fraction), 6, '0')), minFractionDigits, '0')
  }

  function ParseUsd(text: Option<string>): Option<nat> {
    if text.None? then None else ParseNumeral(Trim(text.value))
  }

  /** One or more digits, then optionally a point and one to six more. */
  function ParseNumeral(t: string): Option<nat> {
    var dot := IndexOf(t, '.');
    if dot == |t| then (if t != [] && AllDigits(t) then Some(NatValue(t) * 1_000_000) else None)
    else PartsAmount(t[..dot], t[dot + 1..])
  }

  function PartsAmount(whole: string, fraction: string): Option<nat> {
    if whole == [] || !AllDigits(whole) || !(1 <= |fraction| <= 6) || !AllDigits(fraction) then None
    else Some(NatValue(whole) * 1_000_000 + NatValue(PadEnd(fraction, 6, '0')))
  }

  // ---- numerals ----

  lemma {:induction false} NatValueAppend(s: string, t: string)
    requires AllDigits(s) && AllDigits(t)
    ensures AllDigits(s + t) && NatValue(s + t) == NatValue(s) * Pow10(|t|) + NatValue(t)
  {
    if t == [] {
      assert s + t == s;
    } else {
      var u := t[..|t| - 1];
      assert (s + t)[..|s + t| - 1] == s + u;
      NatValueAppend(s, u);
      MulAssoc(NatValue(s), 10, Pow10(|u|));
    }
  }

  lemma {:induction false} NatValueZeros(n: nat)
    ensures AllDigits(Repeat('0', n)) && NatValue(Repeat('0', n)) == 0
  {
    if n > 0 {
      assert Repeat('0', n)[..n - 1] == Repeat('0', n - 1);
      NatValueZeros(n - 1);
    }
  }

  lemma {:induction false} NatValueBound(s: string)
    requires AllDigits(s)
    ensures NatValue(s) < Pow10(|s|)
  {
    if s != [] {
      NatValueBound(s[..|s| - 1]);
    }
  }

  /** A fixed-width numeral is recovered from its value. */
  lemma {:induction false} PadStartNatText(s: string)
    requires AllDigits(s) && |s| > 0
    ensures PadStart(NatText(NatValue(s)), |s|, '0') == s
  {
    var n, u := NatValue(s), s[..|s| - 1];
    assert s == u + [s[|s| - 1]];
    assert n / 10 == NatValue(u) && n % 10 == DigitValue(s[|s| - 1]);
    if u == [] {
    } else {
      PadStartNatText(u);
      var short := NatText(NatValue(u));
      if n < 10 {
        assert short == "0";
        assert PadStart(short, |u|, '0') == Repeat('0', |u|);
      } else {
        assert NatText(n) == short + [s[|s| - 1]];
      }
    }
  }

  lemma {:induction false} NatTextLength(n: nat, k: nat)
    requires n < Pow10(k) && k > 0
    ensures |NatText(n)| <= k
  {
    if n >= 10 {
      NatTextLength(n / 10, k - 1);
    }
  }

  lemma NatTextPadded(n: nat)
    requires n < 1_000_000
    ensures var p := PadStart(NatText(n), 6, '0');
            |p| == 6 && AllDigits(p) && NatValue(p) == n
  {
    hide NatText, NatValue;
    Pow10Six();
    NatTextLength(n, 6);
    PadZeros(NatText(n), 6);
  }

  lemma PadZeros(s: string, n: nat)
    requires AllDigits(s)
    ensures AllDigits(PadStart(s, n, '0')) && NatValue(PadStart(s, n, '0')) == NatValue(s)
  {
    hide NatValue;
    if |s| < n {
      var z := Repeat('0', n - |s|);
      NatValueZeros(|z|);
      NatValueAppend(z, s);
    }
  }

  /** A digit string denotes the numeral's text exactly when it has no leading zero. */
  lemma NatTextOfValue(s: string)
    requires AllDigits(s) && |s| > 0
    ensures NatText(NatValue(s)) == s <==> s[0] != '0' || s == "0"
  {
    PadStartNatText(s);
  }

  // ---- the codec ----

  lemma ParseWhole(w: string)
    requires w != [] && AllDigits(w)
    ensures ParseUsd(Some(w)) == Some(NatValue(w) * 1_000_000)
  {
    assert Trimmed(IsSpace, w) && IndexOf(w, '.') == |w|;
  }

  lemma SplitAtPoint(w: string, f: string)
    requires '.' !in w
    ensures var t := w + "." + f;
            IndexOf(t, '.') == |w| && t[..|w|] == w && t[|w| + 1..] == f
  {
    var t := w + "." + f;
    assert t[|w|] == '.';
    assert forall i :: 0 <= i < |w| ==> t[i] == w[i];
  }

  lemma ParseParts(w: string, f: string)
    requires w != [] && f != [] && !IsSpace(w[0]) && !IsSpace(f[|f| - 1]) && '.' !in w
    ensures ParseUsd(Some(w + "." + f)) == PartsAmount(w, f)
  {
    var t := w + "." + f;
    SplitAtPoint(w, f);
    assert Trimmed(IsSpace, t) by { assert t[0] == w[0] && t[|t| - 1] == f[|f| - 1]; }
    assert ParseUsd(Some(t)) == ParseNumeral(t);
  }

  /** A fraction's text has as many digits as asked for and, padded to six, denotes the fraction. */
  lemma FractionReads(n: nat, m: nat)
    requires n < 1_000_000 && (m > 0 || n > 0)
    ensures var f := FractionText(n, m);
            && f != [] && AllDigits(f) && (|f| <= 6 <==> m <= 6)
            && (m <= 6 ==> NatValue(PadEnd(f, 6, '0')) == n)
  {
    var p := PadStart(NatText(n), 6, '0');
    NatTextPadded(n);
    var d := DropTrailingZeros(p);
    var f := PadEnd(d, m, '0');
    if d == [] {
      assert p == Repeat('0', 6);
      NatValueZeros(6);
    }
    if m <= 6 {
      assert PadEnd(f, 6, '0') == p;
    }
    assert forall i :: 0 <= i < |f| ==> IsDigit(f[i]);
  }

  /** A negative fraction keeps its minus sign through padding and trimming. */
  lemma NegativeFraction(n: int, m: nat)
    requires -1_000_000 < n < 0
    ensures var f := FractionText(n, m);
            f != [] && !AllDigits(f) && !IsSpace(f[|f| - 1])
  {
    hide NatText, NatValue;
    var x := IntText(n);
    assert x == "-" + NatText(-n);
    KeepsSign(PadStart(x, 6, '0'), if |x| < 6 then 6 - |x| else 0, m);
  }

  lemma KeepsSign(p: string, k: nat, m: nat)
    requires k < |p| && p[k] == '-' && forall i :: 0 <= i < |p| ==> !IsSpace(p[i])
    ensures var f := PadEnd(DropTrailingZeros(p), m, '0');
            f != [] && !AllDigits(f) && !IsSpace(f[|f| - 1])
  {
    var d := DropTrailingZeros(p);
    assert k < |d|;
    var f := PadEnd(d, m, '0');
    assert f[k] == '-' && !IsDigit(f[k]);
  }

  lemma FormatNegative(v: int, m: nat)
    requires v < 0
    ensures ParseUsd(Some(FormatUsd(v, m))) == None
  {
    hide NatText, NatValue, FractionText;
    var whole := TruncDiv(v, 1_000_000);
    var fraction := v - whole * 1_000_000;
    var w := IntText(whole);
    assert -1_000_000 < fraction <= 0 && whole <= 0;
    if fraction == 0 && m == 0 {
      NotDigits(w);
    } else {
      var f := FractionText(fraction, m);
      if fraction < 0 {
        NegativeFraction(fraction, m);
      } else {
        FractionReads(0, m);
      }
      PointFree(whole);
      ParseParts(w, f);
    }
  }

  lemma NotDigits(w: string)
    requires |w| > 1 && w[0] == '-' && AllDigits(w[1..])
    ensures ParseUsd(Some(w)) == None
  {
    assert w[|w| - 1] == w[1..][|w| - 2];
    assert Trimmed(IsSpace, w);
    var dot := IndexOf(w, '.');
    assert forall i :: 0 < i < |w| ==> w[i] == w[1..][i - 1];
    assert dot == |w|;
  }

  lemma PointFree(n: int)
    ensures '.' !in IntText(n) && !IsSpace(IntText(n)[0])
  {
    var w := IntText(n);
    if n < 0 {
      assert forall i :: 0 < i < |w| ==> w[i] == NatText(-n)[i - 1];
    }
  }

  /** Parsing undoes formatting for exactly the non-negative amounts and at most six forced fraction digits. */
  lemma ParseFormat(v: int, m: nat)
    ensures ParseUsd(Some(FormatUsd(v, m))) == if v >= 0 && m <= 6 then Some(v) else None
  {
    if v < 0 {
      FormatNegative(v, m);
    } else if v % 1_000_000 == 0 && m == 0 {
      ParseWhole(NatText(v / 1_000_000));
    } else {
      FormatNonNegative(v, m);
    }
  }

  lemma FormatNonNegative(v: nat, m: nat)
    requires v % 1_000_000 != 0 || m != 0
    ensures ParseUsd(Some(FormatUsd(v, m))) == if m <= 6 then Some(v) else None
  {
    hide NatText, FractionText, ParseUsd;
    var whole, fraction := v / 1_000_000, v % 1_000_000;
    assert FormatUsd(v, m) == NatText(whole) + "." + FractionText(fraction, m);
    ReadBack(whole, fraction, m);
  }

  lemma ReadBack(whole: nat, fraction: nat, m: nat)
    requires fraction < 1_000_000 && (fraction != 0 || m != 0)
    ensures ParseUsd(Some(NatText(whole) + "." + FractionText(fraction, m))) ==
            if m <= 6 then Some(whole * 1_000_000 + fraction) else None
  {
    hide NatText, NatValue, FractionText, ParseUsd, PadEnd;
    FractionReads(fraction, m);
    PointFree(whole);
    ParseParts(NatText(whole), FractionText(fraction, m));
  }

  /** The shape of a money string nobody has to rewrite: no blanks, no leading or trailing zeros, no bare point. */
  predicate CanonicalUsd(s: string) {
    var dot := IndexOf(s, '.');
    && s != []
    && Trimmed(IsSpace, s)
    && (s[0] != '0' || dot == 1)
    && (dot < |s| ==> s[|s| - 1] != '0')
  }

  /** Formatting a parsed string returns it unchanged exactly when it was canonical already. */
  lemma FormatParse(s: string)
    requires ParseUsd(Some(s)).Some?
    ensures FormatUsd(ParseUsd(Some(s)).value, 0) == s <==> CanonicalUsd(s)
  {
    hide NatText, NatValue, FormatUsd, Trim, PadEnd;
    var v := ParseUsd(Some(s)).value;
    var t := Trim(s);
    var dot := IndexOf(t, '.');
    if dot == |t| {
      FormatWhole(t);
    } else {
      assert t == t[..dot] + "." + t[dot + 1..];
      FormatParts(t[..dot], t[dot + 1..]);
    }
    var out := FormatUsd(v, 0);
    assert out[0] != '-';
    if out == s {
      assert IsDigit(out[0]) && IsDigit(out[|out| - 1]);
      assert t == s;
    }
  }

  lemma FormatWhole(w: string)
    requires w != [] && AllDigits(w)
    ensures var out := FormatUsd(NatValue(w) * 1_000_000, 0);
            AllDigits(out) && out != [] && (out == w <==> w[0] != '0' || w == "0")
  {
    NatTextOfValue(w);
    assert TruncDiv(NatValue(w) * 1_000_000, 1_000_000) == NatValue(w);
  }

  lemma FormatParts(w: string, f: string)
    requires PartsAmount(w, f).Some?
    ensures var out := FormatUsd(PartsAmount(w, f).value, 0);
            && out != [] && IsDigit(out[0]) && IsDigit(out[|out| - 1])
            && (out == w + "." + f <==> (w[0] != '0' || w == "0") && f[|f| - 1] != '0')
  {
    var v := PartsAmount(w, f).value;
    var p := PadEnd(f, 6, '0');
    NatValueBound(p);
    Pow10Six();
    var n, u := NatValue(p), NatText(NatValue(w));
    assert v / 1_000_000 == NatValue(w) && v - v / 1_000_000 * 1_000_000 == n;
    NatTextOfValue(w);
    FractionOf(f);
    if n == 0 {
      assert FormatUsd(v, 0) == u;
      assert (w + "." + f)[|w|] == '.';
    } else {
      FractionReads(n, 0);
      var d := FractionText(n, 0);
      assert FormatUsd(v, 0) == u + "." + d;
      if u + "." + d == w + "." + f { SameParts(u, d, w, f); }
    }
  }

  /** Re-formatting a fraction keeps it exactly when it does not end in zero. */
  lemma FractionOf(f: string)
    requires 1 <= |f| <= 6 && AllDigits(f)
    ensures var n := NatValue(PadEnd(f, 6, '0'));
            && (n == 0 ==> f[|f| - 1] == '0')
            && (n < 1_000_000 ==> (FractionText(n, 0) == f <==> f[|f| - 1] != '0'))
  {
    var p := PadEnd(f, 6, '0');
    PadStartNatText(p);
    if NatValue(p) == 0 {
      assert p == PadStart("0", 6, '0') == Repeat('0', 6);
      assert f[|f| - 1] == p[|f| - 1];
    }
    var d := DropTrailingZeros(p);
    assert PadEnd(d, 0, '0') == d;
    if f[|f| - 1] != '0' {
      assert p[|f| - 1] == f[|f| - 1];
      assert |d| == |f|;
    }
  }

  lemma Pow10Six()
    ensures Pow10(6) == 1_000_000
  {
    assert Pow10(3) == 1000;
  }

  /** A numeral splits at its point in one way only. */
  lemma SameParts(w: string, f: string, w': string, f': string)
    requires AllDigits(w) && AllDigits(w') && w + "." + f == w' + "." + f'
    ensures w == w' && f == f'
  {
    SplitAtPoint(w, f);
    SplitAtPoint(w', f');
  }

  /** What parsing means, without reference to how it splits: `w.f` reads as the number wf / 10^|f|. */
  lemma ParseReadsNumeral(w: string, f: string)
    requires w != [] && AllDigits(w) && 1 <= |f| <= 6 && AllDigits(f)
    ensures ParseUsd(Some(w)) == Some(NatValue(w) * 1_000_000)
    ensures AllDigits(w + f)
    ensures ParseUsd(Some(w + "." + f)).Some?
    ensures ParseUsd(Some(w + "." + f)).value * Pow10(|f|) == NatValue(w + f) * 1_000_000
  {
    hide NatValue, ParseUsd, PartsAmount;
    ParseWhole(w);
    ParseParts(w, f);
    PartsValue(w, f);
    NatValueAppend(w, f);
    Pow10Add(|f|, 6 - |f|);
    Pow10Six();
    Rescale(NatValue(w), NatValue(f), Pow10(|f|), Pow10(6 - |f|));
  }

  lemma PartsValue(w: string, f: string)
    requires w != [] && AllDigits(w) && 1 <= |f| <= 6 && AllDigits(f)
    ensures PartsAmount(w, f) == Some(NatValue(w) * 1_000_000 + NatValue(f) * Pow10(6 - |f|))
  {
    var z := Repeat('0', 6 - |f|);
    NatValueZeros(|z|);
    NatValueAppend(f, z);
    assert PadEnd(f, 6, '0') == f + z;
  }

  lemma Rescale(a: nat, b: nat, x: nat, y: nat)
    requires x * y == 1_000_000
    ensures (a * 1_000_000 + b * y) * x == (a * x + b) * 1_000_000
  {
    calc {
      (a * (x * y) + b * y) * x;
      (a * x + b) * (x * y);
    }
  }

  lemma {:induction false} Pow10Add(m: nat, n: nat)
    ensures Pow10(m + n) == Pow10(m) * Pow10(n)
  {
    if m > 0 {
      Pow10Add(m - 1, n);
      calc {
        Pow10(m + n);
        10 * (Pow10(m - 1) * Pow10(n));
        Pow10(m) * Pow10(n);
      }
    }
  }

  // ---- token units ----

  /** USD to the token's minor units, as the text the requirement carries. */
  function AssetAtomicAmount(amountUsd: Option<string>, assetDecimals: int): Option<string> {
    var usd := ParseUsd(amountUsd);
    if usd.None? || assetDecimals < 0 || assetDecimals > 36 then None
    else Some(NatText(AssetUnits(usd.value, assetDecimals)))
  }

  function AssetUnits(usd: nat, assetDecimals: nat): nat {
    hide Pow10;
    if assetDecimals == 6 then usd
    else if assetDecimals > 6 then usd * Pow10(assetDecimals - 6)
    else usd / Pow10(6 - assetDecimals)
  }

  /** The same amount, refused when nothing would be charged. */
  function RequireAssetAtomicAmount(amountUsd: Option<string>, assetDecimals: int): Result<string, ()>
  {
    var amount := AssetAtomicAmount(amountUsd, assetDecimals);
    if amount.None? || !AllDigits(amount.value) || NatValue(amount.value) <= 0 then Err(()) else Ok(amount.value)
  }

  /** Conversion is exact from six decimals up and loses less than one unit below that. */
  lemma AssetAmountBounds(text: string, decimals: nat)
    requires ParseUsd(Some(text)).Some? && decimals <= 36
    ensures AssetAtomicAmount(Some(text), decimals).Some?
    ensures var units := AssetAtomicAmount(Some(text), decimals).value;
            var usd := ParseUsd(Some(text)).value;
            && AllDigits(units)
            && (decimals >= 6 ==> NatValue(units) * 1_000_000 == usd * Pow10(decimals))
            && (decimals < 6 ==>
                NatValue(units) * 1_000_000 <= usd * Pow10(decimals) < (NatValue(units) + 1) * 1_000_000)
            && (RequireAssetAtomicAmount(Some(text), decimals) ==
                if usd * Pow10(decimals) >= 1_000_000 then Ok(units) else Err(()))
  {
    hide ParseUsd, NatText, NatValue, Pow10;
    var usd := ParseUsd(Some(text)).value;
    if decimals >= 6 {
      ScaleUp(usd, decimals);
    } else {
      ScaleDown(usd, decimals);
    }
  }

  lemma ScaleUp(usd: nat, decimals: nat)
    requires decimals >= 6
    ensures AssetUnits(usd, decimals) * 1_000_000 == usd * Pow10(decimals)
  {
    hide Pow10;
    Pow10Six();
    Pow10Add(6, decimals - 6);
    MulAssoc(usd, 1_000_000, Pow10(decimals - 6));
    assert decimals == 6 ==> Pow10(decimals) == 1_000_000;
  }

  lemma ScaleDown(usd: nat, decimals: nat)
    requires decimals < 6
    ensures var r := AssetUnits(usd, decimals);
            r * 1_000_000 <= usd * Pow10(decimals) < (r + 1) * 1_000_000
  {
    Pow10Six();
    var p, q := Pow10(6 - decimals), Pow10(decimals);
    Pow10Add(6 - decimals, decimals);
    FloorScaled(usd, p, q);
  }

  lemma FloorScaled(n: nat, p: nat, q: nat)
    requires p > 0 && q > 0
    ensures n / p * (p * q) <= n * q < (n / p + 1) * (p * q)
  {
    var r := n / p;
    assert r * p <= n && n + 1 <= (r + 1) * p;
    MulAssoc(r, p, q);
    MulAssoc(r + 1, p, q);
    MulMono(r * p, n, q);
    MulMono(n + 1, (r + 1) * p, q);
    assert (n + 1) * q == n * q + q;
  }

  lemma MulAssoc(a: int, b: int, c: int)
    ensures a * (b * c) == (a * b) * c == b * (a * c)
  {
  }

  lemma MulMono(a: int, b: int, c: nat)
    requires a <= b
    ensures a * c <= b * c
  {
  }
}
