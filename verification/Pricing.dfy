/** Network gas priced in micro-dollars through a Chainlink feed. */
module Pricing {
  import opened Wrappers
  import opened Text
  import opened Decimal

  method DecimalScale(decimals: int) returns (scale: nat)
    ensures scale == Pow10(if decimals > 0 then decimals else 0)
  {
    scale := 1;
    var index := 0;
    while index < decimals
      invariant 0 <= index && (decimals > 0 ==> index <= decimals) && (decimals <= 0 ==> index == 0)
      invariant scale == Pow10(index)
    {
      scale := scale * 10;
      index := index + 1;
    }
  }

  /** The feed's answer in micro-dollars, dropping what is finer. */
  function ScalePrice(value: int, decimals: nat): int {
    hide Pow10;
    if decimals == 6 then value
    else if decimals > 6 then TruncDiv(value, Pow10(decimals - 6))
    else value * Pow10(6 - decimals)
  }

  function CeilDiv(numerator: int, denominator: int): Result<int, ()> {
    if denominator <= 0 then Err(()) else Ok(TruncDiv(numerator + denominator - 1, denominator))
  }

  /** `q` is the least whole number of `d`s that covers `n`. */
  predicate LeastCover(q: int, n: int, d: int) {
    (q - 1) * d < n <= q * d
  }

  /**
   The ceiling is exact for every numerator above minus the denominator. Below that the division rounds the
   wrong way, and only lands on the ceiling when nothing is left to round.
   */
  lemma CeilDivLeast(n: int, d: int)
    requires d > 0
    ensures LeastCover(CeilDiv(n, d).value, n, d) <==> n > -d || (n - 1) % d == 0
  {
    var m := n + d - 1;
    if m >= 0 {
      var q := m / d;
      assert q * d + m % d == m;
      assert (q - 1) * d == q * d - d;
    } else {
      var k := -m;
      var q := k / d;
      var r := k % d;
      assert q * d + r == k;
      assert (-q) * d == -(q * d);
      assert (-q - 1) * d == -(q * d) - d;
      ShiftedRemainder(n, d, q, r);
    }
  }

  lemma ShiftedRemainder(n: int, d: int, q: int, r: int)
    requires d > 0 && 0 <= r < d && q * d + r == -(n + d - 1)
    ensures (n - 1) % d == 0 <==> r == 0
  {
    assert n - 1 == d * (-q - 1) - r by {
      assert d * (-q - 1) == -(q * d) - d;
    }
    if r == 0 {
      DivisionUnique(n - 1, d, -q - 1, 0);
    } else {
      assert d * (-q - 2) == d * (-q - 1) - d;
      DivisionUnique(n - 1, d, -q - 2, d - r);
    }
  }

  lemma DivisionUnique(a: int, d: int, q: int, r: int)
    requires d > 0 && 0 <= r < d && a == d * q + r
    ensures a % d == r
  {
    var q', r' := a / d, a % d;
    assert a == d * q' + r';
    assert (q - q') * d == d * q - d * q' && (q' - q) * d == d * q' - d * q;
    if q > q' {
      MulMono(1, q - q', d);
    } else if q < q' {
      MulMono(1, q' - q, d);
    }
  }

  /** What one settlement is charged: gas in wei at the feed's price, rounded up to a micro-dollar. */
  function GasCharge(nativeWei: nat, answer: nat, decimals: nat): nat
  {
    hide Pow10, ScalePrice;
    PriceBounds(answer, decimals);
    MulMono(0, nativeWei, ScalePrice(answer, decimals));
    (nativeWei * ScalePrice(answer, decimals) + 1_000_000_000_000_000_000 - 1) / 1_000_000_000_000_000_000
  }

  lemma GasChargeIsCeiling(nativeWei: nat, answer: nat, decimals: nat)
    ensures CeilDiv(nativeWei * ScalePrice(answer, decimals), 1_000_000_000_000_000_000) ==
            Ok(GasCharge(nativeWei, answer, decimals))
  {
    hide Pow10, ScalePrice;
    PriceBounds(answer, decimals);
    MulMono(0, nativeWei, ScalePrice(answer, decimals));
  }

  lemma PriceBounds(answer: nat, decimals: nat)
    ensures var p := ScalePrice(answer, decimals);
            p >= 0 && p * Pow10(decimals) <= answer * 1_000_000 < (p + 1) * Pow10(decimals)
  {
    hide Pow10, ScalePrice;
    Pow10Six();
    PriceCases(answer, decimals);
    var D := Pow10(decimals);
    if decimals == 6 {
      ExactPrice(answer, 1, D);
    } else if decimals > 6 {
      Pow10Add(6, decimals - 6);
      FlooredPrice(answer, Pow10(decimals - 6), D);
    } else {
      Pow10Add(6 - decimals, decimals);
      ExactPrice(answer, Pow10(6 - decimals), D);
    }
  }

  lemma PriceCases(answer: nat, decimals: nat)
    ensures decimals == 6 ==> ScalePrice(answer, decimals) == answer
    ensures decimals > 6 ==> ScalePrice(answer, decimals) == answer / Pow10(decimals - 6)
    ensures decimals < 6 ==> ScalePrice(answer, decimals) == answer * Pow10(6 - decimals)
  {
    hide Pow10;
  }

  lemma FlooredPrice(answer: nat, t: nat, D: nat)
    requires t > 0 && D == 1_000_000 * t
    ensures answer / t >= 0
    ensures answer / t * D <= answer * 1_000_000 < (answer / t + 1) * D
  {
    var p := answer / t;
    assert p * t <= answer && answer + 1 <= (p + 1) * t;
    MulAssoc(p, 1_000_000, t);
    MulAssoc(p + 1, 1_000_000, t);
  }

  lemma ExactPrice(answer: nat, t: nat, D: nat)
    requires D > 0 && t * D == 1_000_000
    ensures answer * t >= 0
    ensures answer * t * D == answer * 1_000_000 < (answer * t + 1) * D
  {
    MulAssoc(answer, t, D);
    assert (answer * t + 1) * D == answer * t * D + D;
  }

  /**
   The charge is less than one micro-dollar above the exact cost nativeWei * answer / 10^decimals / 10^18 dollars,
   and falls below it by at most nativeWei / 10^18: what truncating the price can lose.
   */
  lemma GasChargeBounds(nativeWei: nat, answer: nat, decimals: nat)
    ensures var charge, D := GasCharge(nativeWei, answer, decimals), Pow10(decimals);
            var exact := nativeWei * answer * 1_000_000;
            && charge * 1_000_000_000_000_000_000 * D < exact + 1_000_000_000_000_000_000 * D
            && charge * 1_000_000_000_000_000_000 * D >= exact - nativeWei * D
  {
    hide Pow10, ScalePrice;
    PriceBounds(answer, decimals);
    var p, D, w := ScalePrice(answer, decimals), Pow10(decimals), nativeWei;
    MulMono(0, w, p);
    var cost := w * p;
    assert cost == p * w;
    var charged := GasCharge(w, answer, decimals) * 1_000_000_000_000_000_000;
    assert cost <= charged < cost + 1_000_000_000_000_000_000;
    MulMono(cost, charged, D);
    MulMono(charged + 1, cost + 1_000_000_000_000_000_000, D);
    assert (charged + 1) * D == charged * D + D;
    assert (cost + 1_000_000_000_000_000_000) * D == cost * D + 1_000_000_000_000_000_000 * D;
    CostBounds(w, p, D, answer);
  }

  lemma CostBounds(w: nat, p: nat, D: nat, answer: nat)
    requires p * D <= answer * 1_000_000 < (p + 1) * D
    ensures w * p * D <= w * answer * 1_000_000 <= w * p * D + w * D
  {
    MulAssoc(w, p, D);
    MulAssoc(w, answer, 1_000_000);
    MulMono(p * D, answer * 1_000_000, w);
    MulMono(answer * 1_000_000, p * D + D, w);
    assert (p + 1) * D == p * D + D;
    assert w * (p * D) == (p * D) * w && w * (answer * 1_000_000) == (answer * 1_000_000) * w;
    assert (p * D + D) * w == (p * D) * w + D * w;
  }

  // ---- the feed's answer word ----

  predicate AllHex(s: string) {
    forall i :: 0 <= i < |s| ==> IsHex(s[i])
  }

  function Pow16(n: nat): (p: nat)
    ensures p > 0
  {
    if n == 0 then 1 else 16 * Pow16(n - 1)
  }

  function HexValue(s: string): (v: nat)
    requires AllHex(s)
    ensures v < Pow16(|s|)
  {
    if s == [] then 0 else 16 * HexValue(s[..|s| - 1]) + HexDigit(s[|s| - 1])
  }

  /** A 256-bit word read as a signed number: half the range, 2^255, is 8 * 16^63. */
  function SignedWord(word: string): int
    requires AllHex(word)
  {
    var value := HexValue(word);
    if value >= 8 * Pow16(63) then value - Pow16(64) else value
  }

  /** The signed reading is the one number of the signed 256-bit range congruent to the word. */
  lemma SignedWordIsTwosComplement(word: string, n: int)
    requires AllHex(word) && |word| == 64
    ensures n == SignedWord(word) <==>
            && -8 * Pow16(63) <= n < 8 * Pow16(63)
            && (n == HexValue(word) || n + Pow16(64) == HexValue(word))
  {
    hide Pow16, HexValue;
    Pow16Step(63);
  }

  lemma Pow16Step(n: nat)
    ensures Pow16(n + 1) == 16 * Pow16(n)
  {
  }

  function FixedHex(n: nat, width: nat): (s: string)
    ensures |s| == width && AllHex(s)
  {
    if width == 0 then [] else FixedHex(n / 16, width - 1) + [HexChar(n % 16)]
  }

  lemma {:induction false} FixedHexValue(n: nat, width: nat)
    requires n < Pow16(width)
    ensures HexValue(FixedHex(n, width)) == n
  {
    if width > 0 {
      var s := FixedHex(n, width);
      assert s[..width - 1] == FixedHex(n / 16, width - 1);
      FixedHexValue(n / 16, width - 1);
    }
  }

  /** The 32-byte word an EVM contract returns for a signed number. */
  function SignedToWord(v: int): string
    requires -8 * Pow16(63) <= v < 8 * Pow16(63)
  {
    hide Pow16;
    Pow16Step(63);
    FixedHex(if v < 0 then v + Pow16(64) else v, 64)
  }

  /** The answer of `latestRoundData`: the second of five words, and only when positive. */
  function FeedAnswer(result: string): Option<int> {
    if !("0x" <= result) then None
    else
      var encoded := PadStart(result[2..], 320, '0');
      var answerWord := encoded[64..128];
      if !AllHex(answerWord) || SignedWord(answerWord) <= 0 then None else Some(SignedWord(answerWord))
  }

  /** Reading a well-formed round returns the number the feed encoded, or nothing when that is not a price. */
  lemma FeedAnswerReadsRound(round: string, answer: int, rest: string)
    requires |round| == 64 && |rest| == 192
    requires -8 * Pow16(63) <= answer < 8 * Pow16(63)
    ensures FeedAnswer("0x" + round + SignedToWord(answer) + rest) == if answer > 0 then Some(answer) else None
  {
    hide Pow16, HexValue, SignedToWord;
    var w := SignedToWord(answer);
    SignedRoundTrip(answer);
    var result := "0x" + round + w + rest;
    assert result[2..] == round + w + rest;
    assert (round + w + rest)[64..128] == w;
  }

  /** A short result is read as if it had zeroes in front. */
  lemma FeedAnswerPads(s: string, n: nat)
    requires |s| + n <= 320
    ensures FeedAnswer("0x" + Repeat('0', n) + s) == FeedAnswer("0x" + s)
  {
    hide HexValue, AllHex, SignedWord;
    var padded, short := "0x" + Repeat('0', n) + s, "0x" + s;
    assert padded[2..] == Repeat('0', n) + s && short[2..] == s;
    assert PadStart(Repeat('0', n) + s, 320, '0') == Repeat('0', 320 - |s|) + s;
    assert PadStart(s, 320, '0') == Repeat('0', 320 - |s|) + s;
  }

  lemma SignedRoundTrip(v: int)
    requires -8 * Pow16(63) <= v < 8 * Pow16(63)
    ensures var w := SignedToWord(v); |w| == 64 && AllHex(w) && SignedWord(w) == v
  {
    hide Pow16, HexValue, FixedHex;
    Pow16Step(63);
    FixedHexValue(if v < 0 then v + Pow16(64) else v, 64);
  }
}
