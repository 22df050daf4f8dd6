/**
 Base64 in the URL-safe alphabet without padding (sections 4 and 5 of RFC 4648), and the platform's lenient decoder.
 */
module Base64 {
  import opened Wrappers
  import opened Text
  import opened Bytes

  type Sextet = v: int | 0 <= v < 64

  function SextetsOf(b: Bytes): seq<Sextet> {
    if |b| == 0 then []
    else
      var b0: int := b[0];
      if |b| == 1 then [b0 / 4, b0 % 4 * 16]
      else
        var b1: int := b[1];
        if |b| == 2 then [b0 / 4, b0 % 4 * 16 + b1 / 16, b1 % 16 * 4]
        else
          var b2: int := b[2];
          [b0 / 4, b0 % 4 * 16 + b1 / 16, b1 % 16 * 4 + b2 / 64, b2 % 64] + SextetsOf(b[3..])
  }

  /** Whole bytes only: what is left of the last group is dropped. */
  function BytesOf(s: seq<Sextet>): Bytes {
    if |s| < 2 then []
    else
      var s0: int, s1: int := s[0], s[1];
      if |s| == 2 then [s0 * 4 + s1 / 16]
      else
        var s2: int := s[2];
        if |s| == 3 then [s0 * 4 + s1 / 16, s1 % 16 * 16 + s2 / 4]
        else
          var s3: int := s[3];
          [s0 * 4 + s1 / 16, s1 % 16 * 16 + s2 / 4, s2 % 4 * 64 + s3] + BytesOf(s[4..])
  }

  lemma {:induction false} BytesOfSextets(b: Bytes)
    ensures BytesOf(SextetsOf(b)) == b
  {
    if |b| >= 3 {
      var b0: int, b1: int, b2: int, rest := b[0], b[1], b[2], SextetsOf(b[3..]);
      var s0, s1, s2, s3 := b0 / 4, b0 % 4 * 16 + b1 / 16, b1 % 16 * 4 + b2 / 64, b2 % 64;
      assert s0 * 4 + s1 / 16 == b0 && s1 % 16 * 16 + s2 / 4 == b1 && s2 % 4 * 64 + s3 == b2;
      BytesOfSextets(b[3..]);
      assert SextetsOf(b)[4..] == rest;
      assert b == [b0, b1, b2] + b[3..];
    } else if |b| == 2 {
      assert b == [b[0], b[1]];
    } else if |b| == 1 {
      assert b == [b[0]];
    }
  }

  /** The bits a last short group has to spare are zero (section 3.5 of RFC 4648). */
  lemma {:induction false} SpareBitsZero(b: Bytes)
    ensures var s := SextetsOf(b);
            && (|b| % 3 == 1 ==> s != [] && s[|s| - 1] % 16 == 0)
            && (|b| % 3 == 2 ==> s != [] && s[|s| - 1] % 4 == 0)
  {
    if |b| >= 3 {
      SpareBitsZero(b[3..]);
    }
  }

  /** Four characters for three bytes, rounded up: never one more than a multiple of four. */
  lemma {:induction false} SextetsLength(b: Bytes)
    ensures |SextetsOf(b)| == (4 * |b| + 2) / 3 && |SextetsOf(b)| % 4 != 1
  {
    if |b| >= 3 {
      SextetsLength(b[3..]);
    }
  }

  // Characters

  function UrlChar(v: Sextet): char {
    if v < 26 then ('A' as int + v) as char
    else if v < 52 then ('a' as int + v - 26) as char
    else if v < 62 then ('0' as int + v - 52) as char
    else if v == 62 then '-' else '_'
  }

  /** Both alphabets are read. */
  function SextetOf(c: char): Option<Sextet> {
    if 'A' <= c <= 'Z' then Some(c as int - 'A' as int)
    else if 'a' <= c <= 'z' then Some(c as int - 'a' as int + 26)
    else if '0' <= c <= '9' then Some(c as int - '0' as int + 52)
    else if c == '+' || c == '-' then Some(62)
    else if c == '/' || c == '_' then Some(63)
    else None
  }

  /** A character reads as a sextet exactly when it is that sextet's in the URL-safe alphabet or in the standard one. */
  lemma SextetIff(c: char, v: Sextet)
    ensures SextetOf(c) == Some(v) <==> c == UrlChar(v) || (v == 62 && c == '+') || (v == 63 && c == '/')
  {
  }

  function Encode(b: Bytes): (r: string)
    ensures |r| == |SextetsOf(b)|
    ensures forall i :: 0 <= i < |r| ==> r[i] == UrlChar(SextetsOf(b)[i])
  {
    var s := SextetsOf(b);
    seq(|s|, i requires 0 <= i < |s| => UrlChar(s[i]))
  }

  /** Reading stops at the padding; what is in neither alphabet is skipped. */
  function Read(s: string): seq<Sextet> {
    if s == [] || s[0] == '=' then []
    else var v := SextetOf(s[0]); (if v.Some? then [v.value] else []) + Read(s[1..])
  }

  function Standard(c: char): char {
    if c == '-' then '+' else if c == '_' then '/' else c
  }

  function Normalized(value: string): (r: string)
    ensures |r| == |value| && forall i :: 0 <= i < |r| ==> r[i] == Standard(value[i])
  {
    seq(|value|, i requires 0 <= i < |value| => Standard(value[i]))
  }

  /** To the standard alphabet, padded to whole groups, and read. */
  function Decode(value: string): Bytes {
    var normalized := Normalized(value);
    var paddingLength := (4 - |normalized| % 4) % 4;
    BytesOf(Read(PadEnd(normalized, |normalized| + paddingLength, '=')))
  }

  lemma {:induction false} ReadsChars(text: string, s: seq<Sextet>, n: nat)
    requires |text| == |s| + n
    requires forall i :: 0 <= i < |s| ==> text[i] == Standard(UrlChar(s[i]))
    requires n > 0 ==> text[|s|] == '='
    ensures Read(text) == s
  {
    if s != [] {
      assert SextetOf(text[0]) == Some(s[0]) && text[0] != '=';
      ReadsChars(text[1..], s[1..], n);
      assert s == [s[0]] + s[1..];
    }
  }

  /** Decoding undoes encoding, whatever the number of bytes. */
  lemma DecodeEncode(b: Bytes)
    ensures Decode(Encode(b)) == b
  {
    hide SextetsOf, BytesOf, UrlChar, Standard;
    var s, normalized := SextetsOf(b), Normalized(Encode(b));
    var padded := PadEnd(normalized, |normalized| + (4 - |normalized| % 4) % 4, '=');
    assert forall i :: 0 <= i < |s| ==> padded[i] == normalized[i];
    ReadsChars(padded, s, |padded| - |s|);
    BytesOfSextets(b);
  }

  /** An encoding is over the URL-safe alphabet, without padding, and empty only for no bytes. */
  lemma EncodeIsUrlSafe(b: Bytes)
    ensures forall i :: 0 <= i < |Encode(b)| ==>
              var c := Encode(b)[i]; 'A' <= c <= 'Z' || 'a' <= c <= 'z' || '0' <= c <= '9' || c == '-' || c == '_'
    ensures '.' !in Encode(b)
    ensures Encode(b) == "" <==> b == []
    ensures |Encode(b)| == (4 * |b| + 2) / 3 && |Encode(b)| % 4 != 1
  {
    hide SextetsOf;
    SextetsLength(b);
    forall i | 0 <= i < |Encode(b)| ensures Encode(b)[i] != '.' {
      assert Encode(b)[i] == UrlChar(SextetsOf(b)[i]);
    }
  }
}
