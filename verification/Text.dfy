/** The string operations the adapters share. */
module Text {
  import opened Wrappers

  /** The characters ECMAScript's `trim` removes. */
  predicate IsSpace(c: char) {
    var n := c as int;
    || 9 <= n <= 13 || n == 0x20 || n == 0xA0 || n == 0x1680 || 0x2000 <= n <= 0x200A
    || n == 0x2028 || n == 0x2029 || n == 0x202F || n == 0x205F || n == 0x3000 || n == 0xFEFF
  }

  /** The characters Python's `strip` removes: the information separators and NEL too, but no byte-order mark. */
  predicate IsPySpace(c: char) {
    var n := c as int;
    || 0x1C <= n <= 0x1F || n == 0x85 || (IsSpace(c) && n != 0xFEFF)
  }

  predicate Trimmed(space: char -> bool, s: string) {
    s == [] || (!space(s[0]) && !space(s[|s| - 1]))
  }

  function TrimStart(space: char -> bool, s: string): (r: string)
    ensures r == [] || !space(r[0])
    ensures s == [] || !space(s[0]) ==> r == s
    ensures r != [] ==> s != [] && r[|r| - 1] == s[|s| - 1]
  {
    if s != [] && space(s[0]) then TrimStart(space, s[1..]) else s
  }

  function TrimEnd(space: char -> bool, s: string): (r: string)
    ensures r == [] || !space(r[|r| - 1])
    ensures s == [] || !space(s[|s| - 1]) ==> r == s
    ensures r != [] ==> s != [] && r[0] == s[0]
  {
    if s != [] && space(s[|s| - 1]) then TrimEnd(space, s[..|s| - 1]) else s
  }

  function TrimBy(space: char -> bool, s: string): (r: string)
    ensures Trimmed(space, r)
    ensures Trimmed(space, s) ==> r == s
  {
    TrimEnd(space, TrimStart(space, s))
  }

  function Trim(s: string): (r: string)
    ensures Trimmed(IsSpace, r)
    ensures Trimmed(IsSpace, s) ==> r == s
  {
    TrimBy(IsSpace, s)
  }

  /** Trimming takes only white space off, at the two ends; what is between neither starts nor ends with any. */
  lemma TrimCuts(space: char -> bool, s: string) returns (i: nat, j: nat)
    ensures i <= j <= |s| && TrimBy(space, s) == s[i..j] && Trimmed(space, s[i..j])
    ensures AllOf(space, s[..i]) && AllOf(space, s[j..])
  {
    i := StartCut(space, s);
    var n := EndCut(space, s[i..]);
    j := i + n;
    assert s[i..][..n] == s[i..j] && s[i..][n..] == s[j..];
  }

  lemma {:induction false} StartCut(space: char -> bool, s: string) returns (i: nat)
    ensures i <= |s| && TrimStart(space, s) == s[i..] && AllOf(space, s[..i])
  {
    i := 0;
    if s != [] && space(s[0]) {
      var n := StartCut(space, s[1..]);
      i := n + 1;
      assert s[1..][n..] == s[i..] && s[..i] == [s[0]] + s[1..][..n];
    }
  }

  lemma {:induction false} EndCut(space: char -> bool, s: string) returns (j: nat)
    ensures j <= |s| && TrimEnd(space, s) == s[..j] && AllOf(space, s[j..])
  {
    j := |s|;
    if s != [] && space(s[|s| - 1]) {
      j := EndCut(space, s[..|s| - 1]);
      assert s[..|s| - 1][..j] == s[..j] && s[j..] == s[..|s| - 1][j..] + [s[|s| - 1]];
    }
  }

  predicate AllOf(space: char -> bool, s: string) {
    forall k :: 0 <= k < |s| ==> space(s[k])
  }

  function Strip(s: string): (r: string)
    ensures Trimmed(IsPySpace, r)
    ensures Trimmed(IsPySpace, s) ==> r == s
  {
    TrimBy(IsPySpace, s)
  }

  /** A trimmed text cut to a maximal length, when there is one and it is not blank. */
  function OptionalText(value: Option<string>, maxLength: nat): (r: Option<string>)
    ensures r.Some? && maxLength > 0 ==> r.value != "" && |r.value| <= maxLength
  {
    if value.None? || Trim(value.value) == "" then None
    else
      var t := Trim(value.value);
      Some(if |t| <= maxLength then t else t[..maxLength])
  }

  /** It is the longest beginning of the trimmed text that fits. */
  lemma OptionalTextMeans(value: Option<string>, maxLength: nat)
    ensures var r := OptionalText(value, maxLength);
            && (r.Some? <==> value.Some? && Trim(value.value) != "")
            && (r.Some? ==>
                  && r.value <= Trim(value.value) && |r.value| <= maxLength
                  && (|Trim(value.value)| <= maxLength ==> r.value == Trim(value.value))
                  && (|Trim(value.value)| > maxLength ==> |r.value| == maxLength))
  {
    hide Trim;
  }

  predicate IsHex(c: char) { '0' <= c <= '9' || 'a' <= c <= 'f' || 'A' <= c <= 'F' }

  function HexDigit(c: char): (d: nat)
    requires IsHex(c)
    ensures d < 16
  {
    if c <= '9' then c as int - '0' as int
    else if c <= 'F' then c as int - 'A' as int + 10
    else c as int - 'a' as int + 10
  }

  predicate IsLowerHex(c: char) {
    '0' <= c <= '9' || 'a' <= c <= 'f'
  }

  /** The text form of a SHA-256 digest. */
  predicate IsDigest(s: string) {
    |s| == 64 && forall i :: 0 <= i < |s| ==> IsLowerHex(s[i])
  }

  function HexChar(d: nat): (c: char)
    requires d < 16
    ensures IsLowerHex(c)
  {
    if d < 10 then ('0' as int + d) as char else ('a' as int + (d - 10)) as char
  }

  /** No two inputs share an output: what is asked of a digest. */
  ghost predicate Injective(hash: string -> string) {
    forall x, y :: hash(x) == hash(y) ==> x == y
  }

  predicate OccursAt(s: string, part: string, i: nat) {
    i + |part| <= |s| && s[i..i + |part|] == part
  }

  predicate Includes(s: string, part: string) {
    exists i :: 0 <= i <= |s| && OccursAt(s, part, i)
  }

  /** The position of the first `c` in `s`, or the length of `s`. */
  function IndexOf(s: string, c: char): (i: nat)
    ensures i <= |s|
    ensures i < |s| ==> s[i] == c
    ensures forall j :: 0 <= j < i ==> s[j] != c
  {
    if s == [] || s[0] == c then 0 else 1 + IndexOf(s[1..], c)
  }

  function Repeat(c: char, n: nat): (r: string)
    ensures |r| == n
    ensures forall i :: 0 <= i < n ==> r[i] == c
  {
    seq(n, _ => c)
  }

  function PadStart(s: string, n: nat, c: char): (r: string)
    ensures |r| == if |s| < n then n else |s|
  {
    if |s| < n then Repeat(c, n - |s|) + s else s
  }

  function PadEnd(s: string, n: nat, c: char): (r: string)
    ensures |r| == if |s| < n then n else |s|
    ensures s <= r
    ensures forall i :: |s| <= i < |r| ==> r[i] == c
  {
    if |s| < n then s + Repeat(c, n - |s|) else s
  }

  /** `split` on one character. */
  function Split(s: string, c: char): (r: seq<string>)
    ensures |r| >= 1
    ensures forall i :: 0 <= i < |r| ==> c !in r[i]
  {
    var i := IndexOf(s, c);
    if i == |s| then [s] else [s[..i]] + Split(s[i + 1..], c)
  }

  /** `join` with one character. */
  function Join(parts: seq<string>, c: char): string {
    if parts == [] then "" else if |parts| == 1 then parts[0] else parts[0] + [c] + Join(parts[1..], c)
  }

  lemma FirstAt(a: string, c: char, b: string)
    requires c !in a
    ensures IndexOf(a + [c] + b, c) == |a| && IndexOf(a, c) == |a|
  {
    var s := a + [c] + b;
    assert s[|a|] == c;
    assert forall j :: 0 <= j < |a| ==> s[j] == a[j] && a[j] in a;
  }

  lemma SplitFirst(a: string, c: char, b: string)
    requires c !in a
    ensures Split(a + [c] + b, c) == [a] + Split(b, c)
    ensures Split(a, c) == [a]
  {
    var s := a + [c] + b;
    FirstAt(a, c, b);
    assert s[..|a|] == a && s[|a| + 1..] == b;
  }

  lemma JoinFirst(a: string, parts: seq<string>, c: char)
    requires parts != []
    ensures Join([a] + parts, c) == a + [c] + Join(parts, c)
  {
    assert ([a] + parts)[1..] == parts;
  }

  lemma {:induction false} JoinSplit(s: string, c: char)
    ensures Join(Split(s, c), c) == s
  {
    hide Split, Join;
    var i := IndexOf(s, c);
    if i == |s| {
      SplitFirst(s, c, []);
      JoinOne(s, c);
    } else {
      var a, rest := s[..i], s[i + 1..];
      JoinSplit(rest, c);
      assert s == a + [c] + rest;
      SplitFirst(a, c, rest);
      JoinFirst(a, Split(rest, c), c);
    }
  }

  lemma JoinOne(a: string, c: char)
    ensures Join([a], c) == a
  {
  }

  lemma {:induction false} SplitJoin(parts: seq<string>, c: char)
    requires parts != [] && forall i :: 0 <= i < |parts| ==> c !in parts[i]
    ensures Split(Join(parts, c), c) == parts
  {
    hide Split;
    if |parts| == 1 {
      SplitFirst(parts[0], c, []);
    } else {
      SplitJoin(parts[1..], c);
      SplitFirst(parts[0], c, Join(parts[1..], c));
      assert [parts[0]] + parts[1..] == parts;
    }
  }

  /** Splitting goes on behind a separator as if from the start. */
  lemma {:induction false} SplitMore(s: string, c: char, extra: string)
    ensures Split(s + [c] + extra, c) == Split(s, c) + Split(extra, c)
    decreases |s|
  {
    hide Split;
    var i := IndexOf(s, c);
    if i == |s| {
      SplitFirst(s, c, extra);
    } else {
      var rest := s[i + 1..];
      SplitMore(rest, c, extra);
      SplitFirst(s[..i], c, rest);
      SplitFirst(s[..i], c, rest + [c] + extra);
      assert s == s[..i] + [c] + rest;
      assert s + [c] + extra == s[..i] + [c] + (rest + [c] + extra);
    }
  }
}
