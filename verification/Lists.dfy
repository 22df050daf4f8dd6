/** The list operations of the JSON-file stores: search, replace by key, prepend with a cap, filter. */
module Lists {
  import opened Wrappers

  predicate NoRepeats<T(==)>(s: seq<T>) {
    forall i, j :: 0 <= i < j < |s| ==> s[i] != s[j]
  }

  /** A list with one more complaint, if there is cause. */
  function PushWhen<T>(s: seq<T>, lacking: bool, x: T): (r: seq<T>)
    ensures |r| == |s| + if lacking then 1 else 0
  {
    if lacking then s + [x] else s
  }

  lemma Pushed<T>(s: seq<T>, lacking: bool, x: T, y: T)
    ensures y in PushWhen(s, lacking, x) <==> y in s || (lacking && y == x)
  {
  }

  lemma OnePlace<T>(s: seq<T>, i: nat, j: nat)
    requires NoRepeats(s) && i < |s| && j < |s|
    ensures s[i] == s[j] ==> i == j
  {
  }

  function FindIndex<T>(s: seq<T>, p: T -> bool): (r: Option<nat>)
    ensures r.Some? ==> r.value < |s| && p(s[r.value]) && forall i :: 0 <= i < r.value ==> !p(s[i])
    ensures r.None? ==> forall i :: 0 <= i < |s| ==> !p(s[i])
  {
    if s == [] then None
    else if p(s[0]) then Some(0)
    else var r := FindIndex(s[1..], p); if r.Some? then Some(r.value + 1) else None
  }

  function ReplaceWhere<T>(s: seq<T>, p: T -> bool, next: T): (r: seq<T>)
    ensures |r| == |s|
    ensures forall i :: 0 <= i < |s| ==> r[i] == if p(s[i]) then next else s[i]
  {
    seq(|s|, i requires 0 <= i < |s| => if p(s[i]) then next else s[i])
  }

  /** The newest item first, the oldest dropped beyond the cap. */
  function Prepend<T>(x: T, s: seq<T>, cap: nat): (r: seq<T>)
    ensures |r| == if |s| < cap then |s| + 1 else cap
    ensures forall i :: 0 <= i < |r| ==> r[i] == if i == 0 then x else s[i - 1]
  {
    var all := [x] + s;
    if |all| <= cap then all else all[..cap]
  }

  function Filter<T(!new)>(s: seq<T>, keep: T -> bool): (r: seq<T>)
    ensures |r| <= |s|
    ensures forall x :: x in r <==> x in s && keep(x)
  {
    if s == [] then [] else (if keep(s[0]) then [s[0]] else []) + Filter(s[1..], keep)
  }

  /** Filtering keeps the order: piece by piece, and of one item either all or nothing. */
  lemma {:induction false} FilterAppend<T(!new)>(a: seq<T>, b: seq<T>, keep: T -> bool)
    ensures Filter(a + b, keep) == Filter(a, keep) + Filter(b, keep)
    ensures forall x :: Filter([x], keep) == if keep(x) then [x] else []
  {
    if a == [] {
      assert a + b == b;
    } else {
      assert (a + b)[1..] == a[1..] + b;
      FilterAppend(a[1..], b, keep);
    }
  }
}
