/** Orders on strings, for the sorts whose comparison the platform provides. */
module Orders {
  import opened Lists

  type Order = (string, string) -> bool

  ghost predicate StrictTotal(less: Order) {
    && (forall a, b :: less(a, b) ==> a != b && !less(b, a))
    && (forall a, b :: a != b ==> less(a, b) || less(b, a))
    && (forall a, b, c :: less(a, b) && less(b, c) ==> less(a, c))
  }

  ghost predicate Ascending(less: Order, s: seq<string>) {
    forall i, j :: 0 <= i < j < |s| ==> less(s[i], s[j])
  }

  function Place(less: Order, x: string, s: seq<string>): (r: seq<string>)
    ensures forall y :: y in r <==> y == x || y in s
  {
    if s == [] || less(x, s[0]) then [x] + s else [s[0]] + Place(less, x, s[1..])
  }

  function Sort(less: Order, s: seq<string>): (r: seq<string>)
    ensures forall y :: y in r <==> y in s
  {
    if s == [] then [] else Place(less, s[0], Sort(less, s[1..]))
  }

  lemma {:induction false} PlaceSorts(less: Order, x: string, s: seq<string>)
    requires StrictTotal(less) && Ascending(less, s) && x !in s
    ensures Ascending(less, Place(less, x, s))
  {
    hide StrictTotal;
    if s != [] {
      StrictTotalAt(less, x, s[0]);
      if less(x, s[0]) {
        forall j | 0 <= j < |s| ensures less(x, s[j]) {
          if j > 0 {
            Transitive(less, x, s[0], s[j]);
          }
        }
      } else {
        var rest := Place(less, x, s[1..]);
        PlaceSorts(less, x, s[1..]);
        forall j | 0 <= j < |rest| ensures less(s[0], rest[j]) {
          assert rest[j] in rest;
        }
      }
    }
  }

  lemma StrictTotalAt(less: Order, a: string, b: string)
    requires StrictTotal(less) && a != b
    ensures less(a, b) || less(b, a)
  {
  }

  lemma Transitive(less: Order, a: string, b: string, c: string)
    requires StrictTotal(less) && less(a, b) && less(b, c)
    ensures less(a, c)
  {
  }

  /** Sorting distinct strings leaves each exactly once, in strictly ascending order. */
  lemma {:induction false} SortSorts(less: Order, s: seq<string>)
    requires StrictTotal(less) && NoRepeats(s)
    ensures Ascending(less, Sort(less, s))
  {
    hide StrictTotal;
    if s != [] {
      SortSorts(less, s[1..]);
      PlaceSorts(less, s[0], Sort(less, s[1..]));
    }
  }
}
