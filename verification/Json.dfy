/** JSON values as the services build them: object members keep insertion order, and a member may be undefined. */
module Json {
  import opened Wrappers
  import opened Text
  import opened Decimal

  datatype Json =
    | Undef
    | Null
    | Bool(b: bool)
    | Num(n: int)
    | Str(s: string)
    | Arr(items: Items)
    | Obj(members: Members)

  datatype Items = NoItems | Item(head: Json, tail: Items)

  datatype Members = NoMembers | Member(key: string, value: Json, rest: Members)

  function Keys(ms: Members): set<string> {
    if ms.NoMembers? then {} else {ms.key} + Keys(ms.rest)
  }

  /** Every object has distinct keys, as in any JavaScript value. */
  predicate WellFormed(j: Json) {
    match j
    case Arr(items) => WellFormedItems(items)
    case Obj(ms) => WellFormedMembers(ms)
    case _ => true
  }

  predicate WellFormedItems(items: Items) {
    items.Item? ==> WellFormed(items.head) && WellFormedItems(items.tail)
  }

  predicate WellFormedMembers(ms: Members) {
    ms.Member? ==> ms.key !in Keys(ms.rest) && WellFormed(ms.value) && WellFormedMembers(ms.rest)
  }

  // ---- text ----

  /** One character inside a string literal, escaped as in section 7 of RFC 8259. */
  function EscapeChar(c: char): (e: string)
    ensures e != []
  {
    if c == '"' then "\\\""
    else if c == '\\' then "\\\\"
    else if c as int == 8 then "\\b"
    else if c as int == 9 then "\\t"
    else if c as int == 10 then "\\n"
    else if c as int == 12 then "\\f"
    else if c as int == 13 then "\\r"
    else if (c as int) < 32 then "\\u00" + [HexChar(c as int / 16), HexChar(c as int % 16)]
    else [c]
  }

  /** The character an escape stands for, as in section 7 of RFC 8259; four hexadecimal digits give its number. */
  function Unescaped(e: string): Option<char> {
    if |e| == 1 && e[0] != '\\' && e[0] != '"' && e[0] as int >= 32 then Some(e[0])
    else if |e| == 6 && e[..4] == "\\u00" && e[4] in "01" && IsHex(e[5]) then
      Some((16 * HexDigit(e[4]) + HexDigit(e[5])) as char)
    else if |e| != 2 || e[0] != '\\' then None
    else
      match e[1]
      case '"' => Some('"')
      case '\\' => Some('\\')
      case 'b' => Some(8 as char)
      case 't' => Some(9 as char)
      case 'n' => Some(10 as char)
      case 'f' => Some(12 as char)
      case 'r' => Some(13 as char)
      case _ => None
  }

  /** An escape reads back as its character, and takes two characters wherever there is such a short form. */
  lemma EscapeReads(c: char)
    ensures Unescaped(EscapeChar(c)) == Some(c)
    ensures |EscapeChar(c)| == 2 <==> c == '"' || c == '\\' || (8 <= c as int <= 13 && c as int != 11)
    ensures |EscapeChar(c)| == 6 <==> (c as int) < 32 && |EscapeChar(c)| != 2
  {
  }

  /** The rest of a string literal, closing quote included. */
  function LiteralTail(s: string): string {
    if s == [] then "\"" else EscapeChar(s[0]) + LiteralTail(s[1..])
  }

  function Quote(s: string): string {
    "\"" + LiteralTail(s)
  }

  /**
   Printing in the order the value is stored. An undefined member prints its name; an undefined element prints nothing.
   */
  function Flat(j: Json): string
    decreases j, 0
  {
    match j
    case Undef => "undefined"
    case Null => "null"
    case Bool(b) => if b then "true" else "false"
    case Num(n) => IntText(n)
    case Str(s) => Quote(s)
    case Arr(items) => "[" + FlatItems(items)
    case Obj(ms) => "{" + FlatMembers(ms)
  }

  function FlatElement(j: Json): string
    decreases j, 1
  {
    if j.Undef? then "" else Flat(j)
  }

  function FlatItems(items: Items): string
    decreases items, 0
  {
    if items.NoItems? then "]" else FlatElement(items.head) + FlatMoreItems(items.tail)
  }

  function FlatMoreItems(items: Items): string
    decreases items, 0
  {
    if items.NoItems? then "]" else "," + FlatElement(items.head) + FlatMoreItems(items.tail)
  }

  function FlatMembers(ms: Members): string
    decreases ms, 0
  {
    if ms.NoMembers? then "}" else FlatMember(ms.key, ms.value) + FlatMoreMembers(ms.rest)
  }

  function FlatMoreMembers(ms: Members): string
    decreases ms, 0
  {
    if ms.NoMembers? then "}" else "," + FlatMember(ms.key, ms.value) + FlatMoreMembers(ms.rest)
  }

  function FlatMember(key: string, value: Json): string
    decreases value, 1
  {
    Quote(key) + ":" + Flat(value)
  }

  // ---- printing is injective ----

  /** No array is just one undefined element: printing cannot tell that from the empty array. */
  predicate NoLoneHole(j: Json) {
    match j
    case Arr(items) => items != Item(Undef, NoItems) && NoLoneHoleItems(items)
    case Obj(ms) => NoLoneHoleMembers(ms)
    case _ => true
  }

  predicate NoLoneHoleItems(items: Items) {
    items.Item? ==> NoLoneHole(items.head) && NoLoneHoleItems(items.tail)
  }

  predicate NoLoneHoleMembers(ms: Members) {
    ms.Member? ==> NoLoneHole(ms.value) && NoLoneHoleMembers(ms.rest)
  }

  /** What may follow a value: nothing, a comma or a closing bracket. */
  predicate Stop(r: string) {
    r == [] || r[0] == ',' || r[0] == ']' || r[0] == '}'
  }

  lemma Cancel(p: string, q: string, r: string, s: string)
    requires p + r == q + s && |p| == |q|
    ensures p == q && r == s
  {
    assert p == (p + r)[..|p|] == q;
    assert r == (p + r)[|p|..] == s;
  }

  lemma EscapeIsPrefixCode(c: char, d: char, r: string, s: string)
    requires EscapeChar(c) + r == EscapeChar(d) + s
    ensures c == d && r == s
  {
    var x, y := EscapeChar(c) + r, EscapeChar(d) + s;
    assert x[0] == EscapeChar(c)[0] && y[0] == EscapeChar(d)[0];
    if x[0] == '\\' {
      assert x[1] == EscapeChar(c)[1] && y[1] == EscapeChar(d)[1];
      if x[1] == 'u' {
        assert x[4] == EscapeChar(c)[4] && y[4] == EscapeChar(d)[4];
        assert x[5] == EscapeChar(c)[5] && y[5] == EscapeChar(d)[5];
      }
    }
    assert c == d;
    Cancel(EscapeChar(c), EscapeChar(d), r, s);
  }

  lemma EscapeFirst(c: char)
    ensures EscapeChar(c)[0] != '"'
  {
  }

  lemma LiteralStart(a: string)
    requires a != []
    ensures LiteralTail(a) == EscapeChar(a[0]) + LiteralTail(a[1..])
  {
    hide EscapeChar;
  }

  lemma LiteralFirst(a: string, r: string)
    ensures LiteralTail(a) != []
    ensures (LiteralTail(a) + r)[0] == '"' <==> a == []
    ensures a != [] ==> LiteralTail(a) + r == EscapeChar(a[0]) + (LiteralTail(a[1..]) + r)
  {
    hide EscapeChar;
    if a != [] {
      hide LiteralTail;
      LiteralStart(a);
      EscapeFirst(a[0]);
      FirstOf(EscapeChar(a[0]), LiteralTail(a[1..]), r);
    }
  }

  lemma FirstOf(a: string, b: string, c: string)
    requires a != []
    ensures a + b != [] && (a + b + c)[0] == a[0] && a + b + c == a + (b + c)
  {
  }

  lemma {:induction false} LiteralInjective(a: string, b: string, r: string, s: string)
    requires LiteralTail(a) + r == LiteralTail(b) + s
    ensures a == b && r == s
  {
    hide EscapeChar;
    LiteralFirst(a, r);
    LiteralFirst(b, s);
    if a == [] {
      Cancel("\"", "\"", r, s);
    } else {
      EscapeIsPrefixCode(a[0], b[0], LiteralTail(a[1..]) + r, LiteralTail(b[1..]) + s);
      LiteralInjective(a[1..], b[1..], r, s);
      assert a == [a[0]] + a[1..] && b == [b[0]] + b[1..];
    }
  }

  lemma QuoteInjective(a: string, b: string, r: string, s: string)
    requires Quote(a) + r == Quote(b) + s
    ensures a == b && r == s
  {
    hide LiteralTail;
    assert Quote(a) + r == "\"" + (LiteralTail(a) + r) && Quote(b) + s == "\"" + (LiteralTail(b) + s);
    Cancel("\"", "\"", LiteralTail(a) + r, LiteralTail(b) + s);
    LiteralInjective(a, b, r, s);
  }

  predicate NumeralChar(c: char) { IsDigit(c) || c == '-' }

  lemma IntTextNumeral(n: int)
    ensures forall i :: 0 <= i < |IntText(n)| ==> NumeralChar(IntText(n)[i])
  {
    hide NatText;
  }

  lemma IntTextInjective(m: int, n: int)
    requires IntText(m) == IntText(n)
    ensures m == n
  {
    hide NatText, NatValue;
    assert m < 0 ==> IntText(m)[1..] == NatText(-m);
    assert n < 0 ==> IntText(n)[1..] == NatText(-n);
  }

  /** How far the leading numeral of a text reaches. */
  function Munch(x: string): nat {
    if x == [] || !NumeralChar(x[0]) then 0 else 1 + Munch(x[1..])
  }

  lemma {:induction false} MunchLength(p: string, r: string)
    requires Stop(r) && forall i :: 0 <= i < |p| ==> NumeralChar(p[i])
    ensures Munch(p + r) == |p|
  {
    if p == [] {
      assert p + r == r;
    } else {
      assert (p + r)[1..] == p[1..] + r;
      MunchLength(p[1..], r);
    }
  }

  lemma NumeralMunch(m: int, n: int, r: string, s: string)
    requires IntText(m) + r == IntText(n) + s && Stop(r) && Stop(s)
    ensures m == n && r == s
  {
    hide IntText, Munch;
    IntTextNumeral(m);
    IntTextNumeral(n);
    MunchLength(IntText(m), r);
    MunchLength(IntText(n), s);
    Cancel(IntText(m), IntText(n), r, s);
    IntTextInjective(m, n);
  }

  /** The first character tells what kind of value follows. */
  function Lead(j: Json): char {
    match j
    case Undef => 'u'
    case Null => 'n'
    case Bool(b) => if b then 't' else 'f'
    case Num(n) => IntText(n)[0]
    case Str(s) => '"'
    case Arr(items) => '['
    case Obj(ms) => '{'
  }

  lemma FlatLead(j: Json, r: string)
    ensures Flat(j) != [] && Flat(j)[0] == Lead(j) && (Flat(j) + r)[0] == Lead(j)
    ensures j.Num? <==> NumeralChar(Lead(j))
    ensures Lead(j) != ']' && Lead(j) != '}' && Lead(j) != ','
  {
    hide IntText, LiteralTail, FlatItems, FlatMembers;
    if j.Num? { IntTextNumeral(j.n); }
  }

  lemma {:induction false} FlatInjective(a: Json, b: Json, r: string, s: string)
    requires NoLoneHole(a) && NoLoneHole(b) && Stop(r) && Stop(s)
    requires Flat(a) + r == Flat(b) + s
    ensures a == b && r == s
    decreases a, 1
  {
    hide IntText, Quote, FlatItems, FlatMembers;
    FlatLead(a, r);
    FlatLead(b, s);
    match a
    case Undef => Cancel(Flat(a), Flat(b), r, s);
    case Null => Cancel(Flat(a), Flat(b), r, s);
    case Bool(_) => Cancel(Flat(a), Flat(b), r, s);
    case Num(m) =>
      NumeralMunch(m, b.n, r, s);
    case Str(t) => QuoteInjective(t, b.s, r, s);
    case Arr(x) =>
      assert Flat(a) + r == "[" + (FlatItems(x) + r) && Flat(b) + s == "[" + (FlatItems(b.items) + s);
      Cancel("[", "[", FlatItems(x) + r, FlatItems(b.items) + s);
      ItemsInjective(x, b.items, r, s);
    case Obj(x) =>
      assert Flat(a) + r == "{" + (FlatMembers(x) + r) && Flat(b) + s == "{" + (FlatMembers(b.members) + s);
      Cancel("{", "{", FlatMembers(x) + r, FlatMembers(b.members) + s);
      MembersInjective(x, b.members, r, s);
  }

  lemma MoreItemsStop(x: Items, r: string)
    ensures Stop(FlatMoreItems(x) + r)
    ensures (FlatMoreItems(x) + r)[0] == if x.NoItems? then ']' else ','
  {
    hide Flat;
  }

  lemma MoreMembersStop(x: Members, r: string)
    ensures Stop(FlatMoreMembers(x) + r)
    ensures (FlatMoreMembers(x) + r)[0] == if x.NoMembers? then '}' else ','
  {
    hide FlatMember;
  }

  lemma {:induction false} ItemsInjective(x: Items, y: Items, r: string, s: string)
    requires NoLoneHoleItems(x) && NoLoneHoleItems(y) && x != Item(Undef, NoItems) && y != Item(Undef, NoItems)
    requires FlatItems(x) + r == FlatItems(y) + s
    ensures x == y && r == s
    decreases x, 2
  {
    hide FlatElement;
    ItemsFirst(x, r);
    ItemsFirst(y, s);
    if x.Item? {
      ElementInjective(x.head, y.head, FlatMoreItems(x.tail) + r, FlatMoreItems(y.tail) + s);
      MoreItemsInjective(x.tail, y.tail, r, s);
    } else {
      Cancel("]", "]", r, s);
    }
  }

  lemma ItemsFirst(x: Items, r: string)
    requires NoLoneHoleItems(x) && x != Item(Undef, NoItems)
    ensures FlatItems(x) != []
    ensures (FlatItems(x) + r)[0] == ']' <==> x.NoItems?
    ensures x.Item? ==> FlatItems(x) + r == FlatElement(x.head) + (FlatMoreItems(x.tail) + r)
    ensures x.Item? ==> Stop(FlatMoreItems(x.tail) + r) && FlatMoreItems(x.tail) + r != []
  {
    hide Flat;
    if x.Item? {
      MoreItemsStop(x.tail, r);
      FlatLead(x.head, FlatMoreItems(x.tail) + r);
    }
  }

  /** An element is printed or, when undefined, left out; what follows tells which. */
  lemma {:induction false} ElementInjective(a: Json, b: Json, p: string, q: string)
    requires NoLoneHole(a) && NoLoneHole(b) && Stop(p) && Stop(q) && p != [] && q != []
    requires FlatElement(a) + p == FlatElement(b) + q
    ensures a == b && p == q
    decreases a, 2
  {
    hide Flat;
    FlatLead(a, p);
    FlatLead(b, q);
    if a.Undef? {
      assert FlatElement(a) + p == p;
      assert b.Undef? ==> FlatElement(b) + q == q;
    } else {
      assert b.Undef? ==> FlatElement(b) + q == q;
      FlatInjective(a, b, p, q);
    }
  }

  lemma {:induction false} MoreItemsInjective(x: Items, y: Items, r: string, s: string)
    requires NoLoneHoleItems(x) && NoLoneHoleItems(y)
    requires FlatMoreItems(x) + r == FlatMoreItems(y) + s
    ensures x == y && r == s
    decreases x, 1
  {
    hide FlatElement;
    MoreItemsStop(x, r);
    MoreItemsStop(y, s);
    if x.Item? {
      var p, q := FlatMoreItems(x.tail) + r, FlatMoreItems(y.tail) + s;
      assert FlatMoreItems(x) + r == "," + (FlatElement(x.head) + p);
      assert FlatMoreItems(y) + s == "," + (FlatElement(y.head) + q);
      Cancel(",", ",", FlatElement(x.head) + p, FlatElement(y.head) + q);
      MoreItemsStop(x.tail, r);
      MoreItemsStop(y.tail, s);
      ElementInjective(x.head, y.head, p, q);
      MoreItemsInjective(x.tail, y.tail, r, s);
    } else {
      Cancel("]", "]", r, s);
    }
  }

  lemma {:induction false} MembersInjective(x: Members, y: Members, r: string, s: string)
    requires NoLoneHoleMembers(x) && NoLoneHoleMembers(y)
    requires FlatMembers(x) + r == FlatMembers(y) + s
    ensures x == y && r == s
    decreases x, 1
  {
    hide Flat, LiteralTail;
    MembersFirst(x, r);
    MembersFirst(y, s);
    if x.Member? {
      MemberInjective(x, y, r, s);
    } else {
      Cancel("}", "}", r, s);
    }
  }

  lemma MembersFirst(x: Members, r: string)
    ensures FlatMembers(x) != []
    ensures (FlatMembers(x) + r)[0] == if x.NoMembers? then '}' else '"'
  {
    hide Flat, LiteralTail;
  }

  lemma {:induction false} MoreMembersInjective(x: Members, y: Members, r: string, s: string)
    requires NoLoneHoleMembers(x) && NoLoneHoleMembers(y)
    requires FlatMoreMembers(x) + r == FlatMoreMembers(y) + s
    ensures x == y && r == s
    decreases x, 1
  {
    hide FlatMember;
    MoreMembersStop(x, r);
    MoreMembersStop(y, s);
    if x.Member? {
      assert FlatMoreMembers(x) + r == "," + (FlatMembers(x) + r);
      assert FlatMoreMembers(y) + s == "," + (FlatMembers(y) + s);
      Cancel(",", ",", FlatMembers(x) + r, FlatMembers(y) + s);
      MemberInjective(x, y, r, s);
    } else {
      Cancel("}", "}", r, s);
    }
  }

  lemma {:induction false} MemberInjective(x: Members, y: Members, r: string, s: string)
    requires NoLoneHoleMembers(x) && NoLoneHoleMembers(y) && x.Member? && y.Member?
    requires FlatMembers(x) + r == FlatMembers(y) + s
    ensures x == y && r == s
    decreases x, 0
  {
    hide Flat, Quote;
    var p, q := FlatMoreMembers(x.rest) + r, FlatMoreMembers(y.rest) + s;
    assert FlatMembers(x) + r == Quote(x.key) + (":" + (Flat(x.value) + p));
    assert FlatMembers(y) + s == Quote(y.key) + (":" + (Flat(y.value) + q));
    QuoteInjective(x.key, y.key, ":" + (Flat(x.value) + p), ":" + (Flat(y.value) + q));
    Cancel(":", ":", Flat(x.value) + p, Flat(y.value) + q);
    MoreMembersStop(x.rest, r);
    MoreMembersStop(y.rest, s);
    FlatInjective(x.value, y.value, p, q);
    MoreMembersInjective(x.rest, y.rest, r, s);
  }
}
