/** JSON read as data: objects are maps, their member order forgotten. */
module Values {
  import opened Wrappers
  import opened Text

  datatype Value =
    | VUndef | VNull | VBool(b: bool) | VNum(n: int) | VStr(s: string)
    | VArr(elements: seq<Value>) | VObj(fields: map<string, Value>)

  /** Reading a field: undefined when it is missing, or when there is no record to read it from. */
  function Get(v: Value, key: string): Value {
    if v.VObj? && key in v.fields then v.fields[key] else VUndef
  }

  /** Following a path of fields, giving up at the first thing that is not a record. */
  function Nested(v: Value, path: seq<string>): Value
    decreases |path|
  {
    if path == [] then v else Nested(Get(v, path[0]), path[1..])
  }

  function NestedRecord(v: Value, path: seq<string>): Option<Value> {
    var r := Nested(v, path);
    if r.VObj? then Some(r) else None
  }

  /** A trimmed string, when the value is one and not blank. */
  function OptionalString(v: Value): (r: Option<string>)
    ensures r.Some? ==> v.VStr? && r.value == Trim(v.s) && r.value != ""
  {
    if v.VStr? && Trim(v.s) != "" then Some(Trim(v.s)) else None
  }

  /** A text that counts: a string that is not blank. */
  ghost predicate Filled(v: Value) { v.VStr? && Trim(v.s) != "" }

  /** The first of three that is a text that counts, trimmed, if any is. */
  ghost predicate FirstText(r: Option<string>, a: Value, b: Value, c: Value) {
    && (Filled(a) ==> r == Some(Trim(a.s)))
    && (!Filled(a) && Filled(b) ==> r == Some(Trim(b.s)))
    && (!Filled(a) && !Filled(b) && Filled(c) ==> r == Some(Trim(c.s)))
    && (!Filled(a) && !Filled(b) && !Filled(c) ==> r == None)
  }

  /** The first of three that is a record, if any is. */
  ghost predicate FirstRecord(r: Option<Value>, a: Value, b: Value, c: Value) {
    && (a.VObj? ==> r == Some(a))
    && (!a.VObj? && b.VObj? ==> r == Some(b))
    && (!a.VObj? && !b.VObj? && c.VObj? ==> r == Some(c))
    && (!a.VObj? && !b.VObj? && !c.VObj? ==> r == None)
  }

  /** What a payment is told apart by: its idempotency key, else its payment id. */
  function Identifier(payload: Value): Option<string> {
    OrElse(OptionalString(Get(payload, "idempotencyKey")), OptionalString(Get(payload, "paymentId")))
  }

  /** The idempotency key wins, when it is a string and not blank. */
  lemma IdentifierMeans(payload: Value)
    ensures var key, id := Get(payload, "idempotencyKey"), Get(payload, "paymentId");
            && (key.VStr? && Trim(key.s) != "" ==> Identifier(payload) == Some(Trim(key.s)))
            && (!key.VStr? || Trim(key.s) == "" ==>
                  && (id.VStr? && Trim(id.s) != "" ==> Identifier(payload) == Some(Trim(id.s)))
                  && (!id.VStr? || Trim(id.s) == "" ==> Identifier(payload) == None))
  {
    hide Trim;
  }

  function NestedString(v: Value, path: seq<string>): Option<string> {
    OptionalString(Nested(v, path))
  }

  function Elements(v: Value): seq<Value> {
    if v.VArr? then v.elements else []
  }

  /** Strict equality of parsed JSON: two separately built objects or arrays are never identical. */
  predicate StrictEq(a: Value, b: Value) {
    a == b && !a.VArr? && !a.VObj?
  }

  predicate Truthy(v: Value) {
    match v
    case VUndef => false
    case VNull => false
    case VBool(b) => b
    case VNum(n) => n != 0
    case VStr(s) => s != ""
    case _ => true
  }

  lemma FalsyValues(v: Value)
    ensures !Truthy(v) <==> v in {VUndef, VNull, VBool(false), VNum(0), VStr("")}
  {
  }

  /** The first defined of several. */
  function OrElse<T>(a: Option<T>, b: Option<T>): Option<T> {
    if a.Some? then a else b
  }

  predicate SameAddress(lower: string -> string, a: Value, b: Value) {
    a.VStr? && b.VStr? && lower(Trim(a.s)) == lower(Trim(b.s))
  }

  /** Addresses are texts, alike up to white space around them and to what lower case makes one. */
  lemma SameAddressIff(lower: string -> string, a: Value, b: Value)
    ensures SameAddress(lower, a, b) ==> a.VStr? && b.VStr? && SameAddress(lower, b, a)
    ensures a.VStr? ==> SameAddress(lower, a, VStr(Trim(a.s)))
    ensures a.VStr? && b.VStr? && Trim(a.s) == a.s && Trim(b.s) == b.s ==>
              (SameAddress(lower, a, b) <==> lower(a.s) == lower(b.s))
  {
    hide Trim;
  }

  function Find(vs: seq<Value>, p: Value -> bool): (r: Option<Value>)
    ensures r.Some? ==> p(r.value) && r.value in vs
    ensures r.None? ==> forall v :: v in vs ==> !p(v)
  {
    if vs == [] then None else if p(vs[0]) then Some(vs[0]) else Find(vs[1..], p)
  }

  lemma {:induction false} FindsFirst(vs: seq<Value>, p: Value -> bool, i: nat)
    requires i < |vs| && p(vs[i]) && forall j :: 0 <= j < i ==> !p(vs[j])
    ensures Find(vs, p) == Some(vs[i])
  {
    if i > 0 {
      assert !p(vs[0]);
      FindsFirst(vs[1..], p, i - 1);
    }
  }

  lemma Nested2(v: Value, a: string, b: string)
    ensures Nested(v, [a, b]) == Get(Get(v, a), b)
  {
    assert [a, b][1..] == [b] && [b][1..] == [];
    assert Nested(Get(v, a), [b]) == Nested(Get(Get(v, a), b), []);
  }

  lemma Nested3(v: Value, a: string, b: string, c: string)
    ensures Nested(v, [a, b, c]) == Get(Get(Get(v, a), b), c)
  {
    assert [a, b, c][1..] == [b, c];
    Nested2(Get(v, a), b, c);
  }

  lemma Nested4(v: Value, a: string, b: string, c: string, d: string)
    ensures Nested(v, [a, b, c, d]) == Get(Get(Get(Get(v, a), b), c), d)
  {
    assert [a, b, c, d][1..] == [b, c, d];
    Nested3(Get(v, a), b, c, d);
  }
}
