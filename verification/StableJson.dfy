/** Canonical JSON text: the two key-sorting printers and what their output determines. */
module StableJson {
  import opened Wrappers
  import opened Text
  import opened Json
  import opened Values
  import opened Orders

  function Insert(less: Order, key: string, value: Json, ms: Members): Members {
    if ms.NoMembers? || less(key, ms.key) then Member(key, value, ms)
    else Member(ms.key, ms.value, Insert(less, key, value, ms.rest))
  }

  /** Every object's members sorted by key, at every depth. */
  function Canon(less: Order, j: Json): Json {
    match j
    case Arr(items) => Arr(CanonItems(less, items))
    case Obj(ms) => Obj(CanonMembers(less, ms))
    case _ => j
  }

  function CanonItems(less: Order, items: Items): Items {
    if items.NoItems? then NoItems else Item(Canon(less, items.head), CanonItems(less, items.tail))
  }

  function CanonMembers(less: Order, ms: Members): Members {
    if ms.NoMembers? then NoMembers else Insert(less, ms.key, Canon(less, ms.value), CanonMembers(less, ms.rest))
  }

  /** The web console's printer: keys sorted, undefined members kept. */
  function StableJsonStringify(less: Order, j: Json): string {
    Flat(Canon(less, j))
  }

  /** Undefined members left out, at every depth. */
  function Drop(j: Json): Json {
    match j
    case Arr(items) => Arr(DropItems(items))
    case Obj(ms) => Obj(DropMembers(ms))
    case _ => j
  }

  function DropItems(items: Items): Items {
    if items.NoItems? then NoItems else Item(Drop(items.head), DropItems(items.tail))
  }

  function DropMembers(ms: Members): Members {
    if ms.NoMembers? then NoMembers
    else if ms.value.Undef? then DropMembers(ms.rest)
    else Member(ms.key, Drop(ms.value), DropMembers(ms.rest))
  }

  /** The SDK's printer: undefined members dropped, then keys sorted. */
  function StableText(less: Order, j: Json): string {
    StableJsonStringify(less, Drop(j))
  }

  // ---- what a value means: objects as unordered maps ----

  function Meaning(j: Json): Value {
    match j
    case Undef => VUndef
    case Null => VNull
    case Bool(b) => VBool(b)
    case Num(n) => VNum(n)
    case Str(s) => VStr(s)
    case Arr(items) => VArr(MeaningItems(items))
    case Obj(ms) => VObj(MeaningMembers(ms))
  }

  function MeaningItems(items: Items): seq<Value> {
    if items.NoItems? then [] else [Meaning(items.head)] + MeaningItems(items.tail)
  }

  function MeaningMembers(ms: Members): (m: map<string, Value>)
    ensures m.Keys == Keys(ms)
  {
    if ms.NoMembers? then map[] else MeaningMembers(ms.rest)[ms.key := Meaning(ms.value)]
  }

  // ---- sorting keeps the meaning and fixes the order ----

  ghost predicate Sorted(less: Order, j: Json) {
    match j
    case Arr(items) => SortedItems(less, items)
    case Obj(ms) => SortedMembers(less, ms)
    case _ => true
  }

  ghost predicate SortedItems(less: Order, items: Items) {
    items.Item? ==> Sorted(less, items.head) && SortedItems(less, items.tail)
  }

  ghost predicate SortedMembers(less: Order, ms: Members) {
    ms.Member? ==>
      && (forall k :: k in Keys(ms.rest) ==> less(ms.key, k))
      && Sorted(less, ms.value) && SortedMembers(less, ms.rest)
  }

  lemma {:induction false} InsertMeans(less: Order, key: string, value: Json, ms: Members)
    requires key !in Keys(ms)
    ensures var r := Insert(less, key, value, ms);
            && Keys(r) == {key} + Keys(ms)
            && MeaningMembers(r) == MeaningMembers(ms)[key := Meaning(value)]
            && (NoLoneHole(value) && NoLoneHoleMembers(ms) ==> NoLoneHoleMembers(r))
  {
    hide Meaning, NoLoneHole;
    if ms.Member? && !less(key, ms.key) {
      InsertMeans(less, key, value, ms.rest);
      Swap(MeaningMembers(ms.rest), key, Meaning(value), ms.key, Meaning(ms.value));
    }
  }

  lemma Swap(m: map<string, Value>, a: string, u: Value, b: string, v: Value)
    requires a != b
    ensures m[a := u][b := v] == m[b := v][a := u]
  {
  }

  lemma {:induction false} InsertSorts(less: Order, key: string, value: Json, ms: Members)
    requires StrictTotal(less) && key !in Keys(ms) && Sorted(less, value) && SortedMembers(less, ms)
    ensures SortedMembers(less, Insert(less, key, value, ms))
  {
    hide Sorted, MeaningMembers;
    if ms.Member? {
      if less(key, ms.key) {
        assert forall k :: k in Keys(ms) ==> less(key, k);
      } else {
        InsertMeans(less, key, value, ms.rest);
        InsertSorts(less, key, value, ms.rest);
      }
    }
  }

  lemma {:induction false} CanonKeeps(less: Order, j: Json)
    requires StrictTotal(less) && WellFormed(j)
    ensures var c := Canon(less, j);
            && Sorted(less, c) && Meaning(c) == Meaning(j)
            && (NoLoneHole(j) ==> NoLoneHole(c)) && (c.Undef? <==> j.Undef?)
    decreases j, 1
  {
    hide StrictTotal;
    match j
    case Arr(items) => CanonItemsKeep(less, items);
    case Obj(ms) => CanonMembersKeep(less, ms);
    case _ =>
  }

  lemma {:induction false} CanonItemsKeep(less: Order, items: Items)
    requires StrictTotal(less) && WellFormedItems(items)
    ensures var c := CanonItems(less, items);
            && SortedItems(less, c) && MeaningItems(c) == MeaningItems(items)
            && (NoLoneHoleItems(items) ==> NoLoneHoleItems(c))
            && (c == Item(Undef, NoItems) <==> items == Item(Undef, NoItems))
    decreases items, 0
  {
    hide StrictTotal;
    if items.Item? {
      CanonKeeps(less, items.head);
      CanonItemsKeep(less, items.tail);
    }
  }

  lemma {:induction false} CanonMembersKeep(less: Order, ms: Members)
    requires StrictTotal(less) && WellFormedMembers(ms)
    ensures var c := CanonMembers(less, ms);
            && SortedMembers(less, c) && MeaningMembers(c) == MeaningMembers(ms) && Keys(c) == Keys(ms)
            && (NoLoneHoleMembers(ms) ==> NoLoneHoleMembers(c))
    decreases ms, 0
  {
    hide StrictTotal;
    if ms.Member? {
      CanonKeeps(less, ms.value);
      CanonMembersKeep(less, ms.rest);
      InsertMeans(less, ms.key, Canon(less, ms.value), CanonMembers(less, ms.rest));
      InsertSorts(less, ms.key, Canon(less, ms.value), CanonMembers(less, ms.rest));
    }
  }

  /** A sorted value is determined by what it means. */
  lemma {:induction false} SortedUnique(less: Order, a: Json, b: Json)
    requires StrictTotal(less) && Sorted(less, a) && Sorted(less, b) && Meaning(a) == Meaning(b)
    ensures a == b
    decreases a, 1
  {
    hide StrictTotal;
    match a
    case Arr(items) => SortedItemsUnique(less, items, b.items);
    case Obj(ms) => SortedMembersUnique(less, ms, b.members);
    case _ =>
  }

  lemma {:induction false} SortedItemsUnique(less: Order, x: Items, y: Items)
    requires StrictTotal(less) && SortedItems(less, x) && SortedItems(less, y) && MeaningItems(x) == MeaningItems(y)
    ensures x == y
    decreases x, 0
  {
    hide StrictTotal, Meaning;
    var p, q := MeaningItems(x), MeaningItems(y);
    assert x.Item? <==> p != [];
    assert y.Item? <==> q != [];
    if x.Item? {
      assert p[0] == Meaning(x.head) && p[1..] == MeaningItems(x.tail);
      assert q[0] == Meaning(y.head) && q[1..] == MeaningItems(y.tail);
      SortedUnique(less, x.head, y.head);
      SortedItemsUnique(less, x.tail, y.tail);
    }
  }

  lemma {:induction false} SortedMembersUnique(less: Order, x: Members, y: Members)
    requires StrictTotal(less) && SortedMembers(less, x) && SortedMembers(less, y)
    requires MeaningMembers(x) == MeaningMembers(y)
    ensures x == y
    decreases x, 0
  {
    hide Meaning, Sorted;
    assert Keys(x) == Keys(y);
    NoKeys(x);
    NoKeys(y);
    if x.Member? {
      assert x.key in Keys(y) && y.key in Keys(x);
      assert x.key == y.key;
      assert x.key !in Keys(x.rest) && x.key !in Keys(y.rest);
      assert MeaningMembers(x.rest) == MeaningMembers(x) - {x.key};
      assert MeaningMembers(y.rest) == MeaningMembers(y) - {x.key};
      SortedUnique(less, x.value, y.value);
      SortedMembersUnique(less, x.rest, y.rest);
    }
  }

  lemma NoKeys(ms: Members)
    ensures Keys(ms) == {} <==> ms.NoMembers?
  {
    assert ms.Member? ==> ms.key in Keys(ms);
  }

  // ---- the one thing printing loses ----

  /** Arrays of just one undefined element replaced by empty ones, which print alike. */
  function Fill(j: Json): Json {
    match j
    case Arr(items) => if items == Item(Undef, NoItems) then Arr(NoItems) else Arr(FillItems(items))
    case Obj(ms) => Obj(FillMembers(ms))
    case _ => j
  }

  function FillItems(items: Items): Items {
    if items.NoItems? then NoItems else Item(Fill(items.head), FillItems(items.tail))
  }

  function FillMembers(ms: Members): Members {
    if ms.NoMembers? then NoMembers else Member(ms.key, Fill(ms.value), FillMembers(ms.rest))
  }

  lemma {:induction false} FillKeeps(j: Json)
    ensures NoLoneHole(Fill(j)) && (WellFormed(j) ==> WellFormed(Fill(j)))
    ensures Flat(Fill(j)) == Flat(j) && FlatElement(Fill(j)) == FlatElement(j)
    ensures NoLoneHole(j) ==> Fill(j) == j
    ensures Fill(j).Undef? <==> j.Undef?
    decreases j, 1
  {
    match j
    case Arr(items) => FillItemsKeep(items);
    case Obj(ms) => FillMembersKeep(ms);
    case _ =>
  }

  lemma {:induction false} FillItemsKeep(items: Items)
    ensures NoLoneHoleItems(FillItems(items)) && (WellFormedItems(items) ==> WellFormedItems(FillItems(items)))
    ensures FlatItems(FillItems(items)) == FlatItems(items) && FlatMoreItems(FillItems(items)) == FlatMoreItems(items)
    ensures NoLoneHoleItems(items) ==> FillItems(items) == items
    ensures FillItems(items) == Item(Undef, NoItems) ==> items == Item(Undef, NoItems)
    decreases items, 0
  {
    if items.Item? {
      FillKeeps(items.head);
      FillItemsKeep(items.tail);
    }
  }

  lemma {:induction false} FillMembersKeep(ms: Members)
    ensures NoLoneHoleMembers(FillMembers(ms)) && (WellFormedMembers(ms) ==> WellFormedMembers(FillMembers(ms)))
    ensures Keys(FillMembers(ms)) == Keys(ms)
    ensures FlatMembers(FillMembers(ms)) == FlatMembers(ms) && FlatMoreMembers(FillMembers(ms)) == FlatMoreMembers(ms)
    ensures NoLoneHoleMembers(ms) ==> FillMembers(ms) == ms
    decreases ms, 0
  {
    hide Quote;
    if ms.Member? {
      FillKeeps(ms.value);
      FillMembersKeep(ms.rest);
    }
  }

  lemma {:induction false} FillInsert(less: Order, key: string, value: Json, ms: Members)
    ensures FillMembers(Insert(less, key, value, ms)) == Insert(less, key, Fill(value), FillMembers(ms))
  {
    hide Fill;
    if ms.Member? {
      FillInsert(less, key, value, ms.rest);
    }
  }

  /** Filling and sorting commute. */
  lemma {:induction false} FillCanon(less: Order, j: Json)
    ensures Fill(Canon(less, j)) == Canon(less, Fill(j)) && (Canon(less, j).Undef? <==> j.Undef?)
    decreases j, 1
  {
    match j
    case Arr(items) => FillCanonItems(less, items);
    case Obj(ms) => FillCanonMembers(less, ms);
    case _ =>
  }

  lemma {:induction false} FillCanonItems(less: Order, items: Items)
    ensures FillItems(CanonItems(less, items)) == CanonItems(less, FillItems(items))
    ensures CanonItems(less, items) == Item(Undef, NoItems) <==> items == Item(Undef, NoItems)
    decreases items, 0
  {
    if items.Item? {
      FillCanon(less, items.head);
      FillCanonItems(less, items.tail);
    }
  }

  lemma {:induction false} FillCanonMembers(less: Order, ms: Members)
    ensures FillMembers(CanonMembers(less, ms)) == CanonMembers(less, FillMembers(ms))
    decreases ms, 0
  {
    if ms.Member? {
      FillCanon(less, ms.value);
      FillCanonMembers(less, ms.rest);
      FillInsert(less, ms.key, Canon(less, ms.value), CanonMembers(less, ms.rest));
    }
  }

  // ---- the results ----

  /**
   Two values print alike exactly when they mean the same, objects read as unordered maps, once arrays of just
   one undefined element are read as empty.
   */
  lemma StringifyDetermines(less: Order, a: Json, b: Json)
    requires StrictTotal(less) && WellFormed(a) && WellFormed(b)
    ensures StableJsonStringify(less, a) == StableJsonStringify(less, b) <==> Meaning(Fill(a)) == Meaning(Fill(b))
  {
    hide StrictTotal, Fill, Canon, Meaning, Flat, Sorted, NoLoneHole, WellFormed;
    FillKeeps(a);
    FillKeeps(b);
    FillKeeps(Canon(less, a));
    FillKeeps(Canon(less, b));
    FillCanon(less, a);
    FillCanon(less, b);
    var x, y := Canon(less, Fill(a)), Canon(less, Fill(b));
    CanonKeeps(less, Fill(a));
    CanonKeeps(less, Fill(b));
    if Flat(x) == Flat(y) {
      assert Flat(x) + "" == Flat(y) + "";
      FlatInjective(x, y, "", "");
    }
    if Meaning(x) == Meaning(y) {
      SortedUnique(less, x, y);
    }
  }

  /** Without such arrays, in particular without undefined at all, the text determines the value. */
  lemma StringifyInjective(less: Order, a: Json, b: Json)
    requires StrictTotal(less) && WellFormed(a) && WellFormed(b) && NoLoneHole(a) && NoLoneHole(b)
    ensures StableJsonStringify(less, a) == StableJsonStringify(less, b) <==> Meaning(a) == Meaning(b)
  {
    hide StrictTotal, Fill, Canon, Meaning, Flat, NoLoneHole, WellFormed;
    StringifyDetermines(less, a, b);
    FillKeeps(a);
    FillKeeps(b);
  }

  /** The exception is real: an array of one undefined element prints as the empty array. */
  lemma LoneHoleCollides(less: Order)
    ensures StableJsonStringify(less, Arr(Item(Undef, NoItems))) == StableJsonStringify(less, Arr(NoItems))
    ensures StableText(less, Arr(Item(Undef, NoItems))) == StableText(less, Arr(NoItems))
    ensures Meaning(Arr(Item(Undef, NoItems))) != Meaning(Arr(NoItems))
  {
    assert MeaningItems(Item(Undef, NoItems)) != [];
  }

  lemma {:induction false} DropKeeps(j: Json)
    ensures WellFormed(j) ==> WellFormed(Drop(j))
    ensures NoLoneHole(j) ==> NoLoneHole(Drop(j))
    ensures Drop(j).Undef? <==> j.Undef?
    decreases j, 1
  {
    match j
    case Arr(items) => DropItemsKeep(items);
    case Obj(ms) => DropMembersKeep(ms);
    case _ =>
  }

  lemma {:induction false} DropItemsKeep(items: Items)
    ensures WellFormedItems(items) ==> WellFormedItems(DropItems(items))
    ensures NoLoneHoleItems(items) ==> NoLoneHoleItems(DropItems(items))
    ensures DropItems(items) == Item(Undef, NoItems) <==> items == Item(Undef, NoItems)
    decreases items, 0
  {
    if items.Item? {
      DropKeeps(items.head);
      DropItemsKeep(items.tail);
    }
  }

  lemma {:induction false} DropMembersKeep(ms: Members)
    ensures Keys(DropMembers(ms)) <= Keys(ms)
    ensures WellFormedMembers(ms) ==> WellFormedMembers(DropMembers(ms))
    ensures NoLoneHoleMembers(ms) ==> NoLoneHoleMembers(DropMembers(ms))
    decreases ms, 0
  {
    if ms.Member? {
      DropKeeps(ms.value);
      DropMembersKeep(ms.rest);
    }
  }

  /**
   The SDK's text determines exactly the value up to the order of members, up to undefined ones and up to arrays of one
   undefined element, for every pair of values.
   */
  lemma StableTextDetermines(less: Order, a: Json, b: Json)
    requires StrictTotal(less) && WellFormed(a) && WellFormed(b)
    ensures StableText(less, a) == StableText(less, b) <==> Meaning(Fill(Drop(a))) == Meaning(Fill(Drop(b)))
  {
    hide StrictTotal, Drop, Fill, StableJsonStringify, Meaning, WellFormed;
    DropKeeps(a);
    DropKeeps(b);
    StringifyDetermines(less, Drop(a), Drop(b));
  }

  /** Without such arrays the text determines the value up to the order of members and up to undefined ones. */
  lemma StableTextInjective(less: Order, a: Json, b: Json)
    requires StrictTotal(less) && WellFormed(a) && WellFormed(b) && NoLoneHole(a) && NoLoneHole(b)
    ensures StableText(less, a) == StableText(less, b) <==> Meaning(Drop(a)) == Meaning(Drop(b))
  {
    hide StrictTotal, Drop, Fill, StableText, Meaning, NoLoneHole, WellFormed;
    DropKeeps(a);
    DropKeeps(b);
    FillKeeps(Drop(a));
    FillKeeps(Drop(b));
    StableTextDetermines(less, a, b);
  }

  datatype Artifact = Artifact(
    filename: string, contentType: string, sizeBytes: nat, digestSha256: string, url: Option<string>)

  datatype Envelope = Envelope(
    requestId: string, deliveredAt: string, channel: string, scanPolicy: string, artifact: Artifact,
    agentId: Option<string>, deliveryReceipt: Option<string>, signature: Option<string>, manifestUrl: Option<string>)

  function TextOrUndef(s: Option<string>): Json {
    if s.Some? then Str(s.value) else Undef
  }

  /** The part of an envelope its digest covers: the seller's signature is replaced by nothing. */
  function DigestedPart(e: Envelope): Json {
    Obj(Member("schema_version", Str("santaclawz-buyer-inbox-delivery/1.0"),
        Member("request_id", Str(e.requestId),
        Member("delivery_mode", Str("direct_receipt"),
        Member("transport", Str("buyer_agent_inbox"),
        Member("delivered_at_iso", Str(e.deliveredAt),
        Member("delivery_channel", Str(e.channel), DeliveredPart(e))))))))
  }

  function DeliveredPart(e: Envelope): Members {
    Member("scan_policy", Str(e.scanPolicy),
    Member("artifact", ArtifactJson(e.artifact),
    Member("seller", SellerJson(e),
    Member("santaclawz", PlatformJson(e), NoMembers))))
  }

  function SellerJson(e: Envelope): Json {
    Obj(
      Member("agent_id", TextOrUndef(e.agentId),
      Member("delivery_receipt", TextOrUndef(e.deliveryReceipt), NoMembers)))
  }

  function PlatformJson(e: Envelope): Json {
    Obj(Member("receipt_manifest_url", TextOrUndef(e.manifestUrl), NoMembers))
  }

  function ArtifactJson(a: Artifact): Json {
    Obj(Member("filename", Str(a.filename),
        Member("content_type", Str(a.contentType),
        Member("size_bytes", Num(a.sizeBytes),
        Member("digest_sha256", Str(a.digestSha256),
        Member("artifact_url", TextOrUndef(a.url), NoMembers))))))
  }

  lemma DroppedMember(key: string, value: Json, rest: Members)
    ensures Keys(DropMembers(Member(key, value, rest))) ==
            (if value.Undef? then {} else {key}) + Keys(DropMembers(rest))
  {
  }

  function Named(key: string, s: Option<string>): set<string> {
    if s.Some? then {key} else {}
  }

  /** What an envelope does not say is left out of the digested text. */
  lemma AbsentLeftOut(e: Envelope)
    ensures Keys(Drop(SellerJson(e)).members) ==
            Named("agent_id", e.agentId) + Named("delivery_receipt", e.deliveryReceipt)
    ensures Keys(Drop(PlatformJson(e)).members) == Named("receipt_manifest_url", e.manifestUrl)
    ensures Keys(Drop(ArtifactJson(e.artifact)).members) ==
            {"filename", "content_type", "size_bytes", "digest_sha256"} + Named("artifact_url", e.artifact.url)
  {
    assert DropMembers(NoMembers) == NoMembers;
    hide Keys, DropMembers;
    var seller, a, x := SellerJson(e).members, e.artifact, ArtifactJson(e.artifact).members;
    NoKeys(DropMembers(NoMembers));
    DroppedMember("delivery_receipt", TextOrUndef(e.deliveryReceipt), NoMembers);
    DroppedMember("agent_id", TextOrUndef(e.agentId), seller.rest);
    DroppedMember("receipt_manifest_url", TextOrUndef(e.manifestUrl), NoMembers);
    DroppedMember("artifact_url", TextOrUndef(a.url), NoMembers);
    DroppedMember("digest_sha256", Str(a.digestSha256), x.rest.rest.rest.rest);
    DroppedMember("size_bytes", Num(a.sizeBytes), x.rest.rest.rest);
    DroppedMember("content_type", Str(a.contentType), x.rest.rest);
    DroppedMember("filename", Str(a.filename), x.rest);
  }

  function EnvelopeDigest(less: Order, sha256: string -> string, e: Envelope): string {
    sha256(StableText(less, DigestedPart(e)))
  }

  /** A field of an object after dropping undefined members: absent, or what it means. */
  lemma {:induction false} DroppedField(ms: Members, key: string)
    requires WellFormedMembers(ms)
    ensures var m := MeaningMembers(DropMembers(ms));
            && (key in m ==> key in Keys(ms))
            && (ms.Member? && ms.key == key ==>
                  (key in m <==> !ms.value.Undef?) && (key in m ==> m[key] == Meaning(Drop(ms.value))))
            && (ms.Member? && ms.key != key ==>
                  var rest := MeaningMembers(DropMembers(ms.rest));
                  (key in m <==> key in rest) && (key in m ==> m[key] == rest[key]))
  {
    hide Meaning, Drop;
    DropMembersKeep(ms);
    if ms.Member? {
      DropMembersKeep(ms.rest);
    }
  }

  lemma {:induction false} MembersAgree(x: Members, y: Members)
    requires WellFormedMembers(x) && WellFormedMembers(y)
    requires x.Member? && y.Member? && x.key == y.key
    requires MeaningMembers(DropMembers(x)) == MeaningMembers(DropMembers(y))
    ensures x.value.Undef? <==> y.value.Undef?
    ensures Meaning(Drop(x.value)) == Meaning(Drop(y.value))
    ensures MeaningMembers(DropMembers(x.rest)) == MeaningMembers(DropMembers(y.rest))
  {
    hide Meaning, Drop;
    var k := x.key;
    DroppedField(x, k);
    DroppedField(y, k);
    DropMembersKeep(x.rest);
    DropMembersKeep(y.rest);
    UndefMeans(x.value);
    UndefMeans(y.value);
    assert MeaningMembers(DropMembers(x.rest)) == MeaningMembers(DropMembers(x)) - {k};
    assert MeaningMembers(DropMembers(y.rest)) == MeaningMembers(DropMembers(y)) - {k};
  }

  lemma UndefMeans(j: Json)
    ensures j.Undef? ==> Meaning(Drop(j)) == VUndef
  {
  }

  lemma TextOrUndefMeans(s: Option<string>, t: Option<string>)
    requires TextOrUndef(s).Undef? <==> TextOrUndef(t).Undef?
    requires Meaning(Drop(TextOrUndef(s))) == Meaning(Drop(TextOrUndef(t)))
    ensures s == t
  {
  }

  lemma ArtifactDetermined(a: Artifact, b: Artifact)
    requires Meaning(Drop(ArtifactJson(a))) == Meaning(Drop(ArtifactJson(b)))
    ensures a == b
  {
    hide DropMembers, MeaningMembers;
    ArtifactWellFormed(a);
    ArtifactWellFormed(b);
    var x, y := ArtifactJson(a).members, ArtifactJson(b).members;
    MembersAgree(x, y);
    MembersAgree(x.rest, y.rest);
    MembersAgree(x.rest.rest, y.rest.rest);
    MembersAgree(x.rest.rest.rest, y.rest.rest.rest);
    MembersAgree(x.rest.rest.rest.rest, y.rest.rest.rest.rest);
    TextOrUndefMeans(a.url, b.url);
  }

  /** Well-formed and free of lone holes, one member at a time. */
  ghost predicate Clean(ms: Members) {
    WellFormedMembers(ms) && NoLoneHoleMembers(ms)
  }

  lemma AddMember(key: string, value: Json, ms: Members)
    requires Clean(ms) && key !in Keys(ms) && WellFormed(value) && NoLoneHole(value)
    ensures Clean(Member(key, value, ms)) && Keys(Member(key, value, ms)) == {key} + Keys(ms)
  {
  }

  lemma ArtifactWellFormed(a: Artifact)
    ensures WellFormed(ArtifactJson(a)) && NoLoneHole(ArtifactJson(a))
  {
    hide Keys;
    var x := ArtifactJson(a).members;
    assert Clean(NoMembers) && Keys(NoMembers) == {} by { NoKeys(NoMembers); }
    AddMember("artifact_url", TextOrUndef(a.url), NoMembers);
    AddMember("digest_sha256", Str(a.digestSha256), x.rest.rest.rest.rest);
    AddMember("size_bytes", Num(a.sizeBytes), x.rest.rest.rest);
    AddMember("content_type", Str(a.contentType), x.rest.rest);
    AddMember("filename", Str(a.filename), x.rest);
    assert Clean(x);
  }

  lemma DeliveredClean(e: Envelope)
    ensures Clean(DeliveredPart(e)) && Keys(DeliveredPart(e)) == {"scan_policy", "artifact", "seller", "santaclawz"}
  {
    hide Keys, ArtifactJson, SellerJson, PlatformJson;
    var x := DeliveredPart(e);
    NoKeys(NoMembers);
    ArtifactWellFormed(e.artifact);
    LeavesClean(e);
    AddMember("santaclawz", PlatformJson(e), NoMembers);
    AddMember("seller", SellerJson(e), x.rest.rest.rest);
    AddMember("artifact", ArtifactJson(e.artifact), x.rest.rest);
    AddMember("scan_policy", x.value, x.rest);
  }

  lemma PartWellFormed(e: Envelope)
    ensures WellFormed(DigestedPart(e)) && NoLoneHole(DigestedPart(e))
  {
    hide Keys, DeliveredPart;
    var x := DigestedPart(e).members;
    DeliveredClean(e);
    AddMember("delivery_channel", Str(e.channel), DeliveredPart(e));
    AddMember("delivered_at_iso", Str(e.deliveredAt), x.rest.rest.rest.rest.rest);
    AddMember("transport", x.rest.rest.rest.value, x.rest.rest.rest.rest);
    AddMember("delivery_mode", x.rest.rest.value, x.rest.rest.rest);
    AddMember("request_id", x.rest.value, x.rest.rest);
    AddMember("schema_version", x.value, x.rest);
    assert Clean(x);
  }

  lemma LeavesClean(e: Envelope)
    ensures WellFormed(SellerJson(e)) && NoLoneHole(SellerJson(e))
    ensures WellFormed(PlatformJson(e)) && NoLoneHole(PlatformJson(e))
  {
    hide Keys;
    NoKeys(NoMembers);
    AddMember("delivery_receipt", TextOrUndef(e.deliveryReceipt), NoMembers);
    var receipt := Member("delivery_receipt", TextOrUndef(e.deliveryReceipt), NoMembers);
    AddMember("agent_id", TextOrUndef(e.agentId), receipt);
    AddMember("receipt_manifest_url", TextOrUndef(e.manifestUrl), NoMembers);
  }

  lemma LeavesDetermined(e: Envelope, f: Envelope)
    ensures Meaning(Drop(SellerJson(e))) == Meaning(Drop(SellerJson(f))) ==>
              e.agentId == f.agentId && e.deliveryReceipt == f.deliveryReceipt
    ensures Meaning(Drop(PlatformJson(e))) == Meaning(Drop(PlatformJson(f))) ==> e.manifestUrl == f.manifestUrl
  {
    hide DropMembers, MeaningMembers, TextOrUndef;
    LeavesClean(e);
    LeavesClean(f);
    if Meaning(Drop(SellerJson(e))) == Meaning(Drop(SellerJson(f))) {
      MembersAgree(SellerJson(e).members, SellerJson(f).members);
      MembersAgree(SellerJson(e).members.rest, SellerJson(f).members.rest);
      TextOrUndefMeans(e.agentId, f.agentId);
      TextOrUndefMeans(e.deliveryReceipt, f.deliveryReceipt);
    }
    if Meaning(Drop(PlatformJson(e))) == Meaning(Drop(PlatformJson(f))) {
      MembersAgree(PlatformJson(e).members, PlatformJson(f).members);
      TextOrUndefMeans(e.manifestUrl, f.manifestUrl);
    }
  }

  lemma DeliveredDetermined(e: Envelope, f: Envelope)
    requires MeaningMembers(DropMembers(DeliveredPart(e))) == MeaningMembers(DropMembers(DeliveredPart(f)))
    ensures e.scanPolicy == f.scanPolicy && e.artifact == f.artifact
    ensures e.agentId == f.agentId && e.deliveryReceipt == f.deliveryReceipt && e.manifestUrl == f.manifestUrl
  {
    hide DropMembers, MeaningMembers, ArtifactJson, SellerJson, PlatformJson;
    DeliveredClean(e);
    DeliveredClean(f);
    var x, y := DeliveredPart(e), DeliveredPart(f);
    MembersAgree(x, y);
    MembersAgree(x.rest, y.rest);
    MembersAgree(x.rest.rest, y.rest.rest);
    MembersAgree(x.rest.rest.rest, y.rest.rest.rest);
    ArtifactDetermined(e.artifact, f.artifact);
    LeavesDetermined(e, f);
  }

  lemma PartDetermined(e: Envelope, f: Envelope)
    requires Meaning(Drop(DigestedPart(e))) == Meaning(Drop(DigestedPart(f)))
    ensures e.(signature := None) == f.(signature := None)
  {
    hide DropMembers, MeaningMembers, DeliveredPart;
    PartWellFormed(e);
    PartWellFormed(f);
    var x, y := DigestedPart(e).members, DigestedPart(f).members;
    MembersAgree(x, y);
    MembersAgree(x.rest, y.rest);
    MembersAgree(x.rest.rest, y.rest.rest);
    MembersAgree(x.rest.rest.rest, y.rest.rest.rest);
    MembersAgree(x.rest.rest.rest.rest, y.rest.rest.rest.rest);
    MembersAgree(x.rest.rest.rest.rest.rest, y.rest.rest.rest.rest.rest);
    DeliveredDetermined(e, f);
  }

  /** With a collision-free hash, two envelopes have one digest exactly when they differ in the signature at most. */
  lemma DigestIgnoresOnlySignature(less: Order, sha256: string -> string, e: Envelope, f: Envelope)
    requires StrictTotal(less) && Injective(sha256)
    ensures EnvelopeDigest(less, sha256, e) == EnvelopeDigest(less, sha256, f) <==>
            e.(signature := None) == f.(signature := None)
  {
    hide StrictTotal, DigestedPart, StableText, Drop, Meaning;
    PartWellFormed(e);
    PartWellFormed(f);
    StableTextInjective(less, DigestedPart(e), DigestedPart(f));
    if Meaning(Drop(DigestedPart(e))) == Meaning(Drop(DigestedPart(f))) {
      PartDetermined(e, f);
    }
    SignatureUnused(e);
    SignatureUnused(f);
  }

  lemma SignatureUnused(e: Envelope)
    ensures DigestedPart(e) == DigestedPart(e.(signature := None))
  {
  }
}
