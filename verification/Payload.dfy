/** The payment requirement, the payloads buyers build from it, and the check a payload must pass before settlement. */
module Payload {
  import opened Wrappers
  import opened Text
  import opened Lists
  import opened Decimal
  import opened Values
  import FeePolicy
  import RailPlans

  const SPLIT_MODEL := "x402-exact-evm-fee-split-v1"

  type Lower = string -> string

  // ---- the requirement ----

  datatype RuntimeRail = RuntimeRail(
    rail: FeePolicy.Rail, networkId: string, settlementRail: string, payTo: Option<string>)

  function PayToValue(rail: RuntimeRail): Value {
    if rail.payTo.Some? then VStr(rail.payTo.value) else VUndef
  }

  predicate RailMatches(lower: Lower, accept: Value, rail: RuntimeRail) {
    && VStr(rail.networkId) == Get(accept, "network") && VStr(rail.settlementRail) == Get(accept, "settlementRail")
    && SameAddress(lower, PayToValue(rail), Get(accept, "payTo"))
  }

  function MatchingRuntimeRail(lower: Lower, accept: Value, rails: seq<RuntimeRail>): (r: Option<RuntimeRail>)
    ensures r.Some? ==> r.value.payTo.Some? && SameAddress(lower, PayToValue(r.value), Get(accept, "payTo"))
    ensures r.Some? ==> VStr(r.value.networkId) == Get(accept, "network")
    ensures r.Some? ==> VStr(r.value.settlementRail) == Get(accept, "settlementRail")
    ensures r.Some? ==> r.value in rails
    ensures r.None? ==> forall rail :: rail in rails ==> !RailMatches(lower, accept, rail)
  {
    if rails == [] then None
    else if RailMatches(lower, accept, rails[0]) then Some(rails[0])
    else MatchingRuntimeRail(lower, accept, rails[1..])
  }

  /** The split a plan's preview gives a runtime rail. */
  function PlannedSplit(previews: seq<FeePolicy.Preview>, rail: Option<RuntimeRail>): Option<RailPlans.Split> {
    if rail.None? then None else RailPlans.ExactSplit(FeePolicy.FindPreview(previews, rail.value.rail))
  }

  function SplitRecord(split: RailPlans.Split, payTo: string): Value {
    VObj(map[
      "version" := VStr("protocol-owner-fee-v1"),
      "sellerPayTo" := VStr(payTo),
      "protocolFeePayTo" := VStr(split.protocolFeePayTo),
      "feeBps" := VNum(split.feeBps),
      "grossAmount" := VStr(split.gross),
      "sellerAmount" := VStr(split.seller),
      "protocolFeeAmount" := VStr(split.fee),
      "feeSettlementMode" := VStr("exact-eip3009-split-v1")])
  }

  /** The split an accept ends up with: its own, else the plan's for an exact-split accept. */
  function SplitFor(
      lower: Lower, accept: Value, previews: seq<FeePolicy.Preview>, rails: seq<RuntimeRail>): Option<Value>
  {
    var existing := NestedRecord(accept, ["extensions", "evm", "feeSplit"]);
    var rail := MatchingRuntimeRail(lower, accept, rails);
    var planned := PlannedSplit(previews, rail);
    if existing.Some? then existing
    else if Get(accept, "settlementModel") == VStr(SPLIT_MODEL) && planned.Some? && rail.value.payTo.value != ""
    then Some(SplitRecord(planned.value, rail.value.payTo.value))
    else None
  }

  function Fields(v: Value): map<string, Value> {
    if v.VObj? then v.fields else map[]
  }

  /** The accept with its amount forced to the split's gross and the split written into its extensions. */
  function WriteSplit(accept: Value, split: Value, gross: string): Value {
    var extensions := Get(accept, "extensions");
    var evm := Get(extensions, "evm");
    VObj(Fields(accept)[
      "amount" := VStr(gross)][
      "extensions" := VObj(Fields(extensions)[
        "evm" := VObj(Fields(evm)["amountUnit" := VStr("atomic")]["feeSplit" := split])])])
  }

  function NormalizeAccept(
      lower: Lower, accept: Value, previews: seq<FeePolicy.Preview>, rails: seq<RuntimeRail>): Value
  {
    if !accept.VObj? then accept
    else
      var split := SplitFor(lower, accept, previews, rails);
      var amount := if split.Some? then Get(split.value, "grossAmount") else VUndef;
      var gross := if amount.VStr? then Trim(amount.s) else "";
      if gross == "" || !AllDigits(gross) then accept else WriteSplit(accept, split.value, gross)
  }

  function NormalizeAccepts(
      lower: Lower, accepts: seq<Value>, previews: seq<FeePolicy.Preview>, rails: seq<RuntimeRail>): (r: seq<Value>)
    ensures |r| == |accepts|
    ensures forall i :: 0 <= i < |accepts| ==> r[i] == NormalizeAccept(lower, accepts[i], previews, rails)
  {
    if accepts == [] then []
    else [NormalizeAccept(lower, accepts[0], previews, rails)] + NormalizeAccepts(lower, accepts[1..], previews, rails)
  }

  function Normalize(lower: Lower, required: Value, previews: seq<FeePolicy.Preview>, rails: seq<RuntimeRail>): Value {
    var accepts := NormalizeAccepts(lower, Elements(Get(required, "accepts")), previews, rails);
    VObj(Fields(required)["accepts" := VArr(accepts)])
  }

  lemma WrittenFields(accept: Value, split: Value, gross: string)
    requires split.VObj?
    ensures var w := WriteSplit(accept, split, gross);
            && w.VObj?
            && NestedRecord(w, ["extensions", "evm", "feeSplit"]) == Some(split)
            && Get(w, "amount") == VStr(gross)
            && Nested(w, ["extensions", "evm", "amountUnit"]) == VStr("atomic")
            && (forall k :: k != "amount" && k != "extensions" ==> Get(w, k) == Get(accept, k))
            && (forall k :: k != "evm" ==> Get(Get(w, "extensions"), k) == Get(Get(accept, "extensions"), k))
            && (forall k :: k != "amountUnit" && k != "feeSplit" ==>
                  Get(Get(Get(w, "extensions"), "evm"), k) == Get(Get(Get(accept, "extensions"), "evm"), k))
            && WriteSplit(w, split, gross) == w
  {
    hide Nested;
    var w := WriteSplit(accept, split, gross);
    var e := Get(w, "extensions");
    var evm := Get(e, "evm");
    Nested3(w, "extensions", "evm", "feeSplit");
    Nested3(w, "extensions", "evm", "amountUnit");
    assert Fields(evm)["amountUnit" := VStr("atomic")]["feeSplit" := split] == Fields(evm);
    assert Fields(e)["evm" := evm] == Fields(e);
    assert Fields(w)["amount" := VStr(gross)]["extensions" := e] == Fields(w);
  }

  lemma NormalizeAcceptIdempotent(
      lower: Lower, accept: Value, previews: seq<FeePolicy.Preview>, rails: seq<RuntimeRail>)
    ensures var n := NormalizeAccept(lower, accept, previews, rails);
            NormalizeAccept(lower, n, previews, rails) == n
  {
    hide WriteSplit, MatchingRuntimeRail, PlannedSplit, Trim, NestedRecord, SplitRecord;
    if accept.VObj? {
      var split := SplitFor(lower, accept, previews, rails);
      if split.Some? && Get(split.value, "grossAmount").VStr? {
        SplitRecordIsObject();
        RecordIsObject(accept, ["extensions", "evm", "feeSplit"]);
        assert split.value.VObj?;
        WrittenFields(accept, split.value, Trim(Get(split.value, "grossAmount").s));
      }
    }
  }

  lemma SplitRecordIsObject()
    ensures forall s, p :: SplitRecord(s, p).VObj?
  {
  }

  lemma RecordIsObject(v: Value, path: seq<string>)
    ensures NestedRecord(v, path).Some? ==> NestedRecord(v, path).value.VObj?
  {
  }

  /** An accept with a split of its own keeps it; its amount becomes that split's gross if that is a whole number. */
  lemma NormalizedOwn(lower: Lower, accept: Value, previews: seq<FeePolicy.Preview>, rails: seq<RuntimeRail>)
    requires accept.VObj? && Get(Get(Get(accept, "extensions"), "evm"), "feeSplit").VObj?
    ensures var own := Get(Get(Get(accept, "extensions"), "evm"), "feeSplit");
            var gross, n := Get(own, "grossAmount"), NormalizeAccept(lower, accept, previews, rails);
            if gross.VStr? && Trim(gross.s) != "" && AllDigits(Trim(gross.s))
            then n == WriteSplit(accept, own, Trim(gross.s)) && Get(n, "amount") == VStr(Trim(gross.s))
            else n == accept
  {
    hide WriteSplit, MatchingRuntimeRail, PlannedSplit, Trim, Nested, Get, SplitRecord, AllDigits;
    var own := Get(Get(Get(accept, "extensions"), "evm"), "feeSplit");
    var gross := Get(own, "grossAmount");
    Nested3(accept, "extensions", "evm", "feeSplit");
    if gross.VStr? {
      WrittenFields(accept, own, Trim(gross.s));
    }
  }

  lemma NormalizedWithout(lower: Lower, accept: Value, previews: seq<FeePolicy.Preview>, rails: seq<RuntimeRail>)
    requires SplitFor(lower, accept, previews, rails).None?
    ensures NormalizeAccept(lower, accept, previews, rails) == accept
  {
    hide SplitFor;
  }

  /** Normalizing a requirement twice changes nothing the second time. */
  lemma NormalizeIdempotent(lower: Lower, required: Value, previews: seq<FeePolicy.Preview>, rails: seq<RuntimeRail>)
    ensures var n := Normalize(lower, required, previews, rails);
            Normalize(lower, n, previews, rails) == n
  {
    hide NormalizeAccept;
    var n := Normalize(lower, required, previews, rails);
    var once := Get(n, "accepts").elements;
    forall i | 0 <= i < |once| ensures NormalizeAccept(lower, once[i], previews, rails) == once[i] {
      NormalizeAcceptIdempotent(lower, Elements(Get(required, "accepts"))[i], previews, rails);
    }
    assert NormalizeAccepts(lower, once, previews, rails) == once;
    assert Fields(n)["accepts" := VArr(once)] == Fields(n);
  }

  // ---- the check before settlement ----

  /** The fields the check can complain about. */
  datatype Field =
    | Protocol | NetworkId | SettlementRail | PayTo | PaymentIdentifier | Accepted | AcceptedAsset | AcceptedAmount
    | Gross | Seller | Fee | SellerPayTo | FeePayTo | HostedFeeSplit | FeeAuthorization
    | SignedSeller | SignedFee | Amount

  datatype ShapeError =
    | Malformed(missing: seq<Field>)
    | NoSplitMetadata
    | SplitMalformed(missing: seq<Field>)
    | SplitMismatch(fields: seq<Field>)

  predicate AcceptMatches(lower: Lower, accept: Value, payload: Value) {
    && accept.VObj?
    && StrictEq(Get(accept, "network"), Get(payload, "networkId"))
    && StrictEq(Get(accept, "settlementRail"), Get(payload, "settlementRail"))
    && SameAddress(lower, Get(accept, "payTo"), Get(payload, "payTo"))
  }

  function MatchingAccept(lower: Lower, required: Value, payload: Value): Option<Value> {
    Find(Elements(Get(required, "accepts")), a => AcceptMatches(lower, a, payload))
  }

  function HostedSplit(payload: Value): Option<Value> {
    OrElse(
      NestedRecord(payload, ["accepted", "extra", "feeSplit"]),
      OrElse(
        NestedRecord(payload, ["extensions", "santaclawz", "feeSplit"]),
        NestedRecord(payload, ["extensions", "evm", "feeSplit"])))
  }

  function SellerValue(payload: Value): Option<string> {
    OrElse(
      NestedString(payload, ["payload", "authorization", "value"]),
      OrElse(
        NestedString(payload, ["authorization", "typedData", "message", "value"]),
        NestedString(payload, ["authorization", "authorization", "value"])))
  }

  function FeeValue(payload: Value): Option<string> {
    OrElse(
      NestedString(payload, ["payload", "feeAuthorization", "authorization", "value"]),
      OrElse(
        NestedString(payload, ["feeAuthorization", "typedData", "message", "value"]),
        NestedString(payload, ["feeAuthorization", "authorization", "value"])))
  }

  /** The fields every payload for the hosted facilitator carries. */
  predicate WellShaped(payload: Value) {
    && Get(payload, "protocol") == VStr("x402")
    && Get(payload, "networkId").VStr? && Get(payload, "settlementRail").VStr? && Get(payload, "payTo").VStr?
    && Identifier(payload).Some?
    && Get(payload, "accepted").VObj?
    && Get(Get(payload, "accepted"), "asset").VStr? && Get(Get(payload, "accepted"), "amount").VStr?
  }

  /** What the requirement advertises, trimmed; the seller's address may come from the accept itself. */
  datatype Terms = Terms(
    gross: Option<string>, seller: Option<string>, fee: Option<string>,
    sellerPayTo: Option<string>, feePayTo: Option<string>)

  function TermsOf(accept: Value, split: Value): Terms {
    Terms(
      OptionalString(Get(split, "grossAmount")),
      OptionalString(Get(split, "sellerAmount")),
      OptionalString(Get(split, "protocolFeeAmount")),
      OrElse(OptionalString(Get(split, "sellerPayTo")), OptionalString(Get(accept, "payTo"))),
      OptionalString(Get(split, "protocolFeePayTo")))
  }

  predicate FeeAuthorized(payload: Value) {
    Truthy(Get(payload, "feeAuthorization")) || NestedRecord(payload, ["payload", "feeAuthorization"]).Some?
  }

  predicate Complete(payload: Value, terms: Terms) {
    && terms.gross.Some? && terms.seller.Some? && terms.fee.Some? && terms.sellerPayTo.Some? && terms.feePayTo.Some?
    && HostedSplit(payload).Some? && FeeAuthorized(payload)
    && SellerValue(payload).Some? && FeeValue(payload).Some?
  }

  predicate Agrees(lower: Lower, payload: Value, terms: Terms)
    requires Complete(payload, terms)
  {
    var hosted := HostedSplit(payload).value;
    && Get(hosted, "grossAmount") == VStr(terms.gross.value)
    && Get(hosted, "sellerAmount") == VStr(terms.seller.value)
    && Get(hosted, "protocolFeeAmount") == VStr(terms.fee.value)
    && SameAddress(lower, Get(hosted, "sellerPayTo"), VStr(terms.sellerPayTo.value))
    && SameAddress(lower, Get(hosted, "protocolFeePayTo"), VStr(terms.feePayTo.value))
    && Get(payload, "amount") == VStr(terms.gross.value)
    && SellerValue(payload) == terms.seller
    && FeeValue(payload) == terms.fee
  }

  /** Accepted on the terms of a given accept (none when nothing matched). */
  predicate AcceptedOn(lower: Lower, payload: Value, accept: Option<Value>) {
    var a := if accept.Some? then accept.value else VUndef;
    var split := NestedRecord(a, ["extensions", "evm", "feeSplit"]);
    && (split.Some? ==> Complete(payload, TermsOf(a, split.value)) && Agrees(lower, payload, TermsOf(a, split.value)))
    && (split.None? ==> Get(a, "settlementModel") != VStr(SPLIT_MODEL))
  }

  predicate Accepts(lower: Lower, payload: Value, hostedEvm: bool, required: Value) {
    hostedEvm ==> WellShaped(payload) && AcceptedOn(lower, payload, MatchingAccept(lower, required, payload))
  }

  /** Which accept a payload is held against: the first that is a record on its network and rail with its payee. */
  lemma MatchedFirst(lower: Lower, required: Value, payload: Value, i: nat)
    requires var accepts := Elements(Get(required, "accepts"));
             var network, rail := Get(payload, "networkId"), Get(payload, "settlementRail");
             var payee := Get(payload, "payTo");
             && i < |accepts| && network.VStr? && rail.VStr? && payee.VStr?
             && forall j :: 0 <= j <= i ==>
                  (j == i <==>
                    && accepts[j].VObj? && Get(accepts[j], "network") == network
                    && Get(accepts[j], "settlementRail") == rail && Get(accepts[j], "payTo").VStr?
                    && lower(Trim(Get(accepts[j], "payTo").s)) == lower(Trim(payee.s)))
    ensures MatchingAccept(lower, required, payload) == Some(Elements(Get(required, "accepts"))[i])
  {
    hide Get, Trim;
    FindsFirst(Elements(Get(required, "accepts")), a => AcceptMatches(lower, a, payload), i);
  }

  /** Where the check looks for the payload's own copy of the split, and for what the two authorizations sign. */
  lemma LooksFor(payload: Value)
    ensures var extensions, inner := Get(payload, "extensions"), Get(payload, "payload");
            var seller, fee := Get(payload, "authorization"), Get(payload, "feeAuthorization");
            && FirstRecord(
                 HostedSplit(payload), Get(Get(Get(payload, "accepted"), "extra"), "feeSplit"),
                 Get(Get(extensions, "santaclawz"), "feeSplit"), Get(Get(extensions, "evm"), "feeSplit"))
            && FirstText(
                 SellerValue(payload), Get(Get(inner, "authorization"), "value"),
                 Get(Get(Get(seller, "typedData"), "message"), "value"), Get(Get(seller, "authorization"), "value"))
            && FirstText(
                 FeeValue(payload), Get(Get(Get(inner, "feeAuthorization"), "authorization"), "value"),
                 Get(Get(Get(fee, "typedData"), "message"), "value"), Get(Get(fee, "authorization"), "value"))
            && (FeeAuthorized(payload) <==> Truthy(fee) || Get(inner, "feeAuthorization").VObj?)
  {
    hide Get, Nested, Trim, Truthy;
    Nested3(payload, "accepted", "extra", "feeSplit");
    Nested3(payload, "extensions", "santaclawz", "feeSplit");
    Nested3(payload, "extensions", "evm", "feeSplit");
    Nested3(payload, "payload", "authorization", "value");
    Nested4(payload, "authorization", "typedData", "message", "value");
    Nested3(payload, "authorization", "authorization", "value");
    Nested4(payload, "payload", "feeAuthorization", "authorization", "value");
    Nested4(payload, "feeAuthorization", "typedData", "message", "value");
    Nested3(payload, "feeAuthorization", "authorization", "value");
    Nested2(payload, "payload", "feeAuthorization");
  }

  lemma TermsMean(accept: Value, split: Value)
    ensures var terms := TermsOf(accept, split);
            && FirstText(terms.gross, Get(split, "grossAmount"), VUndef, VUndef)
            && FirstText(terms.seller, Get(split, "sellerAmount"), VUndef, VUndef)
            && FirstText(terms.fee, Get(split, "protocolFeeAmount"), VUndef, VUndef)
            && FirstText(terms.sellerPayTo, Get(split, "sellerPayTo"), Get(accept, "payTo"), VUndef)
            && FirstText(terms.feePayTo, Get(split, "protocolFeePayTo"), VUndef, VUndef)
  {
    hide Get, Trim;
  }

  // What a refusal names

  /** A list of fields with one more, if there is cause. */
  function Note(s: seq<Field>, lacking: bool, f: Field): (r: seq<Field>)
    ensures |r| == |s| + if lacking then 1 else 0
    ensures forall g :: g in r <==> g in s || (lacking && g == f)
  {
    PushWhen(s, lacking, f)
  }

  /** The field every payload carries, and this one does not. */
  ghost predicate LacksField(payload: Value, f: Field) {
    var accepted := Get(payload, "accepted");
    match f
    case Protocol => Get(payload, "protocol") != VStr("x402")
    case NetworkId => !Get(payload, "networkId").VStr?
    case SettlementRail => !Get(payload, "settlementRail").VStr?
    case PayTo => !Get(payload, "payTo").VStr?
    case PaymentIdentifier => Identifier(payload).None?
    case Accepted => !accepted.VObj?
    case AcceptedAsset => accepted.VObj? && !Get(accepted, "asset").VStr?
    case AcceptedAmount => accepted.VObj? && !Get(accepted, "amount").VStr?
    case _ => false
  }

  /** The part of a split that is missing, in the requirement or in the payload. */
  ghost predicate LacksTerm(payload: Value, terms: Terms, f: Field) {
    match f
    case Gross => terms.gross.None?
    case Seller => terms.seller.None?
    case Fee => terms.fee.None?
    case SellerPayTo => terms.sellerPayTo.None?
    case FeePayTo => terms.feePayTo.None?
    case HostedFeeSplit => HostedSplit(payload).None?
    case FeeAuthorization => !FeeAuthorized(payload)
    case SignedSeller => SellerValue(payload).None?
    case SignedFee => FeeValue(payload).None?
    case _ => false
  }

  /** The part of a split that the payload has otherwise than advertised. */
  ghost predicate Disagrees(lower: Lower, payload: Value, terms: Terms, f: Field)
    requires Complete(payload, terms)
  {
    var hosted := HostedSplit(payload).value;
    match f
    case Gross => Get(hosted, "grossAmount") != VStr(terms.gross.value)
    case Seller => Get(hosted, "sellerAmount") != VStr(terms.seller.value)
    case Fee => Get(hosted, "protocolFeeAmount") != VStr(terms.fee.value)
    case SellerPayTo => !SameAddress(lower, Get(hosted, "sellerPayTo"), VStr(terms.sellerPayTo.value))
    case FeePayTo => !SameAddress(lower, Get(hosted, "protocolFeePayTo"), VStr(terms.feePayTo.value))
    case Amount => Get(payload, "amount") != VStr(terms.gross.value)
    case SignedSeller => SellerValue(payload) != terms.seller
    case SignedFee => FeeValue(payload) != terms.fee
    case _ => false
  }

  /** A refusal names exactly what is wrong, and all of it: of the shape, or else on the terms of the accept. */
  ghost predicate Explains(lower: Lower, error: ShapeError, payload: Value, matched: Option<Value>) {
    var a := if matched.Some? then matched.value else VUndef;
    var split := NestedRecord(a, ["extensions", "evm", "feeSplit"]);
    match error
    case Malformed(missing) => missing != [] && forall f :: f in missing <==> LacksField(payload, f)
    case NoSplitMetadata => split.None?
    case SplitMalformed(missing) =>
      && split.Some? && missing != []
      && forall f :: f in missing <==> LacksTerm(payload, TermsOf(a, split.value), f)
    case SplitMismatch(fields) =>
      && split.Some? && fields != [] && Complete(payload, TermsOf(a, split.value))
      && forall f :: f in fields <==> Disagrees(lower, payload, TermsOf(a, split.value), f)
  }

  /** The shape's gaps, in the order they are looked for. */
  function ShapeGaps(payload: Value): (r: seq<Field>) {
    var missing := TopGaps(payload);
    var accepted := Get(payload, "accepted");
    if !accepted.VObj? then missing + [Accepted]
    else
      var missing := Note(missing, !Get(accepted, "asset").VStr?, AcceptedAsset);
      Note(missing, !Get(accepted, "amount").VStr?, AcceptedAmount)
  }

  function TopGaps(payload: Value): (r: seq<Field>) {
    var missing := Note([], Get(payload, "protocol") != VStr("x402"), Protocol);
    var missing := Note(missing, !Get(payload, "networkId").VStr?, NetworkId);
    var missing := Note(missing, !Get(payload, "settlementRail").VStr?, SettlementRail);
    var missing := Note(missing, !Get(payload, "payTo").VStr?, PayTo);
    Note(missing, Identifier(payload).None?, PaymentIdentifier)
  }

  /** The split's gaps, in the order they are looked for. */
  function SplitGaps(payload: Value, terms: Terms): seq<Field> {
    var missing := Note([], terms.gross.None?, Gross);
    var missing := Note(missing, terms.seller.None?, Seller);
    var missing := Note(missing, terms.fee.None?, Fee);
    var missing := Note(missing, terms.sellerPayTo.None?, SellerPayTo);
    var missing := Note(missing, terms.feePayTo.None?, FeePayTo);
    var missing := Note(missing, HostedSplit(payload).None?, HostedFeeSplit);
    var missing := Note(missing, !FeeAuthorized(payload), FeeAuthorization);
    var missing := Note(missing, SellerValue(payload).None?, SignedSeller);
    Note(missing, FeeValue(payload).None?, SignedFee)
  }

  /** The split's disagreements, in the order they are looked for. */
  function Disagreements(lower: Lower, payload: Value, terms: Terms): seq<Field>
    requires Complete(payload, terms)
  {
    var wrong := HostedDisagreements(lower, payload, terms);
    var wrong := Note(wrong, Get(payload, "amount") != VStr(terms.gross.value), Amount);
    var wrong := Note(wrong, SellerValue(payload) != terms.seller, SignedSeller);
    Note(wrong, FeeValue(payload) != terms.fee, SignedFee)
  }

  function HostedDisagreements(lower: Lower, payload: Value, terms: Terms): seq<Field>
    requires Complete(payload, terms)
  {
    var hosted := HostedSplit(payload).value;
    var wrong := Note([], Get(hosted, "grossAmount") != VStr(terms.gross.value), Gross);
    var wrong := Note(wrong, Get(hosted, "sellerAmount") != VStr(terms.seller.value), Seller);
    var wrong := Note(wrong, Get(hosted, "protocolFeeAmount") != VStr(terms.fee.value), Fee);
    var wrong := Note(
        wrong, !SameAddress(lower, Get(hosted, "sellerPayTo"), VStr(terms.sellerPayTo.value)), SellerPayTo);
    Note(wrong, !SameAddress(lower, Get(hosted, "protocolFeePayTo"), VStr(terms.feePayTo.value)), FeePayTo)
  }

  /** They are exactly the fields that are lacking, and there are none exactly for the well shaped. */
  lemma ShapeGapsMean(payload: Value)
    ensures forall f :: f in ShapeGaps(payload) <==> LacksField(payload, f)
    ensures |ShapeGaps(payload)| == 0 <==> WellShaped(payload)
  {
    hide Get, Identifier, Note, TopGaps;
    TopGapsMean(payload);
  }

  lemma TopGapsMean(payload: Value)
    ensures forall f :: f in TopGaps(payload) <==>
              LacksField(payload, f) && !f.Accepted? && !f.AcceptedAsset? && !f.AcceptedAmount?
    ensures |TopGaps(payload)| == 0 <==>
            && !LacksField(payload, Protocol) && !LacksField(payload, NetworkId)
            && !LacksField(payload, SettlementRail) && !LacksField(payload, PayTo)
            && !LacksField(payload, PaymentIdentifier)
  {
    hide Get, Identifier, Note;
  }

  lemma ShapeExplained(lower: Lower, payload: Value, missing: seq<Field>, matched: Option<Value>)
    requires missing != [] && forall f :: f in missing <==> LacksField(payload, f)
    ensures Explains(lower, Malformed(missing), payload, matched)
  {
    hide LacksField;
  }

  lemma SplitGapsMean(payload: Value, terms: Terms)
    ensures forall f :: f in SplitGaps(payload, terms) <==> LacksTerm(payload, terms, f)
    ensures |SplitGaps(payload, terms)| == 0 <==> Complete(payload, terms)
  {
    hide HostedSplit, SellerValue, FeeValue, FeeAuthorized, Note;
  }

  lemma DisagreementsMean(lower: Lower, payload: Value, terms: Terms)
    requires Complete(payload, terms)
    ensures forall f :: f in Disagreements(lower, payload, terms) <==> Disagrees(lower, payload, terms, f)
  {
    hide HostedSplit, SellerValue, FeeValue, FeeAuthorized, SameAddress, Get, Note, HostedDisagreements;
    HostedDisagreementsMean(lower, payload, terms);
  }

  lemma NoDisagreement(lower: Lower, payload: Value, terms: Terms)
    requires Complete(payload, terms)
    ensures |Disagreements(lower, payload, terms)| == 0 <==> Agrees(lower, payload, terms)
  {
    hide HostedSplit, SellerValue, FeeValue, FeeAuthorized, SameAddress, Get, Note, HostedDisagreements;
    HostedDisagreementsMean(lower, payload, terms);
  }

  lemma HostedDisagreementsMean(lower: Lower, payload: Value, terms: Terms)
    requires Complete(payload, terms)
    ensures var wrong := HostedDisagreements(lower, payload, terms);
            && (forall f :: f in wrong <==>
                  && Disagrees(lower, payload, terms, f)
                  && (f.Gross? || f.Seller? || f.Fee? || f.SellerPayTo? || f.FeePayTo?))
            && (|wrong| == 0 <==>
                && !Disagrees(lower, payload, terms, Gross) && !Disagrees(lower, payload, terms, Seller)
                && !Disagrees(lower, payload, terms, Fee) && !Disagrees(lower, payload, terms, SellerPayTo)
                && !Disagrees(lower, payload, terms, FeePayTo))
  {
    hide HostedSplit, SellerValue, FeeValue, FeeAuthorized, SameAddress, Get, Note;
  }

  method AssertHostedFacilitatorPayloadShape(lower: Lower, payload: Value, hostedEvm: bool, required: Value)
    returns (result: Result<(), ShapeError>)
    ensures result.Ok? <==> Accepts(lower, payload, hostedEvm, required)
    ensures result.Err? && result.error.Malformed? <==> hostedEvm && !WellShaped(payload)
    ensures result.Err? ==> Explains(lower, result.error, payload, MatchingAccept(lower, required, payload))
  {
    hide WellShaped, LacksField, MatchingAccept, AcceptedOn, Explains, ShapeGaps;
    if !hostedEvm {
      return Ok(());
    }
    var missing := CollectShapeGaps(payload);
    ShapeGapsMean(payload);
    var matched := MatchingAccept(lower, required, payload);
    if |missing| > 0 {
      ShapeExplained(lower, payload, missing, matched);
      return Err(Malformed(missing));
    }
    result := CheckTerms(lower, payload, matched);
  }

  method CollectShapeGaps(payload: Value) returns (missing: seq<Field>)
    ensures missing == ShapeGaps(payload)
  {
    hide Get, Identifier, Note;
    missing := Note([], Get(payload, "protocol") != VStr("x402"), Protocol);
    missing := Note(missing, !Get(payload, "networkId").VStr?, NetworkId);
    missing := Note(missing, !Get(payload, "settlementRail").VStr?, SettlementRail);
    missing := Note(missing, !Get(payload, "payTo").VStr?, PayTo);
    missing := Note(missing, Identifier(payload).None?, PaymentIdentifier);
    var accepted := Get(payload, "accepted");
    if !accepted.VObj? {
      missing := missing + [Accepted];
    } else {
      missing := Note(missing, !Get(accepted, "asset").VStr?, AcceptedAsset);
      missing := Note(missing, !Get(accepted, "amount").VStr?, AcceptedAmount);
    }
  }

  method CheckTerms(lower: Lower, payload: Value, matched: Option<Value>) returns (result: Result<(), ShapeError>)
    ensures result.Ok? <==> AcceptedOn(lower, payload, matched)
    ensures result.Err? ==> !result.error.Malformed? && Explains(lower, result.error, payload, matched)
  {
    hide NestedRecord, HostedSplit, SellerValue, FeeValue, FeeAuthorized, TermsOf, Agrees, Complete, SplitGaps,
         Get, LacksTerm, Disagrees;
    var accept := if matched.Some? then matched.value else VUndef;
    var split := NestedRecord(accept, ["extensions", "evm", "feeSplit"]);
    if Get(accept, "settlementModel") != VStr(SPLIT_MODEL) && split.None? {
      return Ok(());
    }
    if split.None? {
      return Err(NoSplitMetadata);
    }
    var terms := TermsOf(accept, split.value);
    var missing := CollectSplitGaps(payload, terms);
    SplitGapsMean(payload, terms);
    if |missing| > 0 {
      return Err(SplitMalformed(missing));
    }
    result := CompareTerms(lower, payload, terms);
  }

  method CollectSplitGaps(payload: Value, terms: Terms) returns (missing: seq<Field>)
    ensures missing == SplitGaps(payload, terms)
  {
    hide HostedSplit, SellerValue, FeeValue, FeeAuthorized, Note;
    missing := Note([], terms.gross.None?, Gross);
    missing := Note(missing, terms.seller.None?, Seller);
    missing := Note(missing, terms.fee.None?, Fee);
    missing := Note(missing, terms.sellerPayTo.None?, SellerPayTo);
    missing := Note(missing, terms.feePayTo.None?, FeePayTo);
    missing := Note(missing, HostedSplit(payload).None?, HostedFeeSplit);
    missing := Note(missing, !FeeAuthorized(payload), FeeAuthorization);
    missing := Note(missing, SellerValue(payload).None?, SignedSeller);
    missing := Note(missing, FeeValue(payload).None?, SignedFee);
  }

  method CompareTerms(lower: Lower, payload: Value, terms: Terms) returns (result: Result<(), ShapeError>)
    requires Complete(payload, terms)
    ensures result.Ok? <==> Agrees(lower, payload, terms)
    ensures result.Err? ==> result.error.SplitMismatch? && result.error.fields != []
    ensures result.Err? ==> forall f :: f in result.error.fields <==> Disagrees(lower, payload, terms, f)
  {
    hide HostedSplit, SellerValue, FeeValue, FeeAuthorized, SameAddress, Note, Get, Agrees, Disagrees;
    var hosted := HostedSplit(payload).value;
    var mismatch := Note([], Get(hosted, "grossAmount") != VStr(terms.gross.value), Gross);
    mismatch := Note(mismatch, Get(hosted, "sellerAmount") != VStr(terms.seller.value), Seller);
    mismatch := Note(mismatch, Get(hosted, "protocolFeeAmount") != VStr(terms.fee.value), Fee);
    mismatch := Note(
      mismatch, !SameAddress(lower, Get(hosted, "sellerPayTo"), VStr(terms.sellerPayTo.value)), SellerPayTo);
    mismatch := Note(
      mismatch, !SameAddress(lower, Get(hosted, "protocolFeePayTo"), VStr(terms.feePayTo.value)), FeePayTo);
    mismatch := Note(mismatch, Get(payload, "amount") != VStr(terms.gross.value), Amount);
    mismatch := Note(mismatch, SellerValue(payload) != terms.seller, SignedSeller);
    mismatch := Note(mismatch, FeeValue(payload) != terms.fee, SignedFee);
    assert mismatch == Disagreements(lower, payload, terms);
    hide Disagreements;
    DisagreementsMean(lower, payload, terms);
    NoDisagreement(lower, payload, terms);
    result := if |mismatch| > 0 then Err(SplitMismatch(mismatch)) else Ok(());
  }

  lemma AcceptsMatched(lower: Lower, payload: Value, required: Value)
    ensures Accepts(lower, payload, true, required) <==>
            && WellShaped(payload)
            && var matched := MatchingAccept(lower, required, payload);
               matched.None? || AcceptedOn(lower, payload, matched)
  {
    hide MatchingAccept, WellShaped;
    assert NestedRecord(VUndef, ["extensions", "evm", "feeSplit"]).None? by {
      Nested3(VUndef, "extensions", "evm", "feeSplit");
    }
  }

  /**
   Acceptance means that no accept matches, or that the matching accept's terms are met; without terms it must not be
   one for the split model.
   */
  lemma AcceptsMeans(lower: Lower, payload: Value, required: Value)
    ensures Accepts(lower, payload, true, required) <==>
            && WellShaped(payload)
            && match MatchingAccept(lower, required, payload) {
                 case None => true
                 case Some(a) =>
                   var split := Get(Get(Get(a, "extensions"), "evm"), "feeSplit");
                   if split.VObj? then Complete(payload, TermsOf(a, split)) && Agrees(lower, payload, TermsOf(a, split))
                   else Get(a, "settlementModel") != VStr("x402-exact-evm-fee-split-v1")
               }
  {
    hide MatchingAccept, WellShaped, Nested, Complete, Agrees, TermsOf, Get;
    var matched := MatchingAccept(lower, required, payload);
    var a := if matched.Some? then matched.value else VUndef;
    Nested3(a, "extensions", "evm", "feeSplit");
    NoFields();
  }

  lemma NoFields()
    ensures forall k :: Get(VUndef, k) == VUndef
  {
  }

  /** A payload for a network no accept names passes whatever it signs. */
  lemma UnmatchedAccepted(lower: Lower, payload: Value, required: Value)
    requires WellShaped(payload)
    requires forall a :: a in Elements(Get(required, "accepts")) ==> Get(a, "network") != Get(payload, "networkId")
    ensures Accepts(lower, payload, true, required)
  {
    hide WellShaped, AcceptedOn;
    AcceptsMatched(lower, payload, required);
  }

  /**
   Soundness: a payload accepted against an accept that carries a planned split signs away exactly the advertised
   gross, so much to the seller and so much in fees.
   */
  lemma AcceptedPaysGross(
      lower: Lower, payload: Value, required: Value, accept: Value, split: RailPlans.Split, payTo: string)
    requires RailPlans.SplitAddsUp(split)
    requires Accepts(lower, payload, true, required) && MatchingAccept(lower, required, payload) == Some(accept)
    requires NestedRecord(accept, ["extensions", "evm", "feeSplit"]) == Some(SplitRecord(split, payTo))
    ensures SellerValue(payload) == Some(split.seller) && FeeValue(payload) == Some(split.fee)
    ensures NatValue(SellerValue(payload).value) + NatValue(FeeValue(payload).value) == NatValue(split.gross)
    ensures Get(payload, "amount") == VStr(split.gross)
  {
    hide NestedRecord, HostedSplit, SellerValue, FeeValue, FeeAuthorized, SameAddress, MatchingAccept, WellShaped,
         NatValue, Trim;
    var record := SplitRecord(split, payTo);
    DigitsTrimmed(split.gross);
    DigitsTrimmed(split.seller);
    DigitsTrimmed(split.fee);
    assert TermsOf(accept, record).gross == Some(split.gross);
  }

  lemma DigitsTrimmed(s: string)
    requires AllDigits(s)
    ensures Trim(s) == s && Strip(s) == s
  {
    assert Trimmed(IsSpace, s) && Trimmed(IsPySpace, s);
  }
}
