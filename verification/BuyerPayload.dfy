/** The two buyers' payload builders, and when the indexer accepts what they build. */
module BuyerPayload {
  import opened Wrappers
  import opened Text
  import opened Decimal
  import opened Values
  import opened Payload
  import FeePolicy
  import RailPlans

  /** What a builder takes from a requirement before anything is signed. */
  datatype Draft = Draft(
    accept: Value, evm: Value, split: Value,
    sellerPayTo: string, feePayTo: string, sellerAmount: string, feeAmount: string, gross: string,
    assetAddress: string, contract: string, network: string, requestId: string, sessionId: string,
    tokenName: string, tokenVersion: string, splitVersion: string, settlementMode: string,
    chainId: Value, timeout: Value, facilitator: Value, request: Value, shape: string)

  /** What comes from outside: the wallet's address and signatures, the clock and fresh nonces. */
  datatype Signing = Signing(
    payer: string, issuedAt: string, expiresAt: string, validAfter: string, validBefore: string,
    sellerNonce: string, feeNonce: string, sellerSignature: string, feeSignature: string)

  /** A digest of a JSON value, in hexadecimal. */
  type Digest = Value -> string

  function StringField(v: Value, key: string): Result<string, string> {
    var f := Get(v, key);
    if f.VStr? && Trim(f.s) != "" then Ok(f.s) else Err(key)
  }

  function PyField(v: Value, key: string): Result<string, string> {
    var f := Get(v, key);
    if f.VStr? && Strip(f.s) != "" then Ok(Strip(f.s)) else Err(key)
  }

  function TextOr(v: Value, default: string): string {
    if v.VStr? then v.s else default
  }

  /** Python's str of a truthy value, else the default; a container's text never is an amount. */
  function PyTextOr(v: Value, default: string): string {
    if !Truthy(v) then default
    else match v
      case VStr(s) => s
      case VNum(n) => IntText(n)
      case VBool(_) => "True"
      case _ => "{}"
  }

  function FirstPresent(a: Value, b: Value): Value {
    if a.VUndef? || a.VNull? then b else a
  }

  function FirstTruthy(a: Value, b: Value): Value {
    if Truthy(a) then a else b
  }

  /** The amount unit is read back from the accept the way the builder reads it. */
  function AmountUnit(accept: Value): string {
    if Nested(accept, ["extensions", "evm", "amountUnit"]) == VStr("atomic") then "atomic" else "decimal"
  }

  // ---- the browser ----

  predicate BrowserAccept(a: Value) {
    a.VObj? && Get(a, "settlementModel") == VStr(SPLIT_MODEL)
  }

  function BrowserGross(accept: Value): Result<string, string> {
    var amount := Get(accept, "amount");
    if amount.VStr? && Trim(amount.s) != "" then Ok(amount.s) else StringField(accept, "price")
  }

  function BrowserAsset(accept: Value, evm: Value): Result<string, string> {
    var address := Get(Get(accept, "asset"), "address");
    if address.VStr? && Trim(address.s) != "" then Ok(address.s) else StringField(evm, "assetAddress")
  }

  function BrowserSession(required: Value): string {
    TextOr(Get(required, "sessionId"), TextOr(Nested(required, ["extensions", "sessionId"]), ""))
  }

  function BrowserDraft(required: Value): Result<Draft, string> {
    var found := Find(Elements(Get(required, "accepts")), BrowserAccept);
    if found.None? then Err("accept")
    else
      var accept := found.value;
      var evm := Nested(accept, ["extensions", "evm"]);
      var split := Get(evm, "feeSplit");
      if !evm.VObj? || !split.VObj? then Err("feeSplit")
      else
        var sellerPayTo, feePayTo := StringField(split, "sellerPayTo"), StringField(split, "protocolFeePayTo");
        var seller, fee := StringField(split, "sellerAmount"), StringField(split, "protocolFeeAmount");
        var gross, asset := BrowserGross(accept), BrowserAsset(accept, evm);
        var contract, network, request := StringField(evm, "assetAddress"), StringField(accept, "network"),
            StringField(required, "requestId");
        if sellerPayTo.Err? || feePayTo.Err? || seller.Err? || fee.Err? || gross.Err? || asset.Err?
           || contract.Err? || network.Err? || request.Err? then Err("field")
        else
          Ok(Draft(
            accept, evm, split, sellerPayTo.value, feePayTo.value, seller.value, fee.value, gross.value,
            asset.value, contract.value, network.value, request.value, BrowserSession(required),
            TextOr(Get(evm, "eip712Name"), "USD Coin"), TextOr(Get(evm, "assetVersion"), "2"),
            TextOr(Get(split, "version"), "protocol-owner-fee-v1"),
            TextOr(Get(split, "feeSettlementMode"), "exact-eip3009-split-v1"),
            if Get(evm, "chainId").VNum? then Get(evm, "chainId") else VNum(8453),
            if Get(evm, "maxTimeoutSeconds").VNum? then Get(evm, "maxTimeoutSeconds") else VNum(60),
            FirstPresent(Get(evm, "facilitatorUrl"), FirstPresent(Get(evm, "defaultFacilitator"), VNull)),
            Get(required, "requestId"),
            "santaclawz-browser-hosted-exact-fee-split-v1"))
  }

  /** The first value if it counts, else the second, which then does. */
  ghost predicate FirstFilled(r: string, a: Value, b: Value) {
    (Filled(a) ==> a == VStr(r)) && (!Filled(a) ==> Filled(b) && b == VStr(r))
  }

  /** What a field says, or the default where it says nothing. */
  ghost predicate Told(v: Value, default: string, r: string) {
    (v.VStr? ==> v == VStr(r)) && (!v.VStr? ==> r == default)
  }

  /** The place of the first accept of a requirement that is offered for an exact split. */
  ghost predicate FirstOffer(required: Value, offered: Value -> bool, i: nat) {
    var accepts := Elements(Get(required, "accepts"));
    i < |accepts| && offered(accepts[i]) && forall j :: 0 <= j < i ==> !offered(accepts[j])
  }

  lemma OfferedAlike()
    ensures forall a :: BrowserAccept(a) <==>
              a.VObj? && Get(a, "settlementModel") == VStr("x402-exact-evm-fee-split-v1")
  {
  }

  /** The browser builds from the first accept for the split model, as soon as its plain fields are there. */
  lemma BrowserDraftIff(required: Value, i: nat)
    requires FirstOffer(
      required, (a: Value) => a.VObj? && Get(a, "settlementModel") == VStr("x402-exact-evm-fee-split-v1"), i)
    ensures var a := Elements(Get(required, "accepts"))[i];
            var evm := Get(Get(a, "extensions"), "evm");
            var split := Get(evm, "feeSplit");
            && (BrowserDraft(required).Ok? <==>
                  && evm.VObj? && split.VObj?
                  && Filled(Get(split, "sellerPayTo")) && Filled(Get(split, "protocolFeePayTo"))
                  && Filled(Get(split, "sellerAmount")) && Filled(Get(split, "protocolFeeAmount"))
                  && (Filled(Get(a, "amount")) || Filled(Get(a, "price")))
                  && Filled(Get(evm, "assetAddress")) && Filled(Get(a, "network"))
                  && Filled(Get(required, "requestId")))
            && (BrowserDraft(required).Ok? ==> BrowserDraft(required).value.accept == a)
  {
    hide Nested, Trim, BrowserDraft, Get, BrowserAccept;
    var accepts := Elements(Get(required, "accepts"));
    OfferedAlike();
    FindsFirst(accepts, BrowserAccept, i);
    Nested2(accepts[i], "extensions", "evm");
    BrowserDrafts(required, accepts[i]);
  }

  lemma BrowserNeedsOffer(required: Value)
    requires forall a :: a in Elements(Get(required, "accepts")) && a.VObj? ==>
               Get(a, "settlementModel") != VStr("x402-exact-evm-fee-split-v1")
    ensures BrowserDraft(required).Err?
  {
  }

  lemma AssetTaken(a: Value, evm: Value)
    ensures BrowserGross(a).Ok? ==> FirstFilled(BrowserGross(a).value, Get(a, "amount"), Get(a, "price"))
    ensures BrowserAsset(a, evm).Ok? ==>
              FirstFilled(BrowserAsset(a, evm).value, Get(Get(a, "asset"), "address"), Get(evm, "assetAddress"))
  {
    hide Get, Trim;
  }

  lemma SessionTaken(required: Value)
    ensures var own, other := Get(required, "sessionId"), Get(Get(required, "extensions"), "sessionId");
            if own.VStr? then BrowserSession(required) == own.s else Told(other, "", BrowserSession(required))
  {
    hide Get, Nested;
    Nested2(required, "extensions", "sessionId");
  }

  /** Where the browser takes each text and number from, and what stands in for a missing one. */
  lemma BrowserTakes(required: Value, d: Draft)
    requires BrowserDraft(required) == Ok(d)
    ensures FirstFilled(d.gross, Get(d.accept, "amount"), Get(d.accept, "price"))
    ensures FirstFilled(d.assetAddress, Get(Get(d.accept, "asset"), "address"), Get(d.evm, "assetAddress"))
    ensures Told(Get(d.evm, "eip712Name"), "USD Coin", d.tokenName)
    ensures Told(Get(d.evm, "assetVersion"), "2", d.tokenVersion)
    ensures Told(Get(d.split, "version"), "protocol-owner-fee-v1", d.splitVersion)
    ensures Told(Get(d.split, "feeSettlementMode"), "exact-eip3009-split-v1", d.settlementMode)
    ensures var own, other := Get(required, "sessionId"), Get(Get(required, "extensions"), "sessionId");
            if own.VStr? then d.sessionId == own.s else Told(other, "", d.sessionId)
    ensures var chain, timeout := Get(d.evm, "chainId"), Get(d.evm, "maxTimeoutSeconds");
            && (if chain.VNum? then d.chainId == chain else d.chainId == VNum(8453))
            && (if timeout.VNum? then d.timeout == timeout else d.timeout == VNum(60))
    ensures var own, shared := Get(d.evm, "facilitatorUrl"), Get(d.evm, "defaultFacilitator");
            && (own !in {VUndef, VNull} ==> d.facilitator == own)
            && (own in {VUndef, VNull} && shared != VUndef ==> d.facilitator == shared)
            && (own in {VUndef, VNull} && shared == VUndef ==> d.facilitator == VNull)
    ensures d.request == Get(required, "requestId") && d.shape == "santaclawz-browser-hosted-exact-fee-split-v1"
  {
    hide Nested, Trim, Find, Get, BrowserGross, BrowserAsset, BrowserSession, StringField;
    AssetTaken(d.accept, d.evm);
    SessionTaken(required);
  }

  // ---- the Python job pack ----

  predicate PyAccept(a: Value) {
    && a.VObj? && Get(a, "settlementModel") == VStr(SPLIT_MODEL)
    && Nested(a, ["extensions", "evm"]).VObj? && Nested(a, ["extensions", "evm", "feeSplit"]).VObj?
  }

  function PyGross(accept: Value): string {
    Strip(PyTextOr(FirstTruthy(Get(accept, "amount"), Get(accept, "price")), ""))
  }

  function PyAsset(accept: Value, evm: Value): Result<string, string> {
    var address := Get(Get(accept, "asset"), "address");
    if address.VStr? && Strip(address.s) != "" then Ok(Strip(address.s)) else PyField(evm, "assetAddress")
  }

  function PyTimeout(seconds: Value): Value {
    if seconds.VNum? && Truthy(seconds) then seconds else VNum(60)
  }

  function PyDraft(required: Value, candidateSession: Value): Result<Draft, string> {
    var found := Find(Elements(Get(required, "accepts")), PyAccept);
    if found.None? then Err("accept")
    else
      var accept := found.value;
      var evm := Nested(accept, ["extensions", "evm"]);
      var split := Get(evm, "feeSplit");
      var sellerPayTo, feePayTo := PyField(split, "sellerPayTo"), PyField(split, "protocolFeePayTo");
      var seller, fee := PyField(split, "sellerAmount"), PyField(split, "protocolFeeAmount");
      var asset, contract := PyAsset(accept, evm), PyField(evm, "assetAddress");
      var network, request := PyField(accept, "network"), PyField(required, "requestId");
      if sellerPayTo.Err? || feePayTo.Err? || seller.Err? || fee.Err? || PyGross(accept) == "" || asset.Err?
         || contract.Err? || network.Err? || request.Err?
         || !Get(evm, "chainId").VNum? || Get(evm, "chainId").n <= 0 then Err("field")
      else
        Ok(Draft(
          accept, evm, split, sellerPayTo.value, feePayTo.value, seller.value, fee.value, PyGross(accept),
          asset.value, contract.value, network.value, request.value,
          PyTextOr(FirstTruthy(candidateSession, Get(required, "sessionId")), ""),
          PyTextOr(Get(evm, "eip712Name"), "USD Coin"), PyTextOr(Get(evm, "assetVersion"), "2"),
          PyTextOr(Get(split, "version"), "protocol-owner-fee-v1"),
          PyTextOr(Get(split, "feeSettlementMode"), "exact-eip3009-split-v1"),
          Get(evm, "chainId"),
          PyTimeout(Get(evm, "maxTimeoutSeconds")),
          FirstTruthy(Get(evm, "facilitatorUrl"), Get(evm, "defaultFacilitator")),
          Get(required, "requestId"),
          "santaclawz-hosted-exact-fee-split-v1"))
  }

  ghost predicate PyFilled(v: Value) { v.VStr? && Strip(v.s) != "" }

  ghost predicate PyFirstFilled(r: string, a: Value, b: Value) {
    (PyFilled(a) ==> r == Strip(a.s)) && (!PyFilled(a) ==> PyFilled(b) && r == Strip(b.s))
  }

  /** What a field says as Python prints it, or the default where it holds nothing. */
  ghost predicate PyTold(v: Value, default: string, r: string) {
    && (v.VStr? && v.s != "" ==> r == v.s)
    && (v.VNum? && v.n != 0 ==> r == IntText(v.n))
    && (v == VBool(true) ==> r == "True")
    && (v in {VUndef, VNull, VStr(""), VNum(0), VBool(false)} ==> r == default)
  }

  lemma PyTextTold(v: Value, default: string)
    ensures PyTold(v, default, PyTextOr(v, default))
  {
    hide IntText;
  }

  /** Python looks for the model and the two records at once, and wants a positive chain. */
  lemma PyDraftIff(required: Value, session: Value, i: nat)
    requires FirstOffer(
      required,
      (a: Value) =>
        && a.VObj? && Get(a, "settlementModel") == VStr("x402-exact-evm-fee-split-v1")
        && Get(Get(a, "extensions"), "evm").VObj? && Get(Get(Get(a, "extensions"), "evm"), "feeSplit").VObj?, i)
    ensures var a := Elements(Get(required, "accepts"))[i];
            var evm := Get(Get(a, "extensions"), "evm");
            var split, chain := Get(evm, "feeSplit"), Get(evm, "chainId");
            && (PyDraft(required, session).Ok? <==>
                  && PyFilled(Get(split, "sellerPayTo")) && PyFilled(Get(split, "protocolFeePayTo"))
                  && PyFilled(Get(split, "sellerAmount")) && PyFilled(Get(split, "protocolFeeAmount"))
                  && PyGross(a) != "" && PyFilled(Get(evm, "assetAddress")) && PyFilled(Get(a, "network"))
                  && PyFilled(Get(required, "requestId")) && chain.VNum? && chain.n > 0)
            && (PyDraft(required, session).Ok? ==> PyDraft(required, session).value.accept == a)
  {
    hide Nested, Strip, PyGross, PyDraft, Get, PyAsset;
    var accepts := Elements(Get(required, "accepts"));
    forall j | 0 <= j < |accepts|
      ensures Nested(accepts[j], ["extensions", "evm"]) == Get(Get(accepts[j], "extensions"), "evm")
      ensures Nested(accepts[j], ["extensions", "evm", "feeSplit"]) ==
              Get(Get(Get(accepts[j], "extensions"), "evm"), "feeSplit")
    {
      Nested2(accepts[j], "extensions", "evm");
      Nested3(accepts[j], "extensions", "evm", "feeSplit");
    }
    FindsFirst(accepts, PyAccept, i);
    hide PyAccept;
    PyDrafts(required, session, accepts[i]);
    PyAssetTaken(accepts[i], Nested(accepts[i], ["extensions", "evm"]));
  }

  lemma PyNeedsOffer(required: Value, session: Value)
    requires forall a :: a in Elements(Get(required, "accepts")) && a.VObj? ==>
               Get(a, "settlementModel") != VStr("x402-exact-evm-fee-split-v1")
    ensures PyDraft(required, session).Err?
  {
  }

  lemma TimeoutTaken(seconds: Value)
    ensures if seconds.VNum? && seconds.n != 0 then PyTimeout(seconds) == seconds else PyTimeout(seconds) == VNum(60)
  {
  }

  lemma PyAssetTaken(a: Value, evm: Value)
    ensures PyAsset(a, evm).Ok? ==>
              PyFirstFilled(PyAsset(a, evm).value, Get(Get(a, "asset"), "address"), Get(evm, "assetAddress"))
    ensures PyField(evm, "assetAddress").Ok? ==> PyAsset(a, evm).Ok?
  {
    hide Get, Strip;
  }

  /** The amount is the price where there is none, printed and stripped; a container is not an amount. */
  lemma PyGrossTaken(a: Value)
    ensures var chosen := if Truthy(Get(a, "amount")) then Get(a, "amount") else Get(a, "price");
            && (chosen.VStr? ==> PyGross(a) == Strip(chosen.s))
            && (chosen.VNum? && chosen.n != 0 ==> PyGross(a) == Strip(IntText(chosen.n)))
            && (chosen in {VUndef, VNull, VNum(0), VBool(false)} ==> PyGross(a) == "")
  {
    hide Get, IntText, Strip;
    assert Strip("") == "" by { StripsNothing(); }
  }

  lemma StripsNothing()
    ensures Strip("") == ""
  {
  }

  lemma PyDrafts(required: Value, session: Value, n: Value)
    requires Find(Elements(Get(required, "accepts")), PyAccept) == Some(n)
    ensures var evm := Nested(n, ["extensions", "evm"]);
            var split, chain := Get(evm, "feeSplit"), Get(evm, "chainId");
            && (PyDraft(required, session).Ok? <==>
                  && PyField(split, "sellerPayTo").Ok? && PyField(split, "protocolFeePayTo").Ok?
                  && PyField(split, "sellerAmount").Ok? && PyField(split, "protocolFeeAmount").Ok?
                  && PyGross(n) != "" && PyAsset(n, evm).Ok? && PyField(evm, "assetAddress").Ok?
                  && PyField(n, "network").Ok? && PyField(required, "requestId").Ok? && chain.VNum? && chain.n > 0)
            && (PyDraft(required, session).Ok? ==> PyDraft(required, session).value.accept == n)
  {
    hide PyField, PyGross, PyAsset, Get, Nested, PyTextOr, Find, PyAccept, PyTimeout, FirstTruthy;
  }

  /** Where Python takes each text and number from, and what stands in for a missing one. */
  lemma PyTakes(required: Value, session: Value, d: Draft)
    requires PyDraft(required, session) == Ok(d)
    ensures PyFirstFilled(d.assetAddress, Get(Get(d.accept, "asset"), "address"), Get(d.evm, "assetAddress"))
    ensures PyTold(Get(d.evm, "eip712Name"), "USD Coin", d.tokenName)
    ensures PyTold(Get(d.evm, "assetVersion"), "2", d.tokenVersion)
    ensures PyTold(Get(d.split, "version"), "protocol-owner-fee-v1", d.splitVersion)
    ensures PyTold(Get(d.split, "feeSettlementMode"), "exact-eip3009-split-v1", d.settlementMode)
    ensures PyTold(if Truthy(session) then session else Get(required, "sessionId"), "", d.sessionId)
    ensures var timeout := Get(d.evm, "maxTimeoutSeconds");
            if timeout.VNum? && timeout.n != 0 then d.timeout == timeout else d.timeout == VNum(60)
    ensures var own, shared := Get(d.evm, "facilitatorUrl"), Get(d.evm, "defaultFacilitator");
            if Truthy(own) then d.facilitator == own else d.facilitator == shared
    ensures d.request == Get(required, "requestId") && d.shape == "santaclawz-hosted-exact-fee-split-v1"
  {
    hide Nested, Strip, Find, PyTextOr, Get, PyField, PyGross, PyTold, PyAsset, Truthy;
    PyAssetTaken(d.accept, d.evm);
    TimeoutTaken(Get(d.evm, "maxTimeoutSeconds"));
    PyTextTold(Get(d.evm, "eip712Name"), "USD Coin");
    PyTextTold(Get(d.evm, "assetVersion"), "2");
    PyTextTold(Get(d.split, "version"), "protocol-owner-fee-v1");
    PyTextTold(Get(d.split, "feeSettlementMode"), "exact-eip3009-split-v1");
    PyTextTold(FirstTruthy(session, Get(required, "sessionId")), "");
  }

  // ---- the payload ----

  function Message(s: Signing, to: string, value: string, nonce: string): Value {
    VObj(map[
      "from" := VStr(s.payer), "to" := VStr(to), "value" := VStr(value),
      "validAfter" := VStr(s.validAfter), "validBefore" := VStr(s.validBefore), "nonce" := VStr(nonce)])
  }

  function TypedData(d: Draft, message: Value): Value {
    VObj(map[
      "domain" := VObj(map[
        "name" := VStr(d.tokenName), "version" := VStr(d.tokenVersion), "chainId" := d.chainId,
        "verifyingContract" := VStr(d.contract)]),
      "primaryType" := VStr("TransferWithAuthorization"),
      "message" := message])
  }

  function Authorization(d: Draft, message: Value, signature: string): Value {
    VObj(map[
      "primitive" := VStr("evm-eip3009-transfer-with-authorization"), "settlementRail" := VStr("evm"),
      "network" := Get(d.accept, "network"), "asset" := Get(d.accept, "asset"), "transferMethod" := VStr("EIP-3009"),
      "facilitator" := d.facilitator, "typedData" := TypedData(d, message), "signature" := VStr(signature)])
  }

  function WithFeeBps(d: Draft, fields: map<string, Value>): Value {
    VObj(if Get(d.split, "feeBps").VNum? then fields["feeBps" := Get(d.split, "feeBps")] else fields)
  }

  /** The split as the payload repeats it. */
  function HostedRecord(d: Draft): Value {
    WithFeeBps(d, map[
      "version" := VStr(d.splitVersion), "grossAmount" := VStr(d.gross), "sellerAmount" := VStr(d.sellerAmount),
      "protocolFeeAmount" := VStr(d.feeAmount), "sellerPayTo" := VStr(d.sellerPayTo),
      "protocolFeePayTo" := VStr(d.feePayTo), "feeSettlementMode" := VStr(d.settlementMode)])
  }

  function AcceptedTerms(d: Draft): Value {
    VObj(map[
      "scheme" := Get(d.accept, "scheme"), "network" := VStr(d.network), "asset" := VStr(d.assetAddress),
      "amount" := VStr(d.gross), "payTo" := VStr(d.sellerPayTo), "maxTimeoutSeconds" := d.timeout,
      "extra" := VObj(map[
        "name" := VStr(d.tokenName), "version" := VStr(d.tokenVersion), "amountUnit" := VStr(AmountUnit(d.accept)),
        "settlementModel" := VStr(SPLIT_MODEL),
        "feeSplit" := HostedRecord(d)])])
  }

  /** And repeats it once more. */
  function ExtensionRecord(d: Draft): Value {
    WithFeeBps(d, map[
      "settlementModel" := VStr(SPLIT_MODEL), "sellerPayTo" := VStr(d.sellerPayTo),
      "protocolFeePayTo" := VStr(d.feePayTo), "grossAmount" := VStr(d.gross),
      "sellerAmount" := VStr(d.sellerAmount), "protocolFeeAmount" := VStr(d.feeAmount)])
  }

  function Extensions(d: Draft, paymentId: string): Value {
    VObj(map[
      "evm" := VObj(map["amountUnit" := VStr(AmountUnit(d.accept))]),
      "santaclawz" := VObj(map[
        "paymentId" := VStr(paymentId), "idempotencyKey" := VStr(paymentId),
        "feeSplit" := ExtensionRecord(d)])])
  }

  function PaymentKey(d: Draft, s: Signing): Value {
    VObj(map[
      "requestId" := d.request, "payer" := VStr(s.payer), "issuedAtIso" := VStr(s.issuedAt),
      "sellerNonce" := VStr(s.sellerNonce), "feeNonce" := VStr(s.feeNonce)])
  }

  function PaymentId(d: Draft, s: Signing, digest: Digest): string {
    var hex := digest(PaymentKey(d, s));
    "pay_" + (if |hex| >= 24 then hex[..24] else hex)
  }

  function SignedTransfers(d: Draft, s: Signing): Value {
    VObj(map[
      "signature" := VStr(s.sellerSignature),
      "authorization" := Message(s, d.sellerPayTo, d.sellerAmount, s.sellerNonce),
      "primitive" := VStr("evm-eip3009-transfer-with-authorization"),
      "feeAuthorization" := VObj(map[
        "signature" := VStr(s.feeSignature),
        "authorization" := Message(s, d.feePayTo, d.feeAmount, s.feeNonce),
        "primitive" := VStr("evm-eip3009-transfer-with-authorization")])])
  }

  function WithoutDigest(d: Draft, s: Signing, digest: Digest): map<string, Value> {
    var paymentId := PaymentId(d, s, digest);
    map[
      "x402Version" := VNum(2), "protocol" := VStr("x402"), "version" := VStr("2"), "requestId" := VStr(d.requestId),
      "paymentId" := VStr(paymentId), "scheme" := VStr("exact"), "settlementRail" := VStr("evm"),
      "networkId" := VStr(d.network), "asset" := Get(d.accept, "asset"), "amount" := VStr(d.gross),
      "payer" := VStr(s.payer), "payTo" := VStr(d.sellerPayTo),
      "sessionId" := VStr(d.sessionId), "issuedAtIso" := VStr(s.issuedAt), "expiresAtIso" := VStr(s.expiresAt),
      "extensions" := Extensions(d, paymentId), "accepted" := AcceptedTerms(d), "payload" := SignedTransfers(d, s),
      "payloadShape" := VStr(d.shape)]
  }

  const CONTEXT_FIELDS := {
    "requestId", "paymentId", "scheme", "settlementRail", "networkId", "asset", "amount", "payer", "payTo",
    "sessionId", "issuedAtIso", "expiresAtIso", "extensions"}

  function Context(fields: map<string, Value>): Value {
    VObj(map k | k in fields && k in CONTEXT_FIELDS :: fields[k])
  }

  /** All of the payload but the digest over it. */
  function Signed(d: Draft, s: Signing, digest: Digest): map<string, Value> {
    var base := WithoutDigest(d, s, digest);
    base["paymentContextDigest" := VStr(digest(Context(base)))][
      "authorization" := Authorization(d, Message(s, d.sellerPayTo, d.sellerAmount, s.sellerNonce), s.sellerSignature)][
      "feeAuthorization" := Authorization(d, Message(s, d.feePayTo, d.feeAmount, s.feeNonce), s.feeSignature)]
  }

  function Assemble(d: Draft, s: Signing, digest: Digest): Value {
    var signed := Signed(d, s, digest);
    VObj(signed["authorizationDigest" := VStr(digest(VObj(signed - {"x402Version"})))])
  }

  lemma AssembleKeeps(d: Draft, s: Signing, digest: Digest, key: string)
    requires key !in {"paymentContextDigest", "authorization", "feeAuthorization", "authorizationDigest"}
    ensures Get(Assemble(d, s, digest), key) == Get(VObj(WithoutDigest(d, s, digest)), key)
  {
    hide WithoutDigest, Authorization, Message, Context;
  }

  lemma BaseFields(d: Draft, s: Signing, digest: Digest)
    ensures var p := VObj(WithoutDigest(d, s, digest));
            && Get(p, "protocol") == VStr("x402") && Get(p, "networkId") == VStr(d.network)
            && Get(p, "settlementRail") == VStr("evm")
  {
    hide AcceptedTerms, SignedTransfers, Extensions, PaymentId;
  }

  lemma BaseAmounts(d: Draft, s: Signing, digest: Digest)
    ensures var p := VObj(WithoutDigest(d, s, digest));
            && Get(p, "payTo") == VStr(d.sellerPayTo) && Get(p, "amount") == VStr(d.gross)
            && Get(p, "paymentId") == VStr(PaymentId(d, s, digest))
  {
    hide AcceptedTerms, SignedTransfers, Extensions, PaymentId;
  }

  lemma BaseParts(d: Draft, s: Signing, digest: Digest)
    ensures var p := VObj(WithoutDigest(d, s, digest));
            && Get(p, "idempotencyKey") == VUndef
            && Get(p, "accepted") == AcceptedTerms(d) && Get(p, "payload") == SignedTransfers(d, s)
  {
    hide AcceptedTerms, SignedTransfers, Extensions, PaymentId;
  }

  lemma AssembledTop(d: Draft, s: Signing, digest: Digest)
    ensures var p := Assemble(d, s, digest);
            && Get(p, "protocol") == VStr("x402") && Get(p, "networkId") == VStr(d.network)
            && Get(p, "settlementRail") == VStr("evm")
            && Get(p, "payTo") == VStr(d.sellerPayTo) && Get(p, "amount") == VStr(d.gross)
            && Get(p, "idempotencyKey") == VUndef && Get(p, "paymentId") == VStr(PaymentId(d, s, digest))
            && Get(p, "accepted") == AcceptedTerms(d) && Get(p, "payload") == SignedTransfers(d, s)
  {
    hide Get, Assemble, WithoutDigest;
    BaseFields(d, s, digest);
    BaseAmounts(d, s, digest);
    BaseParts(d, s, digest);
    AssembleKeeps(d, s, digest, "protocol");
    AssembleKeeps(d, s, digest, "networkId");
    AssembleKeeps(d, s, digest, "settlementRail");
    AssembleKeeps(d, s, digest, "payTo");
    AssembleKeeps(d, s, digest, "amount");
    AssembleKeeps(d, s, digest, "idempotencyKey");
    AssembleKeeps(d, s, digest, "paymentId");
    AssembleKeeps(d, s, digest, "accepted");
    AssembleKeeps(d, s, digest, "payload");
  }

  lemma TransferFields(d: Draft, s: Signing)
    ensures var t := SignedTransfers(d, s);
            && Get(t, "authorization") == Message(s, d.sellerPayTo, d.sellerAmount, s.sellerNonce)
            && Get(t, "signature") == VStr(s.sellerSignature)
            && Get(t, "feeAuthorization").VObj?
            && Get(Get(t, "feeAuthorization"), "authorization") == Message(s, d.feePayTo, d.feeAmount, s.feeNonce)
            && Get(Get(t, "feeAuthorization"), "signature") == VStr(s.feeSignature)
  {
    hide Message;
  }

  lemma TermFields(d: Draft)
    ensures var a := AcceptedTerms(d);
            && a.VObj? && Get(a, "asset").VStr? && Get(a, "amount").VStr?
            && Get(Get(a, "extra"), "feeSplit") == HostedRecord(d)
            && HostedRecord(d).VObj?
            && Get(a, "payTo") == VStr(d.sellerPayTo) && Get(a, "amount") == VStr(d.gross)
            && Get(a, "network") == VStr(d.network)
  {
    hide AmountUnit, HostedRecord;
    HostedIsObject(d);
  }

  /** An order to transfer so much from the payer to somebody, within the window and under a nonce. */
  ghost predicate Orders(message: Value, s: Signing, to: string, value: string, nonce: string) {
    && Get(message, "from") == VStr(s.payer) && Get(message, "to") == VStr(to) && Get(message, "value") == VStr(value)
    && Get(message, "validAfter") == VStr(s.validAfter) && Get(message, "validBefore") == VStr(s.validBefore)
    && Get(message, "nonce") == VStr(nonce)
  }

  lemma MessageOrders(s: Signing, to: string, value: string, nonce: string)
    ensures Orders(Message(s, to, value, nonce), s, to, value, nonce)
    ensures Get(Message(s, to, value, nonce), "value") == VStr(value)
  {
  }

  lemma AuthorizationFields(d: Draft, message: Value, signature: string)
    ensures var a := Authorization(d, message, signature);
            && a.VObj? && Get(Get(a, "typedData"), "message") == message && Get(a, "authorization") == VUndef
            && Get(a, "signature") == VStr(signature) && TokenDomain(Get(Get(a, "typedData"), "domain"), d)
  {
    hide Get, TypedData, Authorization, TokenDomain;
    TypedMessage(d, message);
    AuthorizationTop(d, message, signature);
  }

  /** The token contract, on its chain, that an order is for. */
  ghost predicate TokenDomain(domain: Value, d: Draft) {
    && Get(domain, "verifyingContract") == VStr(d.contract) && Get(domain, "chainId") == d.chainId
    && Get(domain, "name") == VStr(d.tokenName) && Get(domain, "version") == VStr(d.tokenVersion)
  }

  lemma TypedMessage(d: Draft, message: Value)
    ensures Get(TypedData(d, message), "message") == message
    ensures TokenDomain(Get(TypedData(d, message), "domain"), d)
  {
  }

  lemma AuthorizationTop(d: Draft, message: Value, signature: string)
    ensures var a := Authorization(d, message, signature);
            && a.VObj? && Get(a, "typedData") == TypedData(d, message) && Get(a, "authorization") == VUndef
            && Get(a, "signature") == VStr(signature)
  {
    hide TypedData;
  }

  lemma AssembledAuthorizations(d: Draft, s: Signing, digest: Digest)
    ensures var p := Assemble(d, s, digest);
            && Get(p, "authorization") ==
               Authorization(d, Message(s, d.sellerPayTo, d.sellerAmount, s.sellerNonce), s.sellerSignature)
            && Get(p, "feeAuthorization") ==
               Authorization(d, Message(s, d.feePayTo, d.feeAmount, s.feeNonce), s.feeSignature)
  {
    hide WithoutDigest, Authorization, Message, Context;
  }

  /** Wherever the check looks for the signed values, it finds the draft's amounts or nothing. */
  lemma AssembledValues(d: Draft, s: Signing, digest: Digest)
    ensures var p := Assemble(d, s, digest);
            && SellerValue(p) == OptionalString(VStr(d.sellerAmount))
            && FeeValue(p) == OptionalString(VStr(d.feeAmount))
            && FeeAuthorized(p)
  {
    hide Assemble, Nested, AcceptedTerms, SignedTransfers, Get, Authorization, Message, OptionalString, Orders,
         TokenDomain;
    var p := Assemble(d, s, digest);
    AssembledTop(d, s, digest);
    AssembledAuthorizations(d, s, digest);
    TransferFields(d, s);
    MessageOrders(s, d.sellerPayTo, d.sellerAmount, s.sellerNonce);
    MessageOrders(s, d.feePayTo, d.feeAmount, s.feeNonce);
    AuthorizationFields(d, Message(s, d.sellerPayTo, d.sellerAmount, s.sellerNonce), s.sellerSignature);
    AuthorizationFields(d, Message(s, d.feePayTo, d.feeAmount, s.feeNonce), s.feeSignature);
    NoField("value");
    Nested3(p, "payload", "authorization", "value");
    Nested4(p, "authorization", "typedData", "message", "value");
    Nested3(p, "authorization", "authorization", "value");
    Nested4(p, "payload", "feeAuthorization", "authorization", "value");
    Nested4(p, "feeAuthorization", "typedData", "message", "value");
    Nested3(p, "feeAuthorization", "authorization", "value");
  }

  /**
   Both transfers, at either place the payload carries them: from the payer, to these payees, of these amounts, each
   under its own nonce, its own signature and for the draft's token.
   */
  ghost predicate SignsAway(
      p: Value, d: Draft, s: Signing, sellerTo: string, sellerAmount: string, feeTo: string, feeAmount: string)
  {
    var seller := Nested(p, ["payload", "authorization"]);
    var fee := Nested(p, ["payload", "feeAuthorization", "authorization"]);
    && Orders(seller, s, sellerTo, sellerAmount, s.sellerNonce) && Orders(fee, s, feeTo, feeAmount, s.feeNonce)
    && Nested(p, ["authorization", "typedData", "message"]) == seller
    && Nested(p, ["feeAuthorization", "typedData", "message"]) == fee
    && TokenDomain(Nested(p, ["authorization", "typedData", "domain"]), d)
    && TokenDomain(Nested(p, ["feeAuthorization", "typedData", "domain"]), d)
    && Nested(p, ["payload", "signature"]) == VStr(s.sellerSignature)
    && Nested(p, ["authorization", "signature"]) == VStr(s.sellerSignature)
    && Nested(p, ["payload", "feeAuthorization", "signature"]) == VStr(s.feeSignature)
    && Nested(p, ["feeAuthorization", "signature"]) == VStr(s.feeSignature)
  }

  /** An assembled payload signs away the draft's amounts to the draft's payees. */
  lemma AssembledSigns(d: Draft, s: Signing, digest: Digest)
    ensures SignsAway(Assemble(d, s, digest), d, s, d.sellerPayTo, d.sellerAmount, d.feePayTo, d.feeAmount)
  {
    hide Assemble, Nested, AcceptedTerms, SignedTransfers, Get, Authorization, Message, Orders, TokenDomain;
    var p := Assemble(d, s, digest);
    AssembledTop(d, s, digest);
    AssembledAuthorizations(d, s, digest);
    TransferFields(d, s);
    MessageOrders(s, d.sellerPayTo, d.sellerAmount, s.sellerNonce);
    MessageOrders(s, d.feePayTo, d.feeAmount, s.feeNonce);
    AuthorizationFields(d, Message(s, d.sellerPayTo, d.sellerAmount, s.sellerNonce), s.sellerSignature);
    AuthorizationFields(d, Message(s, d.feePayTo, d.feeAmount, s.feeNonce), s.feeSignature);
    Nested2(p, "payload", "authorization");
    Nested3(p, "payload", "feeAuthorization", "authorization");
    Nested3(p, "authorization", "typedData", "message");
    Nested3(p, "feeAuthorization", "typedData", "message");
    Nested3(p, "authorization", "typedData", "domain");
    Nested3(p, "feeAuthorization", "typedData", "domain");
    Nested2(p, "payload", "signature");
    Nested2(p, "authorization", "signature");
    Nested3(p, "payload", "feeAuthorization", "signature");
    Nested2(p, "feeAuthorization", "signature");
  }

  /** Whatever the payload says twice it says alike: the split, the payees, the amounts and the payment id. */
  ghost predicate SaysAlike(p: Value) {
    var split := Nested(p, ["accepted", "extra", "feeSplit"]);
    var again := Nested(p, ["extensions", "santaclawz", "feeSplit"]);
    && Get(split, "sellerPayTo") == Get(again, "sellerPayTo")
    && Get(split, "sellerAmount") == Get(again, "sellerAmount")
    && Get(split, "protocolFeePayTo") == Get(again, "protocolFeePayTo")
    && Get(split, "protocolFeeAmount") == Get(again, "protocolFeeAmount")
    && Get(split, "grossAmount") == Get(again, "grossAmount") && Get(split, "feeBps") == Get(again, "feeBps")
    && Get(split, "sellerPayTo") == Nested(p, ["payload", "authorization", "to"]) == Get(p, "payTo")
    && Get(split, "protocolFeePayTo") == Nested(p, ["payload", "feeAuthorization", "authorization", "to"])
    && Get(split, "sellerAmount") == Nested(p, ["payload", "authorization", "value"])
    && Get(split, "protocolFeeAmount") == Nested(p, ["payload", "feeAuthorization", "authorization", "value"])
    && Get(split, "grossAmount") == Get(p, "amount") == Nested(p, ["accepted", "amount"])
    && Nested(p, ["accepted", "payTo"]) == Get(p, "payTo") && Nested(p, ["accepted", "network"]) == Get(p, "networkId")
    && Get(p, "payer") == Nested(p, ["payload", "authorization", "from"])
    && Nested(p, ["extensions", "santaclawz", "paymentId"]) == Get(p, "paymentId")
    && Nested(p, ["extensions", "santaclawz", "idempotencyKey"]) == Get(p, "paymentId")
  }

  lemma AssembledAlike(d: Draft, s: Signing, digest: Digest)
    ensures SaysAlike(Assemble(d, s, digest))
  {
    hide Assemble, Nested, AcceptedTerms, SignedTransfers, Get, Message, Extensions, HostedRecord, ExtensionRecord,
         PaymentId;
    var p := Assemble(d, s, digest);
    AssembledTop(d, s, digest);
    AssembledMore(d, s, digest);
    TransferFields(d, s);
    MessageOrders(s, d.sellerPayTo, d.sellerAmount, s.sellerNonce);
    MessageOrders(s, d.feePayTo, d.feeAmount, s.feeNonce);
    TermFields(d);
    HostedTerms(d);
    ExtensionFields(d, PaymentId(d, s, digest));
    ExtensionTerms(d);
    Nested3(p, "accepted", "extra", "feeSplit");
    Nested3(p, "extensions", "santaclawz", "feeSplit");
    Nested3(p, "payload", "authorization", "to");
    Nested3(p, "payload", "authorization", "value");
    Nested3(p, "payload", "authorization", "from");
    Nested4(p, "payload", "feeAuthorization", "authorization", "to");
    Nested4(p, "payload", "feeAuthorization", "authorization", "value");
    Nested2(p, "accepted", "amount");
    Nested2(p, "accepted", "payTo");
    Nested2(p, "accepted", "network");
    Nested3(p, "extensions", "santaclawz", "paymentId");
    Nested3(p, "extensions", "santaclawz", "idempotencyKey");
  }

  lemma AssembledMore(d: Draft, s: Signing, digest: Digest)
    ensures var p := Assemble(d, s, digest);
            Get(p, "payer") == VStr(s.payer) && Get(p, "extensions") == Extensions(d, PaymentId(d, s, digest))
  {
    hide AcceptedTerms, SignedTransfers, Extensions, PaymentId, Authorization, Message, Context;
  }

  lemma ExtensionFields(d: Draft, paymentId: string)
    ensures var e := Get(Extensions(d, paymentId), "santaclawz");
            && Get(e, "paymentId") == VStr(paymentId) && Get(e, "idempotencyKey") == VStr(paymentId)
            && Get(e, "feeSplit") == ExtensionRecord(d)
  {
    hide AmountUnit, ExtensionRecord;
  }

  lemma ExtensionTerms(d: Draft)
    ensures var h := ExtensionRecord(d);
            && Get(h, "grossAmount") == VStr(d.gross) && Get(h, "sellerAmount") == VStr(d.sellerAmount)
            && Get(h, "protocolFeeAmount") == VStr(d.feeAmount) && Get(h, "sellerPayTo") == VStr(d.sellerPayTo)
            && Get(h, "protocolFeePayTo") == VStr(d.feePayTo)
            && Get(h, "feeBps") == if Get(d.split, "feeBps").VNum? then Get(d.split, "feeBps") else VUndef
  {
  }

  /** An authorization says which transfer it is, on the accept's network, in its asset, and who facilitates it. */
  ghost predicate Introduces(a: Value, d: Draft) {
    && Get(a, "primitive") == VStr("evm-eip3009-transfer-with-authorization")
    && Get(a, "settlementRail") == VStr("evm") && Get(a, "transferMethod") == VStr("EIP-3009")
    && Get(a, "network") == Get(d.accept, "network") && Get(a, "asset") == Get(d.accept, "asset")
    && Get(a, "facilitator") == d.facilitator
    && Get(Get(a, "typedData"), "primaryType") == VStr("TransferWithAuthorization")
  }

  lemma AuthorizationIntroduces(d: Draft, message: Value, signature: string)
    ensures Introduces(Authorization(d, message, signature), d)
  {
  }

  /** The accept's unit is repeated twice; anything but atomic counts as decimal. */
  ghost predicate SaysUnit(unit: Value, accept: Value) {
    var asked := Get(Get(Get(accept, "extensions"), "evm"), "amountUnit");
    unit == VStr(if asked == VStr("atomic") then "atomic" else "decimal")
  }

  lemma TermsCopied(d: Draft)
    ensures var a := AcceptedTerms(d);
            && Get(a, "scheme") == Get(d.accept, "scheme") && Get(a, "asset") == VStr(d.assetAddress)
            && Get(a, "maxTimeoutSeconds") == d.timeout
            && Get(Get(a, "extra"), "name") == VStr(d.tokenName)
            && Get(Get(a, "extra"), "version") == VStr(d.tokenVersion)
            && SaysUnit(Get(Get(a, "extra"), "amountUnit"), d.accept)
  {
    hide HostedRecord, Nested;
    Nested3(d.accept, "extensions", "evm", "amountUnit");
  }

  lemma ExtensionUnit(d: Draft, paymentId: string)
    ensures SaysUnit(Get(Get(Extensions(d, paymentId), "evm"), "amountUnit"), d.accept)
  {
    hide ExtensionRecord, Nested;
    Nested3(d.accept, "extensions", "evm", "amountUnit");
  }

  lemma BaseCopied(d: Draft, s: Signing, digest: Digest)
    ensures var p := VObj(WithoutDigest(d, s, digest));
            && Get(p, "x402Version") == VNum(2) && Get(p, "version") == VStr("2") && Get(p, "scheme") == VStr("exact")
  {
    hide AcceptedTerms, SignedTransfers, Extensions, PaymentId;
  }

  lemma BaseDated(d: Draft, s: Signing, digest: Digest)
    ensures var p := VObj(WithoutDigest(d, s, digest));
            && Get(p, "asset") == Get(d.accept, "asset") && Get(p, "requestId") == VStr(d.requestId)
            && Get(p, "sessionId") == VStr(d.sessionId) && Get(p, "payloadShape") == VStr(d.shape)
            && Get(p, "issuedAtIso") == VStr(s.issuedAt) && Get(p, "expiresAtIso") == VStr(s.expiresAt)
  {
    hide AcceptedTerms, SignedTransfers, Extensions, PaymentId;
  }

  ghost predicate Heads(p: Value, d: Draft, s: Signing) {
    && Get(p, "x402Version") == VNum(2) && Get(p, "version") == VStr("2") && Get(p, "scheme") == VStr("exact")
    && Get(p, "asset") == Get(d.accept, "asset") && Get(p, "requestId") == VStr(d.requestId)
    && Get(p, "sessionId") == VStr(d.sessionId) && Get(p, "payloadShape") == VStr(d.shape)
    && Get(p, "issuedAtIso") == VStr(s.issuedAt) && Get(p, "expiresAtIso") == VStr(s.expiresAt)
  }

  lemma AssembledHeads(d: Draft, s: Signing, digest: Digest)
    ensures Heads(Assemble(d, s, digest), d, s)
  {
    hide Assemble, WithoutDigest, Get;
    BaseCopied(d, s, digest);
    BaseDated(d, s, digest);
    AssembleKeeps(d, s, digest, "x402Version");
    AssembleKeeps(d, s, digest, "version");
    AssembleKeeps(d, s, digest, "scheme");
    AssembleKeeps(d, s, digest, "asset");
    AssembleKeeps(d, s, digest, "requestId");
    AssembleKeeps(d, s, digest, "sessionId");
    AssembleKeeps(d, s, digest, "payloadShape");
    AssembleKeeps(d, s, digest, "issuedAtIso");
    AssembleKeeps(d, s, digest, "expiresAtIso");
  }

  /** What a payload takes over besides the transfers: versions, request, session, times, asset, token and unit. */
  ghost predicate CarriesOver(p: Value, d: Draft, s: Signing) {
    var terms := Get(p, "accepted");
    && Heads(p, d, s)
    && Get(terms, "scheme") == Get(d.accept, "scheme") && Get(terms, "asset") == VStr(d.assetAddress)
    && Get(terms, "maxTimeoutSeconds") == d.timeout
    && Get(Get(terms, "extra"), "name") == VStr(d.tokenName)
    && Get(Get(terms, "extra"), "version") == VStr(d.tokenVersion)
    && SaysUnit(Get(Get(terms, "extra"), "amountUnit"), d.accept)
    && SaysUnit(Get(Get(Get(p, "extensions"), "evm"), "amountUnit"), d.accept)
    && Introduces(Get(p, "authorization"), d) && Introduces(Get(p, "feeAuthorization"), d)
  }

  lemma AssembledCarriesOver(d: Draft, s: Signing, digest: Digest)
    ensures CarriesOver(Assemble(d, s, digest), d, s)
  {
    hide Assemble, AcceptedTerms, SignedTransfers, Get, Authorization, Message, Extensions, SaysUnit, Introduces, Heads,
         PaymentId;
    AssembledTop(d, s, digest);
    AssembledMore(d, s, digest);
    AssembledAuthorizations(d, s, digest);
    AuthorizationIntroduces(d, Message(s, d.sellerPayTo, d.sellerAmount, s.sellerNonce), s.sellerSignature);
    AuthorizationIntroduces(d, Message(s, d.feePayTo, d.feeAmount, s.feeNonce), s.feeSignature);
    TermsCopied(d);
    ExtensionUnit(d, PaymentId(d, s, digest));
    AssembledHeads(d, s, digest);
  }

  /** The payload carries the digest of its own context fields, and of all of itself but that digest and the version. */
  lemma AssembledDigests(d: Draft, s: Signing, digest: Digest)
    ensures var p := Assemble(d, s, digest);
            && p.VObj? && Get(p, "paymentContextDigest") == VStr(digest(Context(p.fields)))
            && Get(p, "authorizationDigest") == VStr(digest(VObj(p.fields - {"authorizationDigest", "x402Version"})))
  {
    hide Signed, Context, CONTEXT_FIELDS;
    var signed, p := Signed(d, s, digest), Assemble(d, s, digest);
    SignedContext(d, s, digest);
    OutsideContext();
    SameContext(signed, "authorizationDigest", p.fields["authorizationDigest"]);
    assert p.fields - {"authorizationDigest", "x402Version"} == signed - {"x402Version"};
  }

  lemma SignedContext(d: Draft, s: Signing, digest: Digest)
    ensures var signed := Signed(d, s, digest);
            && "authorizationDigest" !in signed
            && Get(VObj(signed), "paymentContextDigest") == VStr(digest(Context(signed)))
  {
    hide WithoutDigest, Authorization, Message, Context, CONTEXT_FIELDS;
    var base := WithoutDigest(d, s, digest);
    var once := base["paymentContextDigest" := VStr(digest(Context(base)))];
    var twice := once["authorization" := Signed(d, s, digest)["authorization"]];
    NoDigestYet(d, s, digest);
    OutsideContext();
    SameContext(base, "paymentContextDigest", once["paymentContextDigest"]);
    SameContext(once, "authorization", twice["authorization"]);
    SameContext(twice, "feeAuthorization", Signed(d, s, digest)["feeAuthorization"]);
    assert Signed(d, s, digest) == twice["feeAuthorization" := Signed(d, s, digest)["feeAuthorization"]];
  }

  lemma NoDigestYet(d: Draft, s: Signing, digest: Digest)
    ensures "authorizationDigest" !in WithoutDigest(d, s, digest)
  {
    hide AcceptedTerms, SignedTransfers, Extensions, PaymentId;
  }

  lemma OutsideContext()
    ensures "paymentContextDigest" !in CONTEXT_FIELDS && "authorization" !in CONTEXT_FIELDS
    ensures "feeAuthorization" !in CONTEXT_FIELDS && "authorizationDigest" !in CONTEXT_FIELDS
  {
  }

  lemma SameContext(fields: map<string, Value>, key: string, v: Value)
    requires key !in CONTEXT_FIELDS
    ensures Context(fields[key := v]) == Context(fields)
  {
    hide CONTEXT_FIELDS;
  }

  lemma NoField(key: string)
    ensures Get(VUndef, key) == VUndef && OptionalString(VUndef) == None
  {
  }

  /** The only fields of an assembled payload the check looks at. */
  lemma AssembledShape(d: Draft, s: Signing, digest: Digest)
    ensures var p := Assemble(d, s, digest);
            && WellShaped(p)
            && HostedSplit(p) == Some(HostedRecord(d))
            && SellerValue(p) == OptionalString(VStr(d.sellerAmount))
            && FeeValue(p) == OptionalString(VStr(d.feeAmount))
            && FeeAuthorized(p)
  {
    hide Assemble, Nested, PaymentId, Trim, AcceptedTerms, SignedTransfers, Get, SellerValue, FeeValue, FeeAuthorized,
         HostedRecord;
    var p := Assemble(d, s, digest);
    AssembledTop(d, s, digest);
    AssembledIdentifier(d, s, digest);
    AssembledValues(d, s, digest);
    TermFields(d);
    Nested3(p, "accepted", "extra", "feeSplit");
  }

  /** A payload is told apart by its payment id, the digest of the request, the payer, the time and both nonces. */
  lemma AssembledIdentifier(d: Draft, s: Signing, digest: Digest)
    ensures Identifier(Assemble(d, s, digest)) == Some(Trim(PaymentId(d, s, digest)))
  {
    hide Assemble, PaymentId, Trim, AcceptedTerms, SignedTransfers, Get;
    AssembledTop(d, s, digest);
    PaymentIdPresent(d, s, digest);
  }

  lemma PaymentIdPresent(d: Draft, s: Signing, digest: Digest)
    ensures Trim(PaymentId(d, s, digest)) != ""
  {
    var id := PaymentId(d, s, digest);
    assert id[0] == 'p';
    NotBlank(id);
  }

  lemma NotBlank(s: string)
    requires s != [] && !IsSpace(s[0])
    ensures Trim(s) != ""
  {
    assert TrimStart(IsSpace, s) == s;
    FirstStays(s);
  }

  lemma {:induction false} FirstStays(s: string)
    requires s != [] && !IsSpace(s[0])
    ensures TrimEnd(IsSpace, s) != ""
  {
    if IsSpace(s[|s| - 1]) {
      FirstStays(s[..|s| - 1]);
    }
  }

  /** With a digest that tells values apart by its first 24 digits, a payment id stands for just these five things. */
  lemma PaymentIdDetermines(d: Draft, s: Signing, e: Draft, t: Signing, digest: Digest)
    requires forall v :: |digest(v)| >= 24
    requires forall v, w :: digest(v)[..24] == digest(w)[..24] ==> v == w
    ensures PaymentId(d, s, digest) == PaymentId(e, t, digest) <==>
            && d.request == e.request && s.payer == t.payer && s.issuedAt == t.issuedAt
            && s.sellerNonce == t.sellerNonce && s.feeNonce == t.feeNonce
  {
    hide PaymentKey;
    KeyDetermines(d, s, e, t);
    var x, y := digest(PaymentKey(d, s))[..24], digest(PaymentKey(e, t))[..24];
    if PaymentId(d, s, digest) == PaymentId(e, t, digest) {
      assert ("pay_" + x)[4..] == x && ("pay_" + y)[4..] == y;
    }
  }

  lemma KeyDetermines(d: Draft, s: Signing, e: Draft, t: Signing)
    ensures PaymentKey(d, s) == PaymentKey(e, t) <==>
            && d.request == e.request && s.payer == t.payer && s.issuedAt == t.issuedAt
            && s.sellerNonce == t.sellerNonce && s.feeNonce == t.feeNonce
  {
    KeyFields(d, s);
    KeyFields(e, t);
  }

  lemma KeyFields(d: Draft, s: Signing)
    ensures var k := PaymentKey(d, s);
            && Get(k, "requestId") == d.request && Get(k, "payer") == VStr(s.payer)
            && Get(k, "issuedAtIso") == VStr(s.issuedAt)
            && Get(k, "sellerNonce") == VStr(s.sellerNonce) && Get(k, "feeNonce") == VStr(s.feeNonce)
  {
  }

  lemma HostedIsObject(d: Draft)
    ensures HostedRecord(d).VObj?
  {
  }

  lemma HostedTerms(d: Draft)
    ensures var h := HostedRecord(d);
            && Get(h, "grossAmount") == VStr(d.gross) && Get(h, "sellerAmount") == VStr(d.sellerAmount)
            && Get(h, "protocolFeeAmount") == VStr(d.feeAmount) && Get(h, "sellerPayTo") == VStr(d.sellerPayTo)
            && Get(h, "protocolFeePayTo") == VStr(d.feePayTo)
            && Get(h, "feeBps") == if Get(d.split, "feeBps").VNum? then Get(d.split, "feeBps") else VUndef
  {
  }

  // ---- acceptance ----

  /** The draft's payees are the advertised ones. */
  predicate PayeesAgree(lower: Lower, d: Draft, terms: Terms) {
    && terms.sellerPayTo.Some? && SameAddress(lower, VStr(d.sellerPayTo), VStr(terms.sellerPayTo.value))
    && terms.feePayTo.Some? && SameAddress(lower, VStr(d.feePayTo), VStr(terms.feePayTo.value))
  }

  /** What the builders assemble, checked against the accept they drew from. */
  lemma AssembledOnOwnAccept(lower: Lower, d: Draft, s: Signing, digest: Digest)
    requires d.split.VObj? && NestedRecord(d.accept, ["extensions", "evm", "feeSplit"]) == Some(d.split)
    ensures var terms := TermsOf(d.accept, d.split);
            AcceptedOn(lower, Assemble(d, s, digest), Some(d.accept)) <==>
            && terms.gross == Some(d.gross) && terms.seller == Some(d.sellerAmount) && terms.fee == Some(d.feeAmount)
            && PayeesAgree(lower, d, terms)
  {
    hide Assemble, NestedRecord, HostedSplit, SellerValue, FeeValue, FeeAuthorized, AcceptedTerms, SameAddress, Trim,
         WellShaped, HostedRecord;
    AssembledShape(d, s, digest);
    AssembledTop(d, s, digest);
    HostedTerms(d);
    var terms := TermsOf(d.accept, d.split);
    assert terms.seller == Some(d.sellerAmount) ==> Trim(d.sellerAmount) == d.sellerAmount;
    assert terms.fee == Some(d.feeAmount) ==> Trim(d.feeAmount) == d.feeAmount;
  }

  /** At most one accept for a network, rail and payee. */
  ghost predicate Unambiguous(lower: Lower, required: Value) {
    forall a, b ::
      a in Elements(Get(required, "accepts")) && b in Elements(Get(required, "accepts")) && SameRoute(lower, a, b) ==>
        a == b
  }

  predicate SameRoute(lower: Lower, a: Value, b: Value) {
    && a.VObj? && b.VObj?
    && StrictEq(Get(a, "network"), Get(b, "network")) && StrictEq(Get(a, "settlementRail"), Get(b, "settlementRail"))
    && SameAddress(lower, Get(a, "payTo"), Get(b, "payTo"))
  }

  /**
   The draft's own accept is where the indexer will look: an EVM accept on the draft's network, payable to the draft's
   seller.
   */
  ghost predicate Routed(lower: Lower, required: Value, d: Draft) {
    && Unambiguous(lower, required)
    && d.accept in Elements(Get(required, "accepts")) && d.accept.VObj?
    && Get(d.accept, "network") == VStr(d.network)
    && Get(d.accept, "settlementRail") == VStr("evm")
    && SameAddress(lower, Get(d.accept, "payTo"), VStr(d.sellerPayTo))
  }

  lemma RoutedMatches(lower: Lower, required: Value, d: Draft, s: Signing, digest: Digest)
    requires Routed(lower, required, d)
    ensures MatchingAccept(lower, required, Assemble(d, s, digest)) == Some(d.accept)
  {
    hide Assemble, Trim;
    var p := Assemble(d, s, digest);
    AssembledTop(d, s, digest);
    var found := MatchingAccept(lower, required, p);
    assert AcceptMatches(lower, d.accept, p);
    assert found.Some? && AcceptMatches(lower, found.value, p);
    assert SameRoute(lower, found.value, d.accept);
  }

  lemma RoutedAccepted(lower: Lower, required: Value, d: Draft, s: Signing, digest: Digest)
    requires Routed(lower, required, d)
    requires d.split.VObj? && NestedRecord(d.accept, ["extensions", "evm", "feeSplit"]) == Some(d.split)
    ensures var terms := TermsOf(d.accept, d.split);
            Accepts(lower, Assemble(d, s, digest), true, required) <==>
            && terms.gross == Some(d.gross) && terms.seller == Some(d.sellerAmount) && terms.fee == Some(d.feeAmount)
            && PayeesAgree(lower, d, terms)
  {
    hide Assemble, NestedRecord, AcceptedOn, MatchingAccept, TermsOf, PayeesAgree, WellShaped, Routed, SellerValue,
         FeeValue, HostedSplit, FeeAuthorized, HostedRecord, OptionalString;
    RoutedMatches(lower, required, d, s, digest);
    AssembledShape(d, s, digest);
    AssembledOnOwnAccept(lower, d, s, digest);
  }

  /** What a successful browser draft holds. */
  lemma BrowserDrafted(required: Value, d: Draft)
    requires BrowserDraft(required) == Ok(d)
    ensures d.evm == Nested(d.accept, ["extensions", "evm"]) && d.split == Get(d.evm, "feeSplit") && d.split.VObj?
    ensures StringField(d.split, "sellerPayTo") == Ok(d.sellerPayTo)
    ensures StringField(d.split, "protocolFeePayTo") == Ok(d.feePayTo)
    ensures StringField(d.split, "sellerAmount") == Ok(d.sellerAmount)
    ensures StringField(d.split, "protocolFeeAmount") == Ok(d.feeAmount)
    ensures StringField(d.evm, "assetAddress") == Ok(d.contract) && StringField(d.accept, "network") == Ok(d.network)
    ensures StringField(required, "requestId") == Ok(d.requestId) && BrowserGross(d.accept) == Ok(d.gross)
    ensures Get(d.evm, "chainId").VNum? ==> d.chainId == Get(d.evm, "chainId")
  {
    hide StringField, TextOr, BrowserGross, BrowserAsset, BrowserSession, Nested;
  }

  /**
   A browser payload passes exactly when the amounts it copied were already trimmed and the accept's amount is the
   split's gross.
   */
  lemma BrowserAccepted(lower: Lower, required: Value, s: Signing, digest: Digest)
    requires BrowserDraft(required).Ok? && Routed(lower, required, BrowserDraft(required).value)
    ensures var d := BrowserDraft(required).value;
            Accepts(lower, Assemble(d, s, digest), true, required) <==>
            && OptionalString(Get(d.split, "grossAmount")) == Some(d.gross)
            && Trim(d.sellerAmount) == d.sellerAmount && Trim(d.feeAmount) == d.feeAmount
  {
    hide Assemble, Trim, Routed, Accepts, Nested, BrowserDraft;
    var d := BrowserDraft(required).value;
    BrowserDrafted(required, d);
    Nested2(d.accept, "extensions", "evm");
    Nested3(d.accept, "extensions", "evm", "feeSplit");
    TrimTwice(d.sellerPayTo);
    TrimTwice(d.feePayTo);
    RoutedAccepted(lower, required, d, s, digest);
  }

  lemma TrimTwice(s: string)
    ensures Trim(Trim(s)) == Trim(s)
  {
  }

  /** What a successful Python draft holds. */
  lemma PyDrafted(required: Value, session: Value, d: Draft)
    requires PyDraft(required, session) == Ok(d)
    ensures d.accept in Elements(Get(required, "accepts")) && d.accept.VObj?
    ensures d.evm == Nested(d.accept, ["extensions", "evm"]) && d.split == Get(d.evm, "feeSplit")
    ensures d.gross == PyGross(d.accept)
    ensures PyField(d.split, "sellerPayTo") == Ok(d.sellerPayTo)
    ensures PyField(d.split, "protocolFeePayTo") == Ok(d.feePayTo)
    ensures PyField(d.split, "sellerAmount") == Ok(d.sellerAmount)
    ensures PyField(d.split, "protocolFeeAmount") == Ok(d.feeAmount)
    ensures PyField(d.evm, "assetAddress") == Ok(d.contract) && PyField(d.accept, "network") == Ok(d.network)
    ensures PyField(required, "requestId") == Ok(d.requestId)
    ensures Get(d.evm, "chainId").VNum? && Get(d.evm, "chainId").n > 0 && d.chainId == Get(d.evm, "chainId")
  {
    hide PyField, PyTextOr, PyGross, PyAsset, Nested;
  }

  /** A Python payload passes exactly when stripping and trimming agree on everything it copied. */
  lemma PyAccepted(lower: Lower, required: Value, session: Value, d: Draft, s: Signing, digest: Digest)
    requires PyDraft(required, session) == Ok(d) && Routed(lower, required, d)
    ensures Get(d.split, "sellerAmount").VStr? && Get(d.split, "protocolFeeAmount").VStr?
    ensures Accepts(lower, Assemble(d, s, digest), true, required) <==>
            && OptionalString(Get(d.split, "grossAmount")) == Some(d.gross)
            && Trim(Get(d.split, "sellerAmount").s) == Strip(Get(d.split, "sellerAmount").s)
            && Trim(Get(d.split, "protocolFeeAmount").s) == Strip(Get(d.split, "protocolFeeAmount").s)
            && PayeesAgree(lower, d, TermsOf(d.accept, d.split))
  {
    hide Assemble, Trim, Strip, Routed, Accepts, Nested, PayeesAgree, PyTextOr, PyDraft, PyGross;
    PyDrafted(required, session, d);
    Nested2(d.accept, "extensions", "evm");
    Nested3(d.accept, "extensions", "evm", "feeSplit");
    RoutedInRequirement(lower, required, d);
    RoutedAccepted(lower, required, d, s, digest);
  }

  lemma RoutedInRequirement(lower: Lower, required: Value, d: Draft)
    requires Routed(lower, required, d)
    ensures d.accept.VObj?
  {
  }

  // ---- from the plan to an accepted payload ----

  /** An accept without a split of its own that the plan gives one. */
  ghost predicate Planned(lower: Lower, raw: Value, previews: seq<FeePolicy.Preview>, rails: seq<RuntimeRail>) {
    && raw.VObj? && NestedRecord(raw, ["extensions", "evm", "feeSplit"]).None?
    && SplitFor(lower, raw, previews, rails).Some?
  }

  /** Which accepts those are: exact-split ones without a split, for a rail with a payee whose preview can be split. */
  lemma PlannedIff(lower: Lower, raw: Value, previews: seq<FeePolicy.Preview>, rails: seq<RuntimeRail>)
    ensures Planned(lower, raw, previews, rails) <==>
            && raw.VObj? && NestedRecord(raw, ["extensions", "evm", "feeSplit"]).None?
            && Get(raw, "settlementModel") == VStr(SPLIT_MODEL)
            && var rail := MatchingRuntimeRail(lower, raw, rails);
               && rail.Some? && rail.value.payTo.value != ""
               && RailPlans.ExactSplit(FeePolicy.FindPreview(previews, rail.value.rail)).Some?
  {
    hide NestedRecord, MatchingRuntimeRail, RailPlans.ExactSplit, FeePolicy.FindPreview;
  }

  function PlannedTerms(
      lower: Lower, raw: Value, previews: seq<FeePolicy.Preview>, rails: seq<RuntimeRail>): (RailPlans.Split, string)
    requires Planned(lower, raw, previews, rails)
  {
    var rail := MatchingRuntimeRail(lower, raw, rails);
    (PlannedSplit(previews, rail).value, rail.value.payTo.value)
  }

  lemma PlannedRecord(lower: Lower, raw: Value, previews: seq<FeePolicy.Preview>, rails: seq<RuntimeRail>)
    requires Planned(lower, raw, previews, rails)
    ensures var (split, payTo) := PlannedTerms(lower, raw, previews, rails);
            && raw.VObj? && RailPlans.SplitAddsUp(split)
            && SplitFor(lower, raw, previews, rails) == Some(SplitRecord(split, payTo))
            && SameAddress(lower, Get(raw, "payTo"), VStr(payTo))
  {
    hide NestedRecord, RailPlans.ExactSplit, FeePolicy.FindPreview, MatchingRuntimeRail, Trim, RailPlans.SplitAddsUp,
         SplitRecord;
    RailPlans.ExactSplitAddsUp(FeePolicy.FindPreview(previews, MatchingRuntimeRail(lower, raw, rails).value.rail));
  }

  /** Normalizing such an accept writes the plan's split, and its gross as the amount. */
  lemma PlannedAccept(lower: Lower, raw: Value, previews: seq<FeePolicy.Preview>, rails: seq<RuntimeRail>)
    requires Planned(lower, raw, previews, rails)
    ensures var (split, payTo) := PlannedTerms(lower, raw, previews, rails);
            var n := NormalizeAccept(lower, raw, previews, rails);
            && RailPlans.SplitAddsUp(split)
            && n.VObj? && NestedRecord(n, ["extensions", "evm", "feeSplit"]) == Some(SplitRecord(split, payTo))
            && Get(n, "amount") == VStr(split.gross)
            && SameAddress(lower, Get(n, "payTo"), VStr(payTo))
            && Get(n, "network") == Get(raw, "network") && Get(n, "settlementRail") == Get(raw, "settlementRail")
  {
    hide NestedRecord, WriteSplit, NatValue, Trim, Planned, PlannedTerms, SplitFor, SplitRecord, SameAddress,
         RailPlans.SplitAddsUp;
    var (split, payTo) := PlannedTerms(lower, raw, previews, rails);
    PlannedRecord(lower, raw, previews, rails);
    AddsUpDigits(split);
    DigitsTrimmed(split.gross);
    RecordFields(split, payTo);
    WrittenFields(raw, SplitRecord(split, payTo), split.gross);
  }

  lemma AddsUpDigits(split: RailPlans.Split)
    requires RailPlans.SplitAddsUp(split)
    ensures AllDigits(split.gross) && AllDigits(split.seller) && AllDigits(split.fee)
    ensures split.gross != "" && split.seller != "" && split.fee != ""
  {
  }

  /** The two authorizations are for the split's parts, which add up to its gross, and go to these two payees. */
  ghost predicate PaysSplit(
      payload: Value, d: Draft, s: Signing, split: RailPlans.Split, sellerTo: string, feeTo: string)
  {
    && RailPlans.SplitAddsUp(split) && SellerValue(payload) == Some(split.seller)
    && FeeValue(payload) == Some(split.fee)
    && SignsAway(payload, d, s, sellerTo, split.seller, feeTo, split.fee)
  }

  /** The browser's payload for a planned accept always passes, and signs away exactly the planned gross. */
  lemma PlannedBrowserAccepted(
      lower: Lower, raw: Value, previews: seq<FeePolicy.Preview>, rails: seq<RuntimeRail>, required: Value, d: Draft,
      s: Signing, digest: Digest)
    requires Planned(lower, raw, previews, rails) && Get(raw, "settlementRail") == VStr("evm")
    requires Unambiguous(lower, required) && BrowserDraft(required) == Ok(d)
    requires d.accept == NormalizeAccept(lower, raw, previews, rails)
    ensures Accepts(lower, Assemble(d, s, digest), true, required)
    ensures var (split, payTo) := PlannedTerms(lower, raw, previews, rails);
            PaysSplit(Assemble(d, s, digest), d, s, split, payTo, split.protocolFeePayTo)
  {
    hide Assemble, Trim, NormalizeAccept, Nested, SplitFor, PlannedTerms, NatValue, Accepts, SellerValue, FeeValue,
         Unambiguous, Planned, SignsAway;
    AssembledSigns(d, s, digest);
    var (split, payTo) := PlannedTerms(lower, raw, previews, rails);
    PlannedAccept(lower, raw, previews, rails);
    DraftOfSplit(d, split, payTo);
    DigitsTrimmed(split.gross);
    DigitsTrimmed(split.seller);
    DigitsTrimmed(split.fee);
    assert d.gross == split.gross && d.sellerAmount == split.seller && d.feeAmount == split.fee;
    assert d.sellerPayTo == payTo;
    assert Routed(lower, required, d);
    BrowserAccepted(lower, required, s, digest);
    AssembledShape(d, s, digest);
  }

  /** One address is the other, up to case and the blanks around it. */
  predicate SameText(lower: Lower, a: string, b: string) {
    SameAddress(lower, VStr(a), VStr(b))
  }

  lemma SameTexts(lower: Lower, v: Value, a: string, b: string)
    requires SameAddress(lower, v, VStr(a))
    ensures SameAddress(lower, v, VStr(b)) <==> SameText(lower, a, b)
  {
    hide Trim;
  }

  /** What a Python draft from a planned accept holds. */
  lemma PyPlanned(
      lower: Lower, raw: Value, previews: seq<FeePolicy.Preview>, rails: seq<RuntimeRail>, required: Value,
      session: Value, d: Draft)
    requires Planned(lower, raw, previews, rails) && PyDraft(required, session) == Ok(d)
    requires d.accept == NormalizeAccept(lower, raw, previews, rails)
    ensures var (split, payTo) := PlannedTerms(lower, raw, previews, rails);
            && PyHolds(d, split, payTo)
            && d.sellerPayTo != "" && d.feePayTo != ""
            && SameAddress(lower, Get(d.accept, "payTo"), VStr(payTo))
            && Get(d.accept, "settlementRail") == Get(raw, "settlementRail")
  {
    hide Trim, Strip, NormalizeAccept, Nested, PlannedTerms, NatValue, Planned, PyDraft, SameAddress, SplitRecord,
         PyGross, RailPlans.SplitAddsUp, NestedRecord, PyField;
    PyDrafted(required, session, d);
    var (split, payTo) := PlannedTerms(lower, raw, previews, rails);
    PlannedAccept(lower, raw, previews, rails);
    DraftOfSplit(d, split, payTo);
    PyDraftOfSplit(d, split, payTo);
    PyGrossKept(d.accept, split);
  }

  /** A Python draft of a given split: the amounts as they are, the addresses stripped. */
  ghost predicate PyHolds(d: Draft, split: RailPlans.Split, payTo: string) {
    && RailPlans.SplitAddsUp(split) && d.split == SplitRecord(split, payTo)
    && NestedRecord(d.accept, ["extensions", "evm", "feeSplit"]) == Some(d.split)
    && d.gross == split.gross && d.sellerAmount == split.seller && d.feeAmount == split.fee
    && d.sellerPayTo == Strip(payTo) && d.feePayTo == Strip(split.protocolFeePayTo)
  }

  lemma PyGrossKept(accept: Value, split: RailPlans.Split)
    requires RailPlans.SplitAddsUp(split) && Get(accept, "amount") == VStr(split.gross)
    ensures PyGross(accept) == split.gross
  {
    hide NatValue, Strip;
    AddsUpDigits(split);
    DigitsTrimmed(split.gross);
  }

  /** Against its own accept, such a draft passes exactly when the payees agree. */
  lemma PyOnOwnAccept(
      lower: Lower, required: Value, d: Draft, s: Signing, digest: Digest, split: RailPlans.Split, payTo: string)
    requires PyHolds(d, split, payTo)
    requires MatchingAccept(lower, required, Assemble(d, s, digest)) == Some(d.accept)
    ensures Accepts(lower, Assemble(d, s, digest), true, required) <==>
            PayeesAgree(lower, d, TermsOf(d.accept, d.split))
  {
    hide Assemble, Trim, Strip, NatValue, AcceptedOn, MatchingAccept, WellShaped, PayeesAgree, HostedSplit,
         FeeAuthorized, SellerValue, FeeValue, HostedRecord, NestedRecord, OptionalString;
    AssembledShape(d, s, digest);
    AddsUpDigits(split);
    DigitsKept(split);
    RecordFields(split, payTo);
    AssembledOnOwnAccept(lower, d, s, digest);
  }

  /**
   The Python payload for a planned accept signs away exactly the planned gross. It is checked against that accept
   exactly when stripping leaves the network as it is and the seller the same; then it passes exactly when the payees
   agree. Otherwise it passes exactly when no accept matches, or the terms of another one are met.
   */
  lemma PlannedPyAccepted(
      lower: Lower, raw: Value, previews: seq<FeePolicy.Preview>, rails: seq<RuntimeRail>, required: Value,
      session: Value, d: Draft, s: Signing, digest: Digest)
    requires Planned(lower, raw, previews, rails) && Get(raw, "settlementRail") == VStr("evm")
    requires Unambiguous(lower, required) && PyDraft(required, session) == Ok(d)
    requires d.accept == NormalizeAccept(lower, raw, previews, rails)
    ensures var (split, payTo) := PlannedTerms(lower, raw, previews, rails);
            PaysSplit(Assemble(d, s, digest), d, s, split, Strip(payTo), Strip(split.protocolFeePayTo))
    ensures var (split, payTo) := PlannedTerms(lower, raw, previews, rails);
            var p := Assemble(d, s, digest);
            var matched := MatchingAccept(lower, required, p);
            && (matched == Some(d.accept) <==>
                Get(d.accept, "network") == VStr(d.network) && SameText(lower, payTo, Strip(payTo)))
            && (matched == Some(d.accept) ==>
                  (Accepts(lower, p, true, required) <==> PayeesAgree(lower, d, TermsOf(d.accept, d.split))))
            && (matched != Some(d.accept) ==>
                  (Accepts(lower, p, true, required) <==> matched.None? || AcceptedOn(lower, p, matched)))
  {
    hide Assemble, Trim, Strip, NormalizeAccept, Nested, PlannedTerms, NatValue, Accepts, SellerValue, FeeValue,
         Unambiguous, Planned, PyDraft, PayeesAgree, SameText, SameAddress, MatchingAccept, WellShaped, AcceptedOn,
         TermsOf, HostedSplit, FeeAuthorized, HostedRecord, SplitRecord, PyHolds;
    PyDrafted(required, session, d);
    var (split, payTo) := PlannedTerms(lower, raw, previews, rails);
    PyPlanned(lower, raw, previews, rails, required, session, d);
    PyPays(d, s, digest, split, payTo);
    PyRoute(lower, required, d, s, digest, split, payTo);
    AssembledShape(d, s, digest);
    AcceptsMatched(lower, Assemble(d, s, digest), required);
    if MatchingAccept(lower, required, Assemble(d, s, digest)) == Some(d.accept) {
      PyOnOwnAccept(lower, required, d, s, digest, split, payTo);
    }
  }

  lemma PyPays(d: Draft, s: Signing, digest: Digest, split: RailPlans.Split, payTo: string)
    requires PyHolds(d, split, payTo)
    ensures PaysSplit(Assemble(d, s, digest), d, s, split, Strip(payTo), Strip(split.protocolFeePayTo))
  {
    hide Assemble, Strip, NatValue, SellerValue, FeeValue, OptionalString, SplitRecord, NestedRecord, SignsAway;
    AssembledValues(d, s, digest);
    AssembledSigns(d, s, digest);
    DigitsKept(split);
  }

  lemma PyRoute(
      lower: Lower, required: Value, d: Draft, s: Signing, digest: Digest, split: RailPlans.Split, payTo: string)
    requires Unambiguous(lower, required) && d.accept in Elements(Get(required, "accepts")) && d.accept.VObj?
    requires Get(d.accept, "settlementRail") == VStr("evm") && SameAddress(lower, Get(d.accept, "payTo"), VStr(payTo))
    requires PyHolds(d, split, payTo)
    ensures MatchingAccept(lower, required, Assemble(d, s, digest)) == Some(d.accept) <==>
            Get(d.accept, "network") == VStr(d.network) && SameText(lower, payTo, Strip(payTo))
  {
    hide Assemble, Strip, NatValue, MatchingAccept, SplitRecord, NestedRecord, SameAddress, SameText, Unambiguous;
    OwnAcceptMatched(lower, required, d, s, digest);
    SameTexts(lower, Get(d.accept, "payTo"), payTo, d.sellerPayTo);
  }

  /** Unpadded, or padded with what both languages take for white space, it always passes. */
  lemma PlannedPyPasses(
      lower: Lower, raw: Value, previews: seq<FeePolicy.Preview>, rails: seq<RuntimeRail>, required: Value,
      session: Value, d: Draft, s: Signing, digest: Digest)
    requires Planned(lower, raw, previews, rails) && Get(raw, "settlementRail") == VStr("evm")
    requires Unambiguous(lower, required) && PyDraft(required, session) == Ok(d)
    requires d.accept == NormalizeAccept(lower, raw, previews, rails)
    requires Get(d.accept, "network") == VStr(d.network)
    requires var (split, payTo) := PlannedTerms(lower, raw, previews, rails);
             Strip(payTo) == Trim(payTo) && Strip(split.protocolFeePayTo) == Trim(split.protocolFeePayTo)
    ensures Accepts(lower, Assemble(d, s, digest), true, required)
  {
    hide Assemble, Trim, Strip, NormalizeAccept, Nested, PlannedTerms, NatValue, Accepts, Unambiguous, Planned, PyDraft,
         MatchingAccept, AcceptedOn, SplitRecord, PaysSplit, TermsOf, PayeesAgree, SameText, PyHolds;
    var (split, payTo) := PlannedTerms(lower, raw, previews, rails);
    PyPlanned(lower, raw, previews, rails, required, session, d);
    PyPayeesAgree(lower, d, split, payTo);
    PlannedPyAccepted(lower, raw, previews, rails, required, session, d, s, digest);
  }

  lemma PyPayeesAgree(lower: Lower, d: Draft, split: RailPlans.Split, payTo: string)
    requires PyHolds(d, split, payTo) && d.sellerPayTo != "" && d.feePayTo != ""
    requires Strip(payTo) == Trim(payTo) && Strip(split.protocolFeePayTo) == Trim(split.protocolFeePayTo)
    ensures PayeesAgree(lower, d, TermsOf(d.accept, d.split)) && SameText(lower, payTo, Strip(payTo))
  {
    hide Trim, Strip, NatValue, SplitRecord, NestedRecord;
    RecordFields(split, payTo);
    TrimTwice(payTo);
    TrimTwice(split.protocolFeePayTo);
  }

  lemma PyDraftOfSplit(d: Draft, split: RailPlans.Split, payTo: string)
    requires d.split == SplitRecord(split, payTo) && RailPlans.SplitAddsUp(split)
    requires PyField(d.split, "sellerPayTo") == Ok(d.sellerPayTo)
    requires PyField(d.split, "protocolFeePayTo") == Ok(d.feePayTo)
    requires PyField(d.split, "sellerAmount") == Ok(d.sellerAmount)
    requires PyField(d.split, "protocolFeeAmount") == Ok(d.feeAmount)
    ensures d.sellerPayTo == Strip(payTo) && d.feePayTo == Strip(split.protocolFeePayTo)
    ensures d.sellerPayTo != "" && d.feePayTo != ""
    ensures d.sellerAmount == split.seller && d.feeAmount == split.fee
    ensures Get(d.split, "grossAmount") == VStr(split.gross)
  {
    hide Strip, NatValue;
    RecordFields(split, payTo);
    DigitsTrimmed(split.seller);
    DigitsTrimmed(split.fee);
  }

  lemma DigitsKept(split: RailPlans.Split)
    requires RailPlans.SplitAddsUp(split)
    ensures OptionalString(VStr(split.gross)) == Some(split.gross)
    ensures OptionalString(VStr(split.seller)) == Some(split.seller)
    ensures OptionalString(VStr(split.fee)) == Some(split.fee)
    ensures Trim(split.seller) == Strip(split.seller) && Trim(split.fee) == Strip(split.fee)
    ensures Strip(split.gross) == split.gross
  {
    hide Trim, Strip, NatValue;
    DigitsTrimmed(split.gross);
    DigitsTrimmed(split.seller);
    DigitsTrimmed(split.fee);
  }

  /** Looking for an assembled payload's accept finds the draft's own exactly when the two name one route. */
  lemma OwnAcceptMatched(lower: Lower, required: Value, d: Draft, s: Signing, digest: Digest)
    requires Unambiguous(lower, required) && d.accept in Elements(Get(required, "accepts")) && d.accept.VObj?
    requires Get(d.accept, "settlementRail") == VStr("evm")
    ensures MatchingAccept(lower, required, Assemble(d, s, digest)) == Some(d.accept) <==> Routed(lower, required, d)
  {
    hide Assemble, Trim, Unambiguous, SameAddress;
    AssembledTop(d, s, digest);
    if Routed(lower, required, d) {
      RoutedMatches(lower, required, d, s, digest);
    }
  }

  lemma DraftOfSplit(d: Draft, split: RailPlans.Split, payTo: string)
    requires d.evm == Nested(d.accept, ["extensions", "evm"]) && d.split == Get(d.evm, "feeSplit")
    requires NestedRecord(d.accept, ["extensions", "evm", "feeSplit"]) == Some(SplitRecord(split, payTo))
    ensures d.split == SplitRecord(split, payTo)
    ensures Get(d.split, "grossAmount") == VStr(split.gross) && Get(d.split, "sellerAmount") == VStr(split.seller)
    ensures Get(d.split, "protocolFeeAmount") == VStr(split.fee) && Get(d.split, "sellerPayTo") == VStr(payTo)
    ensures Get(d.split, "protocolFeePayTo") == VStr(split.protocolFeePayTo)
  {
    hide Nested;
    Nested2(d.accept, "extensions", "evm");
    Nested3(d.accept, "extensions", "evm", "feeSplit");
  }

  // ---- where the two languages trim differently ----

  /** An advertised split of nine units, the seller's five as the given text writes them. */
  function SampleSplit(seller: string): Value {
    VObj(map[
      "sellerPayTo" := VStr("a"), "protocolFeePayTo" := VStr("b"), "sellerAmount" := VStr(seller),
      "protocolFeeAmount" := VStr("4"), "grossAmount" := VStr("9")])
  }

  function SampleEvm(seller: string): Value {
    VObj(map["assetAddress" := VStr("c"), "chainId" := VNum(1), "feeSplit" := SampleSplit(seller)])
  }

  function SampleAccept(seller: string): Value {
    VObj(map[
      "settlementModel" := VStr(SPLIT_MODEL), "network" := VStr("n"), "settlementRail" := VStr("evm"),
      "payTo" := VStr("a"), "amount" := VStr("9"), "extensions" := VObj(map["evm" := SampleEvm(seller)])])
  }

  function SampleRequirement(seller: string): Value {
    VObj(map["requestId" := VStr("r"), "accepts" := VArr([SampleAccept(seller)])])
  }

  lemma SampleSplitFields(seller: string)
    requires Strip(seller) != ""
    ensures var split := SampleSplit(seller);
            && PyField(split, "sellerPayTo") == Ok("a") && PyField(split, "protocolFeePayTo") == Ok("b")
            && PyField(split, "sellerAmount") == Ok(Strip(seller)) && PyField(split, "protocolFeeAmount") == Ok("4")
            && Get(split, "sellerAmount") == VStr(seller) && Get(split, "grossAmount") == VStr("9")
            && Get(split, "protocolFeeAmount") == VStr("4")
            && Get(split, "sellerPayTo") == VStr("a") && Get(split, "protocolFeePayTo") == VStr("b")
  {
    hide Strip;
  }

  lemma SampleEvmFields(seller: string)
    ensures var evm := SampleEvm(seller);
            && evm.VObj? && Get(evm, "feeSplit") == SampleSplit(seller) && Get(evm, "chainId") == VNum(1)
            && PyField(evm, "assetAddress") == Ok("c")
  {
    hide Strip, SampleSplit;
  }

  lemma SampleAcceptFields(seller: string)
    ensures var accept := SampleAccept(seller);
            && accept.VObj? && Get(accept, "settlementModel") == VStr(SPLIT_MODEL)
            && Get(accept, "settlementRail") == VStr("evm") && Get(accept, "payTo") == VStr("a")
            && Get(accept, "network") == VStr("n") && Get(accept, "amount") == VStr("9")
            && Get(accept, "asset") == VUndef && Get(Get(accept, "extensions"), "evm") == SampleEvm(seller)
  {
    hide SampleEvm;
  }

  lemma SampleAcceptParts(seller: string)
    ensures var accept := SampleAccept(seller);
            && PyAccept(accept) && Nested(accept, ["extensions", "evm"]) == SampleEvm(seller)
            && PyField(accept, "network") == Ok("n") && PyGross(accept) == "9"
            && PyAsset(accept, SampleEvm(seller)) == Ok("c")
  {
    hide Nested, Strip, SampleEvm, SampleAccept;
    var accept := SampleAccept(seller);
    SampleAcceptFields(seller);
    SampleEvmFields(seller);
    Nested2(accept, "extensions", "evm");
    Nested3(accept, "extensions", "evm", "feeSplit");
  }

  /** The job pack drafts a payload for such a requirement, on its only accept. */
  lemma SampleDraft(seller: string, session: Value)
    requires Strip(seller) != ""
    ensures PyDraft(SampleRequirement(seller), session).Ok?
    ensures var d := PyDraft(SampleRequirement(seller), session).value;
            && d.accept == SampleAccept(seller) && d.split == SampleSplit(seller) && d.gross == "9"
            && d.sellerPayTo == "a" && d.feePayTo == "b" && d.network == "n"
  {
    hide Strip, SampleAccept, SampleEvm, SampleSplit, PyTextOr, PyAccept, Nested, FirstTruthy, PyGross, PyAsset,
         PyField;
    var required := SampleRequirement(seller);
    SampleSplitFields(seller);
    SampleEvmFields(seller);
    SampleAcceptParts(seller);
    assert PyField(required, "requestId") == Ok("r") by {
      SampleRequest(seller);
    }
    assert Elements(Get(required, "accepts")) == [SampleAccept(seller)];
  }

  lemma SampleRequest(seller: string)
    ensures PyField(SampleRequirement(seller), "requestId") == Ok("r")
  {
    hide Strip, SampleAccept;
  }

  /** The indexer takes the payload exactly when it trims the seller's amount the way the job pack strips it. */
  lemma SampleAccepted(lower: Lower, seller: string, session: Value, s: Signing, digest: Digest)
    requires Strip(seller) != ""
    ensures PyDraft(SampleRequirement(seller), session).Ok?
    ensures var p := Assemble(PyDraft(SampleRequirement(seller), session).value, s, digest);
            Accepts(lower, p, true, SampleRequirement(seller)) <==> Trim(seller) == Strip(seller)
  {
    hide Strip, SampleRequirement, SampleSplit, PyDraft, PyField, Assemble, Trim, Accepts, Routed, PayeesAgree;
    var required := SampleRequirement(seller);
    SampleDraft(seller, session);
    var d := PyDraft(required, session).value;
    SampleSplitFields(seller);
    SampleRouted(lower, seller, d);
    DigitsTrimmed("9");
    DigitsTrimmed("4");
    SamplePayees(lower, d);
    PyAccepted(lower, required, session, d, s, digest);
  }

  lemma SampleRouted(lower: Lower, seller: string, d: Draft)
    requires d.accept == SampleAccept(seller) && d.sellerPayTo == "a" && d.network == "n"
    ensures Routed(lower, SampleRequirement(seller), d)
  {
    hide SampleAccept, Trim;
    SampleAcceptFields(seller);
    assert Elements(Get(SampleRequirement(seller), "accepts")) == [SampleAccept(seller)];
  }

  lemma SamplePayees(lower: Lower, d: Draft)
    requires Get(d.split, "sellerPayTo") == VStr("a") && Get(d.split, "protocolFeePayTo") == VStr("b")
    requires d.sellerPayTo == "a" && d.feePayTo == "b"
    ensures PayeesAgree(lower, d, TermsOf(d.accept, d.split))
  {
    hide Get;
  }

  /**
   A next-line character before the amount is white space to Python alone: the job pack signs, the indexer refuses.
   */
  lemma PaddedSellerRefused(lower: Lower, session: Value, s: Signing, digest: Digest)
    ensures var required := SampleRequirement("\U{85}5");
            && PyDraft(required, session).Ok?
            && !Accepts(lower, Assemble(PyDraft(required, session).value, s, digest), true, required)
  {
    hide PyDraft, SampleRequirement, Assemble, Accepts;
    assert "\U{85}5"[1..] == "5";
    assert Strip("\U{85}5") == "5" && Trim("\U{85}5") == "\U{85}5";
    SampleAccepted(lower, "\U{85}5", session, s, digest);
  }

  /** An exact-split accept without a split of its own, for the runtime rail of a ready plan. */
  ghost predicate OffersRail(
      lower: Lower, raw: Value, rails: seq<RuntimeRail>, console: RailPlans.Console, rail: FeePolicy.Rail)
  {
    && raw.VObj? && NestedRecord(raw, ["extensions", "evm", "feeSplit"]).None?
    && Get(raw, "settlementModel") == VStr(SPLIT_MODEL) && Get(raw, "settlementRail") == VStr("evm")
    && var runtime := MatchingRuntimeRail(lower, raw, rails);
       && runtime.Some? && runtime.value.rail == rail
       && runtime.value.payTo == FeePolicy.PayoutWallet(console.profile, rail)
  }

  lemma ReadyIsPlanned(
      console: RailPlans.Console, settings: RailPlans.Settings, fees: map<FeePolicy.Rail, string>, rail: FeePolicy.Rail,
      lower: Lower, raw: Value, rails: seq<RuntimeRail>)
    requires RailPlans.ReadyAtPrice(console, settings, fees, rail) && OffersRail(lower, raw, rails, console, rail)
    ensures var previews := FeePolicy.BuildPreviews(console.policy, console.profile, fees);
            && Planned(lower, raw, previews, rails)
            && var (split, payTo) := PlannedTerms(lower, raw, previews, rails);
               && RequireAssetAtomicAmount(console.profile.fixedAmountUsd, 6) == Ok(split.gross)
               && split.fee == NatText(RailPlans.FeeTaken(console, fees, rail).value)
               && rail in console.policy.recipients && split.protocolFeePayTo == console.policy.recipients[rail]
               && rail in console.profile.payoutWallets && payTo == Trim(console.profile.payoutWallets[rail])
  {
    hide RailPlans.Ready, RailPlans.Hosted, FeePolicy.BuildPreviews, FeePolicy.FindPreview, RailPlans.ExactSplit,
         NestedRecord, MatchingRuntimeRail, RequireAssetAtomicAmount, NatText, ParseUsd, FeePolicy.EffectiveFee,
         RailPlans.SplitAddsUp, SplitRecord, FeePolicy.NonBlank;
    RailPlans.ReadyIsPayable(console, settings, fees, rail);
  }

  /**
   From a requirement whose first exact-split accept is a planned one, the browser builds a payload as soon as the plain
   fields are there.
   */
  lemma PlannedBrowserDrafts(
      lower: Lower, raw: Value, previews: seq<FeePolicy.Preview>, rails: seq<RuntimeRail>, required: Value)
    requires Planned(lower, raw, previews, rails)
    requires Find(Elements(Get(required, "accepts")), BrowserAccept) ==
             Some(NormalizeAccept(lower, raw, previews, rails))
    ensures var (split, payTo) := PlannedTerms(lower, raw, previews, rails);
            var n := NormalizeAccept(lower, raw, previews, rails);
            && (BrowserDraft(required).Ok? <==>
                  && Trim(payTo) != "" && Trim(split.protocolFeePayTo) != ""
                  && StringField(Nested(n, ["extensions", "evm"]), "assetAddress").Ok?
                  && StringField(n, "network").Ok? && StringField(required, "requestId").Ok?)
            && (BrowserDraft(required).Ok? ==> BrowserDraft(required).value.accept == n)
  {
    hide NormalizeAccept, Nested, SplitFor, PlannedTerms, Planned, NatValue, TextOr, BrowserSession,
         RailPlans.SplitAddsUp, Trim, SplitRecord, StringField, BrowserGross, BrowserAsset, BrowserDraft;
    var (split, payTo) := PlannedTerms(lower, raw, previews, rails);
    var n := NormalizeAccept(lower, raw, previews, rails);
    PlannedAccept(lower, raw, previews, rails);
    AddsUpDigits(split);
    DigitsTrimmed(split.gross);
    DigitsTrimmed(split.seller);
    DigitsTrimmed(split.fee);
    Nested2(n, "extensions", "evm");
    Nested3(n, "extensions", "evm", "feeSplit");
    RecordFields(split, payTo);
    BrowserDrafts(required, n);
    DraftParts(n, Nested(n, ["extensions", "evm"]), SplitRecord(split, payTo), split, payTo);
  }

  lemma BrowserDrafts(required: Value, n: Value)
    requires Find(Elements(Get(required, "accepts")), BrowserAccept) == Some(n)
    ensures var evm := Nested(n, ["extensions", "evm"]);
            var split := Get(evm, "feeSplit");
            && (BrowserDraft(required).Ok? <==>
                  && evm.VObj? && split.VObj?
                  && StringField(split, "sellerPayTo").Ok? && StringField(split, "protocolFeePayTo").Ok?
                  && StringField(split, "sellerAmount").Ok? && StringField(split, "protocolFeeAmount").Ok?
                  && BrowserGross(n).Ok? && BrowserAsset(n, evm).Ok?
                  && StringField(evm, "assetAddress").Ok? && StringField(n, "network").Ok?
                  && StringField(required, "requestId").Ok?)
            && (BrowserDraft(required).Ok? ==> BrowserDraft(required).value.accept == n)
  {
    hide StringField, BrowserGross, BrowserAsset, Get, Nested, TextOr, BrowserSession, Find, BrowserAccept;
  }

  lemma DraftParts(n: Value, evm: Value, record: Value, split: RailPlans.Split, payTo: string)
    requires Get(n, "amount") == VStr(split.gross) && Trim(split.gross) != "" && Trim(split.seller) != ""
    requires Trim(split.fee) != ""
    requires Get(record, "sellerPayTo") == VStr(payTo)
    requires Get(record, "protocolFeePayTo") == VStr(split.protocolFeePayTo)
    requires Get(record, "sellerAmount") == VStr(split.seller) && Get(record, "protocolFeeAmount") == VStr(split.fee)
    ensures StringField(record, "sellerPayTo").Ok? <==> Trim(payTo) != ""
    ensures StringField(record, "protocolFeePayTo").Ok? <==> Trim(split.protocolFeePayTo) != ""
    ensures StringField(record, "sellerAmount").Ok? && StringField(record, "protocolFeeAmount").Ok?
    ensures BrowserGross(n).Ok?
    ensures StringField(evm, "assetAddress").Ok? ==> BrowserAsset(n, evm).Ok?
  {
    hide Get, Trim;
  }

  lemma RecordFields(split: RailPlans.Split, payTo: string)
    ensures var r := SplitRecord(split, payTo);
            && r.VObj? && Get(r, "sellerPayTo") == VStr(payTo)
            && Get(r, "protocolFeePayTo") == VStr(split.protocolFeePayTo)
            && Get(r, "sellerAmount") == VStr(split.seller) && Get(r, "protocolFeeAmount") == VStr(split.fee)
            && Get(r, "grossAmount") == VStr(split.gross) && Get(r, "feeBps") == VNum(split.feeBps)
            && Get(r, "version") == VStr("protocol-owner-fee-v1")
            && Get(r, "feeSettlementMode") == VStr("exact-eip3009-split-v1")
  {
  }

  /**
   From the price to the signatures: when the plan calls a rail ready, the payload the browser builds from its
   requirement is accepted, its fee authorization is for the planned fee, and both together pay the advertised price in
   token units.
   */
  lemma PriceIsPaid(
      console: RailPlans.Console, settings: RailPlans.Settings, fees: map<FeePolicy.Rail, string>, rail: FeePolicy.Rail,
      lower: Lower, raw: Value, rails: seq<RuntimeRail>, required: Value, d: Draft, s: Signing, digest: Digest)
    requires RailPlans.ReadyAtPrice(console, settings, fees, rail) && OffersRail(lower, raw, rails, console, rail)
    requires Unambiguous(lower, required) && BrowserDraft(required) == Ok(d)
    requires d.accept ==
             NormalizeAccept(lower, raw, FeePolicy.BuildPreviews(console.policy, console.profile, fees), rails)
    ensures Accepts(lower, Assemble(d, s, digest), true, required)
    ensures var seller, fee := SellerValue(Assemble(d, s, digest)), FeeValue(Assemble(d, s, digest));
            var price := RequireAssetAtomicAmount(console.profile.fixedAmountUsd, 6);
            && seller.Some? && fee.Some? && price.Ok? && AllDigits(seller.value) && AllDigits(fee.value)
            && AllDigits(price.value)
            && NatValue(seller.value) + NatValue(fee.value) == NatValue(price.value)
            && fee.value == NatText(RailPlans.FeeTaken(console, fees, rail).value)
            && rail in console.profile.payoutWallets && rail in console.policy.recipients
            && SignsAway(
                 Assemble(d, s, digest), d, s, Trim(console.profile.payoutWallets[rail]), seller.value,
                 console.policy.recipients[rail], fee.value)
  {
    hide Assemble, NormalizeAccept, FeePolicy.BuildPreviews, RequireAssetAtomicAmount, NatText, NatValue, ParseUsd,
         Accepts, SellerValue, FeeValue, Unambiguous, Planned, PlannedTerms, RailPlans.ReadyAtPrice, RailPlans.FeeTaken,
         BrowserDraft, MatchingRuntimeRail, NestedRecord;
    var previews := FeePolicy.BuildPreviews(console.policy, console.profile, fees);
    ReadyIsPlanned(console, settings, fees, rail, lower, raw, rails);
    PlannedBrowserAccepted(lower, raw, previews, rails, required, d, s, digest);
  }
}
