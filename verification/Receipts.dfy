/** Delivery receipts, the per-request index over them, and the buyer's acknowledgement. */
module Receipts {
  import opened Wrappers
  import opened Text
  import opened Lists

  datatype DeliveryMode = DirectReceipt | ExternalReference

  datatype Transport = BuyerAgentInbox | ExternalUrl | OutOfBand | Custom

  datatype ScanPolicy = BuyerRequired | ExternalUnverified | ExternalVerified | NoScanPolicy

  datatype Acceptance = Pending | Accepted | Rejected | NotRequired

  datatype ScanStatus = NotScanned | Passed | Failed | ScanNotRequired

  datatype DeliveryState =
    BuyerRejected | BuyerAccepted | BuyerScanFailed | BuyerScanPassed | DigestVerified | BytesReceived | ReceiptRecorded

  /** What a receipt says about the delivery itself. */
  datatype Identity = Identity(
    id: string, requestId: string, createdAt: int, deliveredAt: string,
    mode: DeliveryMode, transport: Transport, scanPolicy: ScanPolicy,
    acceptanceRequired: bool, filename: string, contentType: string, digest: string, bytes: nat,
    url: Option<string>, channel: Option<string>, sellerReceipt: Option<string>, sellerSignature: Option<string>)

  datatype Receipt = Receipt(
    identity: Identity, updatedAt: int, acceptance: Acceptance, acknowledgedAt: Option<int>, note: Option<string>,
    bytesReceived: Option<bool>, digestVerified: Option<bool>, scanStatus: Option<ScanStatus>,
    manifestDigest: string, tokenHash: string)

  datatype Options = Options(
    requestId: string, mode: DeliveryMode, transport: Option<Transport>,
    scanPolicy: Option<ScanPolicy>, acceptanceRequired: Option<bool>,
    filename: string, contentType: string, digest: string, bytes: int,
    url: Option<string>, channel: Option<string>, sellerReceipt: Option<string>, sellerSignature: Option<string>,
    deliveredAt: Option<string>)

  datatype Acknowledgement = Acknowledgement(
    accepted: bool, note: Option<string>, bytesReceived: Option<bool>, digestVerified: Option<bool>,
    scanStatus: Option<ScanStatus>)

  datatype Error = BadSize | UrlRequired | BadDigest | NotFound | TokenRejected

  /** An index file: the request it is for and the receipts of that request, newest first. */
  datatype Index = Index(requestId: string, ids: seq<string>)

  // Normalisation of the caller's fields

  function LowerHex(c: char): char {
    if 'A' <= c <= 'F' then (c as int + 32) as char else c
  }

  /** Lower case keeps a hexadecimal digit's value, and makes a hexadecimal digit of nothing else. */
  lemma LowerHexKeepsValue(c: char)
    ensures IsLowerHex(LowerHex(c)) <==> IsHex(c)
    ensures IsHex(c) ==> HexDigit(LowerHex(c)) == HexDigit(c)
  {
  }

  /** A digest in any letter case becomes 64 lower-case hexadecimal digits, and nothing else is taken. */
  function NormalizeSha256(value: string): (r: Option<string>)
    ensures r.Some? <==> |Trim(value)| == 64 && forall i :: 0 <= i < 64 ==> IsLowerHex(LowerHex(Trim(value)[i]))
    ensures r.Some? ==> IsDigest(r.value)
    ensures r.Some? ==> forall i :: 0 <= i < 64 ==> r.value[i] == LowerHex(Trim(value)[i])
    ensures IsDigest(value) ==> r == Some(value)
  {
    hide Trim;
    assert IsDigest(value) ==> Trim(value) == value by {
      if IsDigest(value) {
        assert IsLowerHex(value[0]) && IsLowerHex(value[63]);
      }
    }
    var t := Trim(value);
    var lower := seq(|t|, i requires 0 <= i < |t| => LowerHex(t[i]));
    assert IsDigest(value) ==> lower == value;
    assert |t| == 64 ==> forall i :: 0 <= i < 64 ==> lower[i] == LowerHex(t[i]);
    if IsDigest(lower) then Some(lower) else None
  }

  function ResolveTransport(value: Option<Transport>, mode: DeliveryMode): Transport {
    if value.Some? then value.value else if mode == ExternalReference then ExternalUrl else OutOfBand
  }

  function ResolveScanPolicy(value: Option<ScanPolicy>, mode: DeliveryMode): ScanPolicy {
    if value.Some? then value.value else if mode == ExternalReference then ExternalUnverified else BuyerRequired
  }

  /** The receipt the options describe, or the first check they fail. */
  function Draft(o: Options, id: string, now: int, nowText: string): Result<Identity, Error> {
    var url := OptionalText(o.url, 2048);
    if o.bytes <= 0 then Err(BadSize)
    else if o.mode == ExternalReference && url.None? then Err(UrlRequired)
    else if NormalizeSha256(o.digest).None? then Err(BadDigest)
    else
      var given := if o.deliveredAt.Some? then Trim(o.deliveredAt.value) else "";
      var delivered := if given != "" then given else nowText;
      Ok(Identity(
        id, Trim(o.requestId), now, delivered, o.mode, ResolveTransport(o.transport, o.mode),
        ResolveScanPolicy(o.scanPolicy, o.mode), o.acceptanceRequired != Some(false), o.filename, o.contentType,
        NormalizeSha256(o.digest).value, o.bytes, url, OptionalText(o.channel, 240),
        OptionalText(o.sellerReceipt, 2048), OptionalText(o.sellerSignature, 512)))
  }

  /** What the options make a receipt say. */
  ghost predicate Says(d: Identity, o: Options, id: string, now: int, nowText: string) {
    && d.id == id && d.createdAt == now && d.requestId == Trim(o.requestId) && d.mode == o.mode
    && d.filename == o.filename && d.contentType == o.contentType && d.bytes == o.bytes
    && Some(d.digest) == NormalizeSha256(o.digest)
    && (d.acceptanceRequired <==> o.acceptanceRequired != Some(false))
    && (o.deliveredAt.Some? && Trim(o.deliveredAt.value) != "" ==> d.deliveredAt == Trim(o.deliveredAt.value))
    && (o.deliveredAt.None? || Trim(o.deliveredAt.value) == "" ==> d.deliveredAt == nowText)
    && (o.transport.Some? ==> o.transport == Some(d.transport))
    && (o.transport.None? ==>
          && (o.mode == ExternalReference ==> d.transport == ExternalUrl)
          && (o.mode == DirectReceipt ==> d.transport == OutOfBand))
    && (o.scanPolicy.Some? ==> o.scanPolicy == Some(d.scanPolicy))
    && (o.scanPolicy.None? ==>
          && (o.mode == ExternalReference ==> d.scanPolicy == ExternalUnverified)
          && (o.mode == DirectReceipt ==> d.scanPolicy == BuyerRequired))
    && d.url == OptionalText(o.url, 2048) && d.channel == OptionalText(o.channel, 240)
    && d.sellerReceipt == OptionalText(o.sellerReceipt, 2048)
    && d.sellerSignature == OptionalText(o.sellerSignature, 512)
  }

  /** Options make a receipt exactly when there is something, to be found somewhere, under a digest. */
  lemma DraftIff(o: Options, id: string, now: int, nowText: string)
    ensures var d := Draft(o, id, now, nowText);
            var unplaced := o.mode == ExternalReference && (o.url.None? || Trim(o.url.value) == "");
            && (d == Err(BadSize) <==> o.bytes <= 0)
            && (d == Err(UrlRequired) <==> o.bytes > 0 && unplaced)
            && (d == Err(BadDigest) <==> o.bytes > 0 && !unplaced && NormalizeSha256(o.digest).None?)
            && (d.Ok? <==> o.bytes > 0 && !unplaced && NormalizeSha256(o.digest).Some?)
            && (d.Ok? ==> Says(d.value, o, id, now, nowText))
  {
    hide Trim, NormalizeSha256, OptionalText;
    OptionalTextMeans(o.url, 2048);
  }

  // Delivery state

  function State(r: Receipt): DeliveryState {
    if r.acceptance == Rejected then BuyerRejected
    else if r.acceptance == Accepted then BuyerAccepted
    else if r.scanStatus == Some(Failed) then BuyerScanFailed
    else if r.scanStatus == Some(Passed) then BuyerScanPassed
    else if r.digestVerified == Some(true) then DigestVerified
    else if r.bytesReceived == Some(true) then BytesReceived
    else ReceiptRecorded
  }

  /** The verdict counts before the scan, the scan before the digest, and the digest before the bytes. */
  lemma StateMeans(r: Receipt)
    ensures var decided := r.acceptance == Rejected || r.acceptance == Accepted;
            var scanned := r.scanStatus == Some(Failed) || r.scanStatus == Some(Passed);
            var checked := r.digestVerified == Some(true);
            && (State(r) == BuyerRejected <==> r.acceptance == Rejected)
            && (State(r) == BuyerAccepted <==> r.acceptance == Accepted)
            && (State(r) == BuyerScanFailed <==> !decided && r.scanStatus == Some(Failed))
            && (State(r) == BuyerScanPassed <==> !decided && r.scanStatus == Some(Passed))
            && (State(r) == DigestVerified <==> !decided && !scanned && checked)
            && (State(r) == BytesReceived <==> !decided && !scanned && !checked && r.bytesReceived == Some(true))
  {
  }

  /** How the acknowledgement fields of a stored receipt hang together. */
  predicate Coherent(r: Receipt) {
    && (r.acceptance == NotRequired <==> !r.identity.acceptanceRequired)
    && (r.acceptance == Pending || r.acceptance == NotRequired ==>
          r.updatedAt == r.identity.createdAt && r.acknowledgedAt.None? && r.note.None?
          && r.bytesReceived.None? && r.digestVerified.None? && r.scanStatus.None?)
    && (r.acceptance == Accepted || r.acceptance == Rejected ==> r.acknowledgedAt == Some(r.updatedAt))
  }

  function Acknowledged(r: Receipt, a: Acknowledgement, now: int): Receipt {
    var note := OptionalText(a.note, 240);
    r.(
      updatedAt := now, acceptance := if a.accepted then Accepted else Rejected, acknowledgedAt := Some(now),
      note := if note.Some? then note else r.note,
      bytesReceived := if a.bytesReceived.Some? then a.bytesReceived else r.bytesReceived,
      digestVerified := if a.digestVerified.Some? then a.digestVerified else r.digestVerified,
      scanStatus := if a.scanStatus.Some? then a.scanStatus else r.scanStatus)
  }

  /** The buyer's verdict is on record: the state says it, the times are now, and each report is the newest given. */
  ghost predicate Recorded(was: Receipt, r: Receipt, a: Acknowledgement, now: int) {
    && State(r) == (if a.accepted then BuyerAccepted else BuyerRejected)
    && r.updatedAt == now && r.acknowledgedAt == Some(now)
    && (a.bytesReceived.Some? ==> r.bytesReceived == a.bytesReceived)
    && (a.bytesReceived.None? ==> r.bytesReceived == was.bytesReceived)
    && (a.digestVerified.Some? ==> r.digestVerified == a.digestVerified)
    && (a.digestVerified.None? ==> r.digestVerified == was.digestVerified)
    && (a.scanStatus.Some? ==> r.scanStatus == a.scanStatus)
    && (a.scanStatus.None? ==> r.scanStatus == was.scanStatus)
    && (a.note.None? || Trim(a.note.value) == "" ==> r.note == was.note)
    && (a.note.Some? && Trim(a.note.value) != "" ==>
          r.note.Some? && |r.note.value| <= 240 && r.note.value <= Trim(a.note.value)
          && (|Trim(a.note.value)| <= 240 ==> r.note.value == Trim(a.note.value)))
    && r.identity == was.identity && r.manifestDigest == was.manifestDigest && r.tokenHash == was.tokenHash
  }

  lemma AcknowledgedRecords(r: Receipt, a: Acknowledgement, now: int)
    ensures Recorded(r, Acknowledged(r, a, now), a, now)
  {
    hide Trim, OptionalText;
    OptionalTextMeans(a.note, 240);
  }

  // Sorting by update time

  /** Placed before everything that is not newer, so that receipts of one time keep their order. */
  function Insert(x: Receipt, s: seq<Receipt>): seq<Receipt> {
    if s == [] || x.updatedAt >= s[0].updatedAt then [x] + s else [s[0]] + Insert(x, s[1..])
  }

  function SortNewest(s: seq<Receipt>): seq<Receipt> {
    if s == [] then [] else Insert(s[0], SortNewest(s[1..]))
  }

  predicate NewestFirst(s: seq<Receipt>) {
    forall i, j :: 0 <= i < j < |s| ==> s[i].updatedAt >= s[j].updatedAt
  }

  /** The receipts of one update time, in order. */
  function At(s: seq<Receipt>, t: int): seq<Receipt> {
    if s == [] then [] else (if s[0].updatedAt == t then [s[0]] else []) + At(s[1..], t)
  }

  lemma {:induction false} InsertSorts(x: Receipt, s: seq<Receipt>)
    requires NewestFirst(s)
    ensures NewestFirst(Insert(x, s))
    ensures forall y :: y in Insert(x, s) <==> y == x || y in s
    ensures |Insert(x, s)| == |s| + 1
  {
    if s != [] && x.updatedAt < s[0].updatedAt {
      var rest := Insert(x, s[1..]);
      InsertSorts(x, s[1..]);
      forall j | 0 <= j < |rest| ensures s[0].updatedAt >= rest[j].updatedAt {
        assert rest[j] in rest;
      }
      assert forall y :: y in s <==> y == s[0] || y in s[1..];
    }
  }

  lemma {:induction false} OlderThan(s: seq<Receipt>, t: int)
    requires forall i :: 0 <= i < |s| ==> s[i].updatedAt < t
    ensures At(s, t) == []
  {
    if s != [] {
      OlderThan(s[1..], t);
    }
  }

  lemma {:induction false} InsertStable(x: Receipt, s: seq<Receipt>, t: int)
    ensures At(Insert(x, s), t) == At([x] + s, t)
  {
    if s != [] && x.updatedAt < s[0].updatedAt {
      InsertStable(x, s[1..], t);
      assert ([s[0]] + Insert(x, s[1..]))[1..] == Insert(x, s[1..]);
      assert ([x] + s)[1..] == s && ([x] + s[1..])[1..] == s[1..];
    }
  }

  /**
   The sort puts the newest update first and keeps the order of receipts updated at the same time: a stable permutation.
   */
  lemma {:induction false} SortsStably(s: seq<Receipt>)
    ensures NewestFirst(SortNewest(s)) && |SortNewest(s)| == |s|
    ensures forall y :: y in SortNewest(s) <==> y in s
    ensures forall t :: At(SortNewest(s), t) == At(s, t)
  {
    if s != [] {
      SortsStably(s[1..]);
      InsertSorts(s[0], SortNewest(s[1..]));
      assert s == [s[0]] + s[1..];
      forall t ensures At(SortNewest(s), t) == At(s, t) {
        var rest := SortNewest(s[1..]);
        InsertStable(s[0], rest, t);
        assert ([s[0]] + rest)[1..] == rest;
      }
    }
  }

  predicate DistinctIds(s: seq<Receipt>) {
    forall i, j :: 0 <= i < j < |s| ==> s[i].identity.id != s[j].identity.id
  }

  lemma {:induction false} InsertDistinct(x: Receipt, s: seq<Receipt>)
    requires DistinctIds(s) && forall i :: 0 <= i < |s| ==> s[i].identity.id != x.identity.id
    ensures DistinctIds(Insert(x, s))
    ensures forall y :: y in Insert(x, s) <==> y == x || y in s
  {
    if s != [] && x.updatedAt < s[0].updatedAt {
      var rest := Insert(x, s[1..]);
      InsertDistinct(x, s[1..]);
      forall j | 0 <= j < |rest| ensures s[0].identity.id != rest[j].identity.id {
        assert rest[j] in rest;
      }
      assert forall y :: y in s <==> y == s[0] || y in s[1..];
    }
  }

  lemma {:induction false} SortKeepsDistinct(s: seq<Receipt>)
    requires DistinctIds(s)
    ensures DistinctIds(SortNewest(s))
    ensures forall y :: y in SortNewest(s) <==> y in s
  {
    if s != [] {
      var rest := SortNewest(s[1..]);
      SortKeepsDistinct(s[1..]);
      forall i | 0 <= i < |rest| ensures rest[i].identity.id != s[0].identity.id {
        assert rest[i] in s[1..];
      }
      InsertDistinct(s[0], rest);
      assert forall y :: y in s <==> y == s[0] || y in s[1..];
    }
  }

  // The index

  /** The receipts an index file gives for a request; a file that names another request gives none. */
  function IdsOf(hash: string -> string, index: map<string, Index>, requestId: string): seq<string> {
    var file := hash(requestId);
    if file in index && index[file].requestId == requestId then index[file].ids else []
  }

  /** First occurrences, in order. */
  function Unique(s: seq<string>): (r: seq<string>)
    ensures NoRepeats(r) && forall x :: x in r <==> x in s
    ensures NoRepeats(s) ==> r == s
  {
    if s == [] then []
    else
      var front, last := Unique(s[..|s| - 1]), s[|s| - 1];
      assert s == s[..|s| - 1] + [last];
      if last in s[..|s| - 1] then front else front + [last]
  }

  function AddToIndex(
      hash: string -> string, index: map<string, Index>, requestId: string, id: string): map<string, Index>
  {
    if Trim(requestId) == "" || Trim(id) == "" then index
    else
      var request := Trim(requestId);
      index[hash(request) := Index(request, Unique([Trim(id)] + IdsOf(hash, index, request)))]
  }

  /** The index lists, for every non-blank request, exactly its stored receipts, each once. */
  ghost predicate Indexed(hash: string -> string, receipts: map<string, Receipt>, index: map<string, Index>) {
    forall r: string :: r != "" ==>
      && NoRepeats(IdsOf(hash, index, r))
      && forall id :: id in IdsOf(hash, index, r) <==> id in receipts && receipts[id].identity.requestId == r
  }

  lemma IndexedAdd(
      hash: string -> string, receipts: map<string, Receipt>, index: map<string, Index>, receipt: Receipt, id: string)
    requires Injective(hash) && Indexed(hash, receipts, index) && id !in receipts && id != "" && Trim(id) == id
    requires Trim(receipt.identity.requestId) == receipt.identity.requestId
    ensures Indexed(hash, receipts[id := receipt], AddToIndex(hash, index, receipt.identity.requestId, id))
  {
    hide Trim, Unique, NoRepeats, AddToIndex, IdsOf;
    var to := receipt.identity.requestId;
    var newReceipts, newIndex := receipts[id := receipt], AddToIndex(hash, index, to, id);
    forall r: string | r != ""
      ensures NoRepeats(IdsOf(hash, newIndex, r))
      ensures forall x :: x in IdsOf(hash, newIndex, r) <==> x in newReceipts && newReceipts[x].identity.requestId == r
    {
      var ids := IdsOf(hash, index, r);
      AddedIds(hash, index, to, id, r);
      if r == to {
        assert forall x :: x in [id] + ids <==> x == id || x in ids;
      }
    }
  }

  /** Adding a receipt puts it in front of its own request's list, and leaves the others alone. */
  lemma AddedIds(hash: string -> string, index: map<string, Index>, to: string, id: string, r: string)
    requires Injective(hash) && id != "" && Trim(id) == id && Trim(to) == to && r != ""
    ensures var ids := IdsOf(hash, index, r);
            IdsOf(hash, AddToIndex(hash, index, to, id), r) == if r == to then Unique([id] + ids) else ids
  {
    hide Trim, Unique;
    assert r != to ==> hash(r) != hash(to);
  }

  lemma SaysBasics(o: Options, id: string, now: int, nowText: string)
    ensures forall d :: Says(d, o, id, now, nowText) ==>
              d.createdAt == now && (d.acceptanceRequired <==> o.acceptanceRequired != Some(false))
  {
  }

  lemma DraftFields(o: Options, id: string, now: int, nowText: string)
    ensures var d := Draft(o, id, now, nowText);
            d.Ok? ==> d.value.id == id && d.value.createdAt == now && Trim(d.value.requestId) == d.value.requestId
  {
    hide Trim, OptionalText, NormalizeSha256, ResolveTransport, ResolveScanPolicy;
  }

  /** Every receipt still says what it said when recorded, under the same manifest digest. */
  ghost predicate Sound(
      manifestHash: Identity -> string, receipts: map<string, Receipt>, recorded: map<string, Identity>)
  {
    && recorded.Keys == receipts.Keys
    && forall id :: id in receipts ==>
         && id in recorded && receipts[id].identity == recorded[id] && recorded[id].id == id
         && receipts[id].manifestDigest == manifestHash(recorded[id])
         && Coherent(receipts[id])
  }

  /**
   Only three of the seven delivery states occur in a store: what the buyer reports comes with a verdict, and the
   verdict wins.
   */
  lemma ReachableStates(
      manifestHash: Identity -> string, receipts: map<string, Receipt>, recorded: map<string, Identity>, id: string)
    requires Sound(manifestHash, receipts, recorded) && id in receipts
    ensures var r := receipts[id];
            State(r) == match r.acceptance
                        case Accepted => BuyerAccepted
                        case Rejected => BuyerRejected
                        case _ => ReceiptRecorded
    ensures State(receipts[id]) == ReceiptRecorded <==> receipts[id].acknowledgedAt.None?
  {
    assert Coherent(receipts[id]);
  }

  /** A receipt as first stored. */
  function Fresh(identity: Identity, manifestDigest: string, tokenHash: string): Receipt {
    Receipt(
      identity, identity.createdAt, if identity.acceptanceRequired then Pending else NotRequired,
      None, None, None, None, None, manifestDigest, tokenHash)
  }

  lemma SoundAdd(
      manifestHash: Identity -> string, receipts: map<string, Receipt>, recorded: map<string, Identity>,
      identity: Identity, tokenHash: string)
    requires Sound(manifestHash, receipts, recorded) && identity.id !in receipts
    ensures var stored := Fresh(identity, manifestHash(identity), tokenHash);
            Sound(manifestHash, receipts[identity.id := stored], recorded[identity.id := identity])
  {
    assert Coherent(Fresh(identity, manifestHash(identity), tokenHash));
  }

  /** An acknowledgement changes no identity, so it disturbs neither the store nor the index. */
  lemma AcknowledgeKeeps(
      hash: string -> string, manifestHash: Identity -> string, receipts: map<string, Receipt>,
      index: map<string, Index>, recorded: map<string, Identity>, id: string, a: Acknowledgement, now: int)
    requires Sound(manifestHash, receipts, recorded) && Indexed(hash, receipts, index)
    requires id in receipts && receipts[id].identity.acceptanceRequired
    ensures Sound(manifestHash, receipts[id := Acknowledged(receipts[id], a, now)], recorded)
    ensures Indexed(hash, receipts[id := Acknowledged(receipts[id], a, now)], index)
  {
    hide OptionalText, IdsOf, NoRepeats;
  }

  class ReceiptStore {
    const hash: string -> string
    /** Digest of the receipt as first recorded. */
    const manifestHash: Identity -> string
    const timeText: int -> string
    var receipts: map<string, Receipt>
    var index: map<string, Index>
    /** History: what every receipt said when it was recorded. */
    ghost var recorded: map<string, Identity>

    ghost predicate Valid()
      reads this
    {
      Injective(hash) && Sound(manifestHash, receipts, recorded) && Indexed(hash, receipts, index)
    }

    constructor (hash: string -> string, manifestHash: Identity -> string, timeText: int -> string)
      requires Injective(hash)
      ensures Valid() && receipts == map[] && index == map[] && recorded == map[]
      ensures this.hash == hash && this.manifestHash == manifestHash && this.timeText == timeText
    {
      this.hash, this.manifestHash, this.timeText := hash, manifestHash, timeText;
      receipts, index, recorded := map[], map[], map[];
    }

    /** A new receipt, pending or needing no acceptance, or an error and no change. */
    method CreateReceipt(o: Options, id: string, token: string, now: int) returns (result: Result<Receipt, Error>)
      requires Valid() && id !in receipts && id != "" && Trim(id) == id
      modifies this
      ensures Valid()
      ensures match Draft(o, id, now, timeText(now))
              case Err(e) =>
                && result == Err(e) && receipts == old(receipts) && index == old(index) && recorded == old(recorded)
              case Ok(identity) =>
                && result == Ok(Fresh(identity, manifestHash(identity), hash(token)))
                && receipts == old(receipts)[id := result.value] && recorded == old(recorded)[id := identity]
      ensures result.Ok? ==>
                && Says(result.value.identity, o, id, now, timeText(now)) && State(result.value) == ReceiptRecorded
                && result.value.updatedAt == now && result.value.tokenHash == hash(token)
                && result.value.manifestDigest == manifestHash(result.value.identity)
                && (result.value.acceptance == Pending <==> o.acceptanceRequired != Some(false))
    {
      hide Trim, Indexed, Injective, Sound, Draft, AddToIndex, Says;
      DraftIff(o, id, now, timeText(now));
      SaysBasics(o, id, now, timeText(now));
      var draft := Draft(o, id, now, timeText(now));
      if draft.Err? {
        return Err(draft.error);
      }
      DraftFields(o, id, now, timeText(now));
      var receipt := Fresh(draft.value, manifestHash(draft.value), hash(token));
      assert id !in receipts && draft.value.id == id;
      IndexedAdd(hash, receipts, index, receipt, id);
      SoundAdd(manifestHash, receipts, recorded, draft.value, hash(token));
      recorded := recorded[id := draft.value];
      receipts := receipts[id := receipt];
      index := AddToIndex(hash, index, draft.value.requestId, id);
      result := Ok(receipt);
    }

    /** The stored receipts of a request, each exactly once, the newest update first; a blank request has none. */
    method ReceiptsForRequest(requestId: string) returns (found: seq<Receipt>)
      requires Valid()
      ensures NewestFirst(found) && DistinctIds(found)
      ensures forall r :: r in found <==>
                Trim(requestId) != "" && r in receipts.Values && r.identity.requestId == Trim(requestId)
    {
      hide Trim, SortNewest;
      var wanted := Trim(requestId);
      if wanted == "" {
        return [];
      }
      var ids := IdsOf(hash, index, wanted);
      found := [];
      for i := 0 to |ids|
        invariant |found| == i && forall k :: 0 <= k < i ==> ids[k] in receipts && found[k] == receipts[ids[k]]
      {
        assert ids[i] in ids;
        if ids[i] in receipts && receipts[ids[i]].identity.requestId == wanted {
          found := found + [receipts[ids[i]]];
        }
      }
      Collected(receipts, ids, found, wanted);
      SortsStably(found);
      SortKeepsDistinct(found);
      found := SortNewest(found);
    }

    /** The buyer's verdict, under the receipt's token; a receipt that needs no acceptance is returned as it is. */
    method AcknowledgeReceipt(id: string, token: string, a: Acknowledgement, now: int)
      returns (result: Result<Receipt, Error>)
      requires Valid()
      modifies `receipts
      ensures Valid()
      ensures result.Ok? <==>
              id in old(receipts) && Trim(token) != "" && hash(Trim(token)) == old(receipts)[id].tokenHash
      ensures result.Err? ==> result.error == if id in old(receipts) then TokenRejected else NotFound
      ensures result.Err? ==> receipts == old(receipts)
      ensures result.Ok? ==>
                && receipts == old(receipts)[id := result.value]
                && var was := old(receipts)[id];
                   result.value == if was.identity.acceptanceRequired then Acknowledged(was, a, now) else was
      ensures result.Ok? && old(receipts)[id].identity.acceptanceRequired ==>
                Recorded(old(receipts)[id], result.value, a, now)
    {
      hide Trim, Injective, Indexed, Sound, Acknowledged, Recorded;
      if id !in receipts {
        return Err(NotFound);
      }
      var r := receipts[id];
      if Trim(token) == "" || hash(Trim(token)) != r.tokenHash {
        return Err(TokenRejected);
      }
      if !r.identity.acceptanceRequired {
        assert receipts[id := r] == receipts;
        return Ok(r);
      }
      AcknowledgeKeeps(hash, manifestHash, receipts, index, recorded, id, a, now);
      AcknowledgedRecords(r, a, now);
      receipts := receipts[id := Acknowledged(r, a, now)];
      result := Ok(receipts[id]);
    }
  }

  /** Looking the ids of an index up gives the receipts of the request, each once. */
  lemma Collected(receipts: map<string, Receipt>, ids: seq<string>, found: seq<Receipt>, wanted: string)
    requires forall id :: id in receipts ==> receipts[id].identity.id == id
    requires NoRepeats(ids) && forall id :: id in ids <==> id in receipts && receipts[id].identity.requestId == wanted
    requires |found| == |ids| && forall k :: 0 <= k < |ids| ==> ids[k] in receipts && found[k] == receipts[ids[k]]
    ensures DistinctIds(found)
    ensures forall r :: r in found <==> r in receipts.Values && r.identity.requestId == wanted
  {
    forall r ensures r in found <==> r in receipts.Values && r.identity.requestId == wanted {
      if r in found {
        var k :| 0 <= k < |found| && found[k] == r;
        assert ids[k] in ids;
      }
      if r in receipts.Values && r.identity.requestId == wanted {
        var id :| id in receipts && receipts[id] == r;
        assert id in ids;
        var k :| 0 <= k < |ids| && ids[k] == id;
        assert found[k] == r;
      }
    }
  }
}
