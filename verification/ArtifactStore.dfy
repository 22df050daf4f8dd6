/** Encrypted artifacts with a retention period, an access token and a quota per request. */
module ArtifactStore {
  import opened Wrappers
  import opened Text
  import opened Bytes
  import opened Lists

  datatype Safety = Clean | BuyerScanRequired | Blocked | ScanUnavailable

  datatype Metadata = Metadata(
    id: string, requestId: string, createdAt: int, expiresAt: int, claimedAt: Option<int>,
    filename: string, contentType: string, plaintextBytes: nat, encryptedBytes: nat,
    digest: string, safety: Safety, iv: Bytes, authTag: Bytes, tokenHash: string)

  datatype Sealed = Sealed(ciphertext: Bytes, authTag: Bytes)

  datatype Error =
    | EmptyBody | TooLarge | TooMany | OverQuota | Unsafe | NoScan
    | NotFound | LinkExpired | TokenRejected | Undecryptable | DigestMismatch

  /** What a request uses: unexpired artifacts and their plaintext bytes. */
  datatype Usage = Usage(count: nat, bytes: nat)

  predicate Live(m: Metadata, requestId: string, now: int) {
    m.requestId == requestId && now < m.expiresAt
  }

  function Use(stored: seq<Metadata>, requestId: string, now: int): Usage {
    if stored == [] then Usage(0, 0)
    else
      var m := stored[|stored| - 1];
      var u := Use(stored[..|stored| - 1], requestId, now);
      if Live(m, requestId, now) then Usage(u.count + 1, u.bytes + m.plaintextBytes) else u
  }

  ghost predicate Within(stored: seq<Metadata>, now: int, maxCount: nat, maxBytes: nat) {
    forall r: string :: Use(stored, r, now).count <= maxCount && Use(stored, r, now).bytes <= maxBytes
  }

  lemma UseAppend(stored: seq<Metadata>, m: Metadata, r: string, now: int)
    ensures var u := Use(stored, r, now);
            Use(stored + [m], r, now) == if Live(m, r, now) then Usage(u.count + 1, u.bytes + m.plaintextBytes) else u
  {
    assert (stored + [m])[..|stored|] == stored;
  }

  /** Time only frees quota. */
  lemma {:induction false} UseShrinks(stored: seq<Metadata>, r: string, now: int, later: int)
    requires now <= later
    ensures Use(stored, r, later).count <= Use(stored, r, now).count
    ensures Use(stored, r, later).bytes <= Use(stored, r, now).bytes
  {
    if stored != [] {
      UseShrinks(stored[..|stored| - 1], r, now, later);
    }
  }

  lemma WithinLater(stored: seq<Metadata>, now: int, later: int, maxCount: nat, maxBytes: nat)
    requires Within(stored, now, maxCount, maxBytes) && now <= later
    ensures Within(stored, later, maxCount, maxBytes)
  {
    forall r: string ensures Use(stored, r, later).count <= maxCount && Use(stored, r, later).bytes <= maxBytes {
      UseShrinks(stored, r, now, later);
    }
  }

  /** Cleaning keeps every unexpired artifact, in order. */
  function Kept(stored: seq<Metadata>, cutoff: int): (r: seq<Metadata>)
    ensures |r| <= |stored|
    ensures forall m :: m in r <==> m in stored && cutoff < m.expiresAt
  {
    if stored == [] then []
    else
      var m := stored[|stored| - 1];
      Kept(stored[..|stored| - 1], cutoff) + if cutoff < m.expiresAt then [m] else []
  }

  lemma KeptStep(names: seq<Metadata>, n: nat, cutoff: int)
    requires n < |names|
    ensures var kept := Kept(names[..n], cutoff);
            && Kept(names[..n + 1], cutoff) == kept + (if cutoff < names[n].expiresAt then [names[n]] else [])
            && kept + names[n..] == kept + [names[n]] + names[n + 1..]
  {
    assert names[..n + 1][..n] == names[..n];
    SplitHead(Kept(names[..n], cutoff), names, n);
  }

  lemma SplitHead(kept: seq<Metadata>, names: seq<Metadata>, n: nat)
    requires n < |names|
    ensures kept + names[n..] == kept + [names[n]] + names[n + 1..]
  {
  }

  lemma KeptEnds(names: seq<Metadata>, cutoff: int)
    ensures Kept(names[..0], cutoff) == [] && names[0..] == names
    ensures names[..|names|] == names && names[|names|..] == []
  {
  }

  lemma {:induction false} KeptUses(stored: seq<Metadata>, cutoff: int, r: string, now: int)
    ensures Use(Kept(stored, cutoff), r, now).count <= Use(stored, r, now).count
    ensures Use(Kept(stored, cutoff), r, now).bytes <= Use(stored, r, now).bytes
  {
    if stored != [] {
      var m := stored[|stored| - 1];
      var rest := Kept(stored[..|stored| - 1], cutoff);
      KeptUses(stored[..|stored| - 1], cutoff, r, now);
      UseAppend(rest, m, r, now);
      assert rest + [] == rest;
    }
  }

  predicate DistinctIds(stored: seq<Metadata>) {
    forall i, j :: 0 <= i < j < |stored| ==> stored[i].id != stored[j].id
  }

  lemma {:induction false} KeptDistinct(stored: seq<Metadata>, cutoff: int)
    requires DistinctIds(stored)
    ensures DistinctIds(Kept(stored, cutoff))
  {
    if stored != [] {
      var m, front := stored[|stored| - 1], stored[..|stored| - 1];
      var rest := Kept(front, cutoff);
      KeptDistinct(front, cutoff);
      forall i | 0 <= i < |rest| ensures rest[i].id != m.id {
        assert rest[i] in front;
      }
    }
  }

  lemma {:induction false} ClaimUses(stored: seq<Metadata>, k: nat, at: Option<int>, r: string, now: int)
    requires k < |stored|
    ensures Use(stored[k := stored[k].(claimedAt := at)], r, now) == Use(stored, r, now)
  {
    var n := |stored| - 1;
    var changed := stored[k := stored[k].(claimedAt := at)];
    if k == n {
      assert changed[..n] == stored[..n];
    } else {
      assert changed[..n] == stored[..n][k := stored[k].(claimedAt := at)];
      ClaimUses(stored[..n], k, at, r, now);
    }
  }

  lemma WithinAppend(stored: seq<Metadata>, m: Metadata, now: int, maxCount: nat, maxBytes: nat)
    requires Within(stored, now, maxCount, maxBytes)
    requires Use(stored, m.requestId, now).count < maxCount
    requires Use(stored, m.requestId, now).bytes + m.plaintextBytes <= maxBytes
    ensures Within(stored + [m], now, maxCount, maxBytes)
  {
    hide Use;
    forall r: string
      ensures Use(stored + [m], r, now).count <= maxCount && Use(stored + [m], r, now).bytes <= maxBytes
    {
      UseAppend(stored, m, r, now);
    }
  }

  lemma WithinClaim(stored: seq<Metadata>, k: nat, at: Option<int>, now: int, maxCount: nat, maxBytes: nat)
    requires Within(stored, now, maxCount, maxBytes) && k < |stored|
    ensures Within(stored[k := stored[k].(claimedAt := at)], now, maxCount, maxBytes)
  {
    hide Use;
    var next := stored[k := stored[k].(claimedAt := at)];
    forall r: string ensures Use(next, r, now).count <= maxCount && Use(next, r, now).bytes <= maxBytes {
      ClaimUses(stored, k, at, r, now);
    }
  }

  lemma WithinKept(stored: seq<Metadata>, cutoff: int, now: int, maxCount: nat, maxBytes: nat)
    requires Within(stored, now, maxCount, maxBytes)
    ensures Within(Kept(stored, cutoff), now, maxCount, maxBytes)
  {
    hide Use, Kept;
    forall r: string
      ensures Use(Kept(stored, cutoff), r, now).count <= maxCount
      ensures Use(Kept(stored, cutoff), r, now).bytes <= maxBytes
    {
      KeptUses(stored, cutoff, r, now);
    }
  }

  /** The hash of a token, the hash of a body, and the cipher under the store's key. */
  datatype Codec = Codec(
    textHash: string -> string, bodyHash: Bytes -> string, seal: (Bytes, Bytes) -> Sealed,
    unseal: (Bytes, Sealed) -> Option<Bytes>)

  /** Decrypting undoes encrypting: the cipher's contract. */
  ghost predicate CipherWorks(c: Codec) {
    forall iv, b :: c.unseal(iv, c.seal(iv, b)) == Some(b)
  }

  /** What the files under one id must say about the body and the token they were made from. */
  ghost predicate Faithful(
      c: Codec, m: Metadata, data: map<string, Bytes>, bodies: map<string, Bytes>, tokens: map<string, string>)
  {
    && m.id in bodies && m.id in tokens && m.id in data
    && Sealed(data[m.id], m.authTag) == c.seal(m.iv, bodies[m.id])
    && m.digest == c.bodyHash(bodies[m.id]) && m.plaintextBytes == |bodies[m.id]|
    && m.tokenHash == c.textHash(tokens[m.id]) && tokens[m.id] != "" && Trim(tokens[m.id]) == tokens[m.id]
    && (m.safety == Clean || m.safety == BuyerScanRequired)
  }

  ghost predicate Sound(
      c: Codec, stored: seq<Metadata>, data: map<string, Bytes>, bodies: map<string, Bytes>,
      tokens: map<string, string>)
  {
    && DistinctIds(stored)
    && (forall i :: 0 <= i < |stored| ==> Faithful(c, stored[i], data, bodies, tokens))
    && (forall id :: id in data ==> exists i :: 0 <= i < |stored| && stored[i].id == id)
  }

  lemma SoundAppend(
      c: Codec, stored: seq<Metadata>, data: map<string, Bytes>, bodies: map<string, Bytes>,
      tokens: map<string, string>, m: Metadata, body: Bytes, token: string)
    requires Sound(c, stored, data, bodies, tokens) && m.id !in bodies
    requires m.authTag == c.seal(m.iv, body).authTag && m.digest == c.bodyHash(body) && m.plaintextBytes == |body|
    requires m.tokenHash == c.textHash(token) && token != "" && Trim(token) == token
    requires m.safety == Clean || m.safety == BuyerScanRequired
    ensures var sealedData := data[m.id := c.seal(m.iv, body).ciphertext];
            Sound(c, stored + [m], sealedData, bodies[m.id := body], tokens[m.id := token])
  {
    hide Trim;
    var next, newData := stored + [m], data[m.id := c.seal(m.iv, body).ciphertext];
    forall i | 0 <= i < |stored| ensures stored[i].id in bodies {
      assert Faithful(c, stored[i], data, bodies, tokens);
    }
    forall id | id in newData ensures exists i :: 0 <= i < |next| && next[i].id == id {
      if id == m.id {
        assert next[|stored|].id == id;
      } else {
        var i :| 0 <= i < |stored| && stored[i].id == id;
        assert next[i].id == id;
      }
    }
  }

  lemma SoundClaim(
      c: Codec, stored: seq<Metadata>, data: map<string, Bytes>, bodies: map<string, Bytes>,
      tokens: map<string, string>, k: nat, at: Option<int>)
    requires Sound(c, stored, data, bodies, tokens) && k < |stored|
    ensures Sound(c, stored[k := stored[k].(claimedAt := at)], data, bodies, tokens)
  {
    hide Trim;
    var next := stored[k := stored[k].(claimedAt := at)];
    forall i | 0 <= i < |next| ensures Faithful(c, next[i], data, bodies, tokens) {
      assert Faithful(c, stored[i], data, bodies, tokens);
    }
    forall id | id in data ensures exists i :: 0 <= i < |next| && next[i].id == id {
      var i :| 0 <= i < |stored| && stored[i].id == id;
      assert next[i].id == id;
    }
  }

  lemma DropDistinct(before: seq<Metadata>, m: Metadata, after: seq<Metadata>)
    requires DistinctIds(before + [m] + after)
    ensures DistinctIds(before + after)
    ensures forall i :: 0 <= i < |before + after| ==> (before + after)[i].id != m.id
    ensures forall i :: 0 <= i < |before + after| ==> (before + after)[i] in before + [m] + after
    ensures forall x :: x in before + [m] + after && x != m ==> x in before + after
  {
    var stored, next, k := before + [m] + after, before + after, |before|;
    assert stored[k] == m;
    forall i | 0 <= i < |next| ensures next[i] == stored[if i < k then i else i + 1] && next[i].id != m.id {
    }
  }

  lemma SoundDrop(
      c: Codec, before: seq<Metadata>, m: Metadata, after: seq<Metadata>, data: map<string, Bytes>,
      bodies: map<string, Bytes>, tokens: map<string, string>)
    requires Sound(c, before + [m] + after, data, bodies, tokens)
    ensures Sound(c, before + after, data - {m.id}, bodies, tokens)
  {
    hide Trim, Faithful, DistinctIds;
    var stored, next := before + [m] + after, before + after;
    DropDistinct(before, m, after);
    forall i | 0 <= i < |next| ensures Faithful(c, next[i], data - {m.id}, bodies, tokens) {
      var j :| 0 <= j < |stored| && stored[j] == next[i];
      FaithfulElsewhere(c, stored[j], data, m.id, bodies, tokens);
    }
    forall id | id in data - {m.id} ensures exists i :: 0 <= i < |next| && next[i].id == id {
      var j :| 0 <= j < |stored| && stored[j].id == id;
      assert stored[j] != m && stored[j] in next;
      var i :| 0 <= i < |next| && next[i] == stored[j];
      assert next[i].id == id;
    }
  }

  lemma FaithfulElsewhere(
      c: Codec, m: Metadata, data: map<string, Bytes>, gone: string, bodies: map<string, Bytes>,
      tokens: map<string, string>)
    requires Faithful(c, m, data, bodies, tokens) && m.id != gone
    ensures Faithful(c, m, data - {gone}, bodies, tokens)
  {
    hide Trim;
  }

  lemma SoundAt(
      c: Codec, stored: seq<Metadata>, data: map<string, Bytes>, bodies: map<string, Bytes>,
      tokens: map<string, string>, k: nat)
    requires Sound(c, stored, data, bodies, tokens) && k < |stored|
    ensures Faithful(c, stored[k], data, bodies, tokens)
    ensures forall i :: 0 <= i < |stored| && stored[i].id == stored[k].id ==> i == k
  {
    hide Faithful;
  }

  /** Checking expiry, token, safety, decryption and digest, in that order. */
  function Open(c: Codec, m: Metadata, ciphertext: Bytes, token: string, now: int): Result<Bytes, Error> {
    if m.expiresAt <= now then Err(LinkExpired)
    else if Trim(token) == "" || c.textHash(Trim(token)) != m.tokenHash then Err(TokenRejected)
    else if m.safety == Blocked || m.safety == ScanUnavailable then Err(Unsafe)
    else
      var body := c.unseal(m.iv, Sealed(ciphertext, m.authTag));
      if body.None? then Err(Undecryptable)
      else if c.bodyHash(body.value) != m.digest then Err(DigestMismatch)
      else Ok(body.value)
  }

  /**
   An unexpired artifact opens for exactly the tokens with the stored hash, its own among them, and to exactly its body.
   */
  lemma OpenFaithful(
      c: Codec, m: Metadata, data: map<string, Bytes>, bodies: map<string, Bytes>, tokens: map<string, string>,
      token: string, now: int)
    requires CipherWorks(c) && Faithful(c, m, data, bodies, tokens)
    ensures var r := Open(c, m, data[m.id], token, now);
            && (r.Ok? <==> now < m.expiresAt && Trim(token) != "" && c.textHash(Trim(token)) == m.tokenHash)
            && (r.Ok? ==> r.value == bodies[m.id])
            && (r.Err? ==> r.error == LinkExpired || r.error == TokenRejected)
            && (now < m.expiresAt && token == tokens[m.id] ==> r == Ok(bodies[m.id]))
  {
    hide Trim;
    assert c.unseal(m.iv, c.seal(m.iv, bodies[m.id])) == Some(bodies[m.id]);
  }

  /** For any artifact, also one no store would hold: each refusal exactly when nothing before it applies. */
  lemma OpenRefusedFor(c: Codec, m: Metadata, ciphertext: Bytes, token: string, now: int)
    ensures var r := Open(c, m, ciphertext, token, now);
            var admitted := now < m.expiresAt && Trim(token) != "" && c.textHash(Trim(token)) == m.tokenHash;
            var cleared := admitted && m.safety != Blocked && m.safety != ScanUnavailable;
            var body := c.unseal(m.iv, Sealed(ciphertext, m.authTag));
            && (r == Err(LinkExpired) <==> m.expiresAt <= now)
            && (r == Err(TokenRejected) <==> now < m.expiresAt && !admitted)
            && (r == Err(Unsafe) <==> admitted && !cleared)
            && (r == Err(Undecryptable) <==> cleared && body.None?)
            && (r == Err(DigestMismatch) <==> cleared && body.Some? && c.bodyHash(body.value) != m.digest)
            && (r.Ok? <==> cleared && body.Some? && c.bodyHash(body.value) == m.digest)
            && (r.Ok? ==> r.value == body.value)
  {
    hide Trim;
  }

  /** What counts against the quota is what still opens and what a cleaning at that time keeps. */
  lemma LiveMeans(c: Codec, m: Metadata, ciphertext: Bytes, token: string, now: int)
    ensures Live(m, m.requestId, now) <==> Open(c, m, ciphertext, token, now) != Err(LinkExpired)
    ensures Live(m, m.requestId, now) <==> m in Kept([m], now)
    ensures forall r: string :: r != m.requestId ==> !Live(m, r, now)
  {
    hide Trim;
    assert [m][..0] == [];
  }

  class Store {
    const codec: Codec
    const retentionMs: nat
    const maxBytes: nat
    const maxPerRequest: nat
    const maxBytesPerRequest: nat
    var metadata: seq<Metadata>
    var data: map<string, Bytes>
    /** History: what was stored under each id ever used, with which token, and the latest time seen. */
    ghost var bodies: map<string, Bytes>
    ghost var tokens: map<string, string>
    ghost var clock: int

    ghost predicate Valid()
      reads this
    {
      && CipherWorks(codec)
      && Sound(codec, metadata, data, bodies, tokens)
      && Within(metadata, clock, maxPerRequest, maxBytesPerRequest)
    }

    constructor (codec: Codec, retentionMs: nat, maxBytes: nat, maxPerRequest: nat, maxBytesPerRequest: nat, now: int)
      requires CipherWorks(codec)
      ensures Valid() && metadata == [] && data == map[] && bodies == map[] && clock == now
      ensures this.codec == codec && this.retentionMs == retentionMs && this.maxBytes == maxBytes
      ensures this.maxPerRequest == maxPerRequest && this.maxBytesPerRequest == maxBytesPerRequest
    {
      this.codec := codec;
      this.retentionMs, this.maxBytes := retentionMs, maxBytes;
      this.maxPerRequest, this.maxBytesPerRequest := maxPerRequest, maxBytesPerRequest;
      metadata, data, bodies, tokens, clock := [], map[], map[], map[], now;
    }

    /** Why an upload is turned away, first reason first. */
    function Refusal(stored: seq<Metadata>, requestId: string, now: int, size: nat, safety: Safety): Option<Error> {
      var u := Use(stored, requestId, now);
      if size == 0 then Some(EmptyBody)
      else if size > maxBytes then Some(TooLarge)
      else if u.count >= maxPerRequest then Some(TooMany)
      else if u.bytes + size > maxBytesPerRequest then Some(OverQuota)
      else if safety == Blocked then Some(Unsafe)
      else if safety == ScanUnavailable then Some(NoScan)
      else None
    }

    /** The reasons in their order, each exactly when none before it holds. */
    lemma RefusedFor(stored: seq<Metadata>, requestId: string, now: int, size: nat, safety: Safety)
      ensures var u, r := Use(stored, requestId, now), Refusal(stored, requestId, now, size, safety);
              && (r == Some(EmptyBody) <==> size == 0)
              && (r == Some(TooLarge) <==> size > 0 && size > maxBytes)
              && (r == Some(TooMany) <==> 0 < size <= maxBytes && u.count >= maxPerRequest)
              && (r == Some(OverQuota) <==>
                  0 < size <= maxBytes && u.count < maxPerRequest && u.bytes + size > maxBytesPerRequest)
              && (r == Some(Unsafe) <==>
                  && 0 < size <= maxBytes && u.count < maxPerRequest && u.bytes + size <= maxBytesPerRequest
                  && safety == Blocked)
              && (r == Some(NoScan) <==>
                  && 0 < size <= maxBytes && u.count < maxPerRequest && u.bytes + size <= maxBytesPerRequest
                  && safety == ScanUnavailable)
    {
      hide Use;
    }

    /** Scanning the metadata files for what a request has live. */
    method AssertRequestQuota(requestId: string, nextBytes: nat, now: int) returns (refused: Option<Error>)
      ensures var u := Use(metadata, requestId, now);
              refused == if u.count >= maxPerRequest then Some(TooMany)
                         else if u.bytes + nextBytes > maxBytesPerRequest then Some(OverQuota) else None
    {
      var count: nat, bytes: nat := 0, 0;
      for i := 0 to |metadata|
        invariant Usage(count, bytes) == Use(metadata[..i], requestId, now)
      {
        UseAppend(metadata[..i], metadata[i], requestId, now);
        assert metadata[..i] + [metadata[i]] == metadata[..i + 1];
        if Live(metadata[i], requestId, now) {
          count := count + 1;
          bytes := bytes + metadata[i].plaintextBytes;
        }
      }
      assert metadata[..|metadata|] == metadata;
      if count >= maxPerRequest {
        return Some(TooMany);
      }
      if bytes + nextBytes > maxBytesPerRequest {
        return Some(OverQuota);
      }
      refused := None;
    }

    /** Storing a new artifact under a fresh id and token, or refusing and changing nothing. */
    method Create(
        now: int, id: string, token: string, iv: Bytes, requestId: string, filename: string, contentType: string,
        body: Bytes, safety: Safety)
      returns (result: Result<Metadata, Error>)
      requires Valid() && id !in bodies && clock <= now && token != "" && Trim(token) == token
      modifies this
      ensures Valid() && clock == now
      ensures var refusal := Refusal(old(metadata), Trim(requestId), now, |body|, safety);
              (result.Ok? <==> refusal.None?) && (result.Err? ==> refusal == Some(result.error))
      ensures var u := Use(old(metadata), Trim(requestId), now);
              result.Ok? <==>
              && 0 < |body| <= maxBytes && u.count < maxPerRequest && u.bytes + |body| <= maxBytesPerRequest
              && (safety == Clean || safety == BuyerScanRequired)
      ensures result.Err? ==>
              metadata == old(metadata) && data == old(data) && bodies == old(bodies) && tokens == old(tokens)
      ensures result.Ok? ==>
                var sealedBody := codec.seal(iv, body);
                && metadata == old(metadata) + [result.value] && bodies == old(bodies)[id := body]
                && tokens == old(tokens)[id := token] && data == old(data)[id := sealedBody.ciphertext]
                && result.value == Metadata(
                     id, Trim(requestId), now, now + retentionMs, None, filename, contentType, |body|,
                     |sealedBody.ciphertext|, codec.bodyHash(body), safety, iv, sealedBody.authTag,
                     codec.textHash(token))
    {
      hide Use, Trim, Sound, Within, CipherWorks;
      WithinLater(metadata, clock, now, maxPerRequest, maxBytesPerRequest);
      clock := now;
      if |body| == 0 {
        return Err(EmptyBody);
      }
      if |body| > maxBytes {
        return Err(TooLarge);
      }
      var refused := AssertRequestQuota(Trim(requestId), |body|, now);
      if refused.Some? {
        return Err(refused.value);
      }
      if safety == Blocked {
        return Err(Unsafe);
      }
      if safety == ScanUnavailable {
        return Err(NoScan);
      }
      var sealedBody := codec.seal(iv, body);
      var m := Metadata(
        id, Trim(requestId), now, now + retentionMs, None, filename, contentType, |body|,
        |sealedBody.ciphertext|, codec.bodyHash(body), safety, iv, sealedBody.authTag, codec.textHash(token));
      WithinAppend(metadata, m, now, maxPerRequest, maxBytesPerRequest);
      SoundAppend(codec, metadata, data, bodies, tokens, m, body, token);
      data := data[id := sealedBody.ciphertext];
      metadata := metadata + [m];
      bodies, tokens := bodies[id := body], tokens[id := token];
      result := Ok(m);
    }

    /** The stored body, exactly for an unexpired artifact and a token of the right hash; the first read is noted. */
    method Read(now: int, id: string, token: string) returns (result: Result<Bytes, Error>)
      requires Valid() && clock <= now
      modifies this
      ensures Valid() && clock == now && data == old(data) && bodies == old(bodies) && tokens == old(tokens)
      ensures result == Err(NotFound) <==> forall i :: 0 <= i < |old(metadata)| ==> old(metadata)[i].id != id
      ensures forall i :: 0 <= i < |old(metadata)| && old(metadata)[i].id == id ==>
                var m := old(metadata)[i];
                && (result.Ok? <==>
                    now < m.expiresAt && Trim(token) != "" && codec.textHash(Trim(token)) == m.tokenHash)
                && id in bodies && id in tokens
                && (result.Ok? ==> result.value == bodies[id])
                && (now < m.expiresAt && token == tokens[id] ==> result.Ok?)
      ensures result.Err? ==> metadata == old(metadata)
      ensures result.Ok? ==> |metadata| == |old(metadata)|
      ensures result.Ok? ==> forall i :: 0 <= i < |metadata| ==>
                metadata[i] == if old(metadata)[i].id == id && old(metadata)[i].claimedAt.None?
                               then old(metadata)[i].(claimedAt := Some(now)) else old(metadata)[i]
    {
      hide Trim, Within, CipherWorks, Open, Sound, TrimBy;
      WithinLater(metadata, clock, now, maxPerRequest, maxBytesPerRequest);
      clock := now;
      var at := FindIndex(metadata, (m: Metadata) => m.id == id);
      if at.None? {
        return Err(NotFound);
      }
      var k := at.value;
      var m := metadata[k];
      SoundAt(codec, metadata, data, bodies, tokens, k);
      OpenFaithful(codec, m, data, bodies, tokens, token, now);
      result := Open(codec, m, data[id], token, now);
      if result.Ok? && m.claimedAt.None? {
        WithinClaim(metadata, k, Some(now), now, maxPerRequest, maxBytesPerRequest);
        SoundClaim(codec, metadata, data, bodies, tokens, k, Some(now));
        metadata := metadata[k := m.(claimedAt := Some(now))];
      }
    }

    /**
     Metadata and data files of expired artifacts are removed, one artifact after the other, and nothing else changes.
     */
    method CleanupExpired(cutoff: int) returns (deleted: nat)
      requires Valid()
      modifies `metadata, `data
      ensures Valid() && metadata == Kept(old(metadata), cutoff)
      ensures deleted == |old(metadata)| - |metadata|
      ensures forall id :: id in data ==> id in old(data) && data[id] == old(data)[id]
    {
      hide Use, Within, Sound, CipherWorks, Kept;
      ghost var names := metadata;
      ghost var n := 0;
      KeptEnds(names, cutoff);
      var i := 0;
      deleted := 0;
      while i < |metadata|
        invariant n == i + deleted <= |names| && i == |Kept(names[..n], cutoff)|
        invariant metadata == Kept(names[..n], cutoff) + names[n..]
        invariant Sound(codec, metadata, data, bodies, tokens)
        invariant forall id :: id in data ==> id in old(data) && data[id] == old(data)[id]
        decreases |names| - n
      {
        KeptStep(names, n, cutoff);
        ghost var kept := Kept(names[..n], cutoff);
        assert kept + [] == kept;
        var m := metadata[i];
        if m.expiresAt <= cutoff {
          SoundDrop(codec, kept, m, names[n + 1..], data, bodies, tokens);
          assert metadata[..i] == kept && metadata[i + 1..] == names[n + 1..];
          metadata := metadata[..i] + metadata[i + 1..];
          data := data - {m.id};
          deleted := deleted + 1;
        } else {
          i := i + 1;
        }
        n := n + 1;
      }
      assert n == |names|;
      assert metadata == Kept(names, cutoff);
      WithinKept(names, cutoff, clock, maxPerRequest, maxBytesPerRequest);
    }
  }
}
