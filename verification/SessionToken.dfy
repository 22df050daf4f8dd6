/** Concierge session tokens: a base64url payload, a dot, and the payload's HMAC in hexadecimal. */
module SessionToken {
  import opened Wrappers
  import opened Text
  import opened Bytes
  import opened Values
  import Base64

  datatype Error = Malformed | SignatureRejected | NotJson | PayloadMalformed | UnsupportedSchema | Expired

  /** What the platform provides: the keyed hash, JSON in UTF-8, and date texts. */
  datatype Platform = Platform(
    hmac: (string, string) -> string, stringify: Value -> Bytes, parse: Bytes -> Option<Value>,
    isoText: int -> string, parseDate: Value -> Option<int>)

  /** The hash is 64 lower-case hexadecimal digits. */
  ghost predicate HashesAreHex(p: Platform) {
    forall secret, text ::
      var h := p.hmac(secret, text); |h| == 64 && forall i :: 0 <= i < |h| ==> '0' <= h[i] <= '9' || 'a' <= h[i] <= 'f'
  }

  /** A date text reads as the time it was made from. */
  ghost predicate DatesRead(p: Platform) {
    forall t :: p.parseDate(VStr(p.isoText(t))) == Some(t)
  }

  const SCHEMA := "santaclawz-concierge-session/1.0"

  function Sign(p: Platform, payload: Value, secret: string): string {
    var payloadPart := Base64.Encode(p.stringify(payload));
    payloadPart + ['.'] + p.hmac(secret, payloadPart)
  }

  /** The checks on a payload whose signature has been accepted; a date that does not parse is not before anything. */
  function Check(p: Platform, payload: Value, now: int): Result<Value, Error> {
    if !payload.VObj? && !payload.VArr? then Err(PayloadMalformed)
    else if Get(payload, "schemaVersion") != VStr(SCHEMA) then Err(UnsupportedSchema)
    else
      var expires := p.parseDate(Get(payload, "expiresAtIso"));
      if expires.Some? && expires.value <= now then Err(Expired) else Ok(payload)
  }

  function Verify(p: Platform, token: string, secret: string, now: int): Result<Value, Error> {
    var parts := Split(token, '.');
    if parts[0] == "" || |parts| < 2 || parts[1] == "" then Err(Malformed)
    else if parts[1] != p.hmac(secret, parts[0]) then Err(SignatureRejected)
    else
      var payload := p.parse(Base64.Decode(parts[0]));
      if payload.None? then Err(NotJson) else Check(p, payload.value, now)
  }

  lemma SignedParts(p: Platform, payload: Value, secret: string)
    requires HashesAreHex(p)
    ensures var part := Base64.Encode(p.stringify(payload));
            Split(Sign(p, payload, secret), '.') == [part, p.hmac(secret, part)] && p.hmac(secret, part) != ""
  {
    hide Split;
    var part := Base64.Encode(p.stringify(payload));
    var h := p.hmac(secret, part);
    assert |h| == 64 && '.' !in h;
    Base64.EncodeIsUrlSafe(p.stringify(payload));
    TwoParts(part, h);
  }

  lemma TwoParts(a: string, b: string)
    requires '.' !in a && '.' !in b
    ensures Split(a + ['.'] + b, '.') == [a, b]
  {
    hide Split;
    var parts := [a, b];
    assert parts[1..] == [b];
    assert Join(parts, '.') == a + ['.'] + b;
    SplitJoin(parts, '.');
  }

  /**
   A signed token has exactly two parts, and verifying it with any secret accepts it exactly when that secret gives the
   same hash; then it gives the payload back, subject to the payload's own checks.
   */
  lemma VerifySigned(p: Platform, payload: Value, secret: string, other: string, now: int)
    requires HashesAreHex(p) && p.parse(p.stringify(payload)) == Some(payload) && p.stringify(payload) != []
    ensures |Split(Sign(p, payload, secret), '.')| == 2
    ensures var part := Base64.Encode(p.stringify(payload));
            Verify(p, Sign(p, payload, secret), other, now) ==
            if p.hmac(secret, part) == p.hmac(other, part) then Check(p, payload, now) else Err(SignatureRejected)
  {
    hide Split, Sign, Check, Base64.Encode, Base64.Decode, HashesAreHex;
    SignedParts(p, payload, secret);
    Base64.EncodeIsUrlSafe(p.stringify(payload));
    Base64.DecodeEncode(p.stringify(payload));
  }

  /**
   Every accepted token carries the HMAC of its payload part, and its payload is of the schema and not past its date.
   */
  lemma AcceptedIsSigned(p: Platform, token: string, secret: string, now: int)
    ensures var parts := Split(token, '.');
            Verify(p, token, secret, now).Ok? <==>
              && |parts| >= 2 && parts[0] != "" && parts[1] != "" && parts[1] == p.hmac(secret, parts[0])
              && var payload := p.parse(Base64.Decode(parts[0]));
                 && payload.Some? && payload.value.VObj? && Get(payload.value, "schemaVersion") == VStr(SCHEMA)
                 && var expires := p.parseDate(Get(payload.value, "expiresAtIso"));
                    expires.Some? ==> now < expires.value
    ensures Verify(p, token, secret, now).Ok? ==>
            Some(Verify(p, token, secret, now).value) == p.parse(Base64.Decode(Split(token, '.')[0]))
  {
    hide Split, Base64.Decode, SCHEMA;
  }

  /**
   A signed session is accepted at every time exactly when its date does not parse; with a date it is accepted exactly
   before it.
   */
  lemma NeverExpires(p: Platform, payload: Value, secret: string)
    requires HashesAreHex(p) && p.parse(p.stringify(payload)) == Some(payload) && p.stringify(payload) != []
    requires payload.VObj? && Get(payload, "schemaVersion") == VStr(SCHEMA)
    ensures var token, date := Sign(p, payload, secret), p.parseDate(Get(payload, "expiresAtIso"));
            && (forall now ::
                  Verify(p, token, secret, now) ==
                  if date.Some? && date.value <= now then Err(Expired) else Ok(payload))
            && ((forall now :: Verify(p, token, secret, now).Ok?) <==> date.None?)
  {
    hide Sign, Verify, HashesAreHex, SCHEMA;
    var token, date := Sign(p, payload, secret), p.parseDate(Get(payload, "expiresAtIso"));
    forall now
      ensures Verify(p, token, secret, now) == if date.Some? && date.value <= now then Err(Expired) else Ok(payload)
    {
      VerifySigned(p, payload, secret, secret, now);
    }
    if date.Some? {
      assert Verify(p, token, secret, date.value).Err?;
    }
  }

  /** A payload without a date, where the missing date does not parse, is accepted however late. */
  lemma DatelessAccepted(p: Platform, secret: string, now: int)
    requires HashesAreHex(p) && p.parseDate(VUndef).None?
    requires var payload := VObj(map["schemaVersion" := VStr(SCHEMA)]);
             p.parse(p.stringify(payload)) == Some(payload) && p.stringify(payload) != []
    ensures Verify(p, Sign(p, VObj(map["schemaVersion" := VStr(SCHEMA)]), secret), secret, now).Ok?
  {
    hide Sign, Verify, HashesAreHex, SCHEMA;
    var payload := VObj(map["schemaVersion" := VStr(SCHEMA)]);
    assert Get(payload, "expiresAtIso") == VUndef;
    VerifySigned(p, payload, secret, secret, now);
  }

  /** Every refusal names the first thing that is wrong. */
  lemma RefusedFor(p: Platform, token: string, secret: string, now: int)
    ensures var v, parts := Verify(p, token, secret, now), Split(token, '.');
            var whole := |parts| >= 2 && parts[0] != "" && parts[1] != "";
            && (v == Err(Malformed) <==> !whole)
            && (v == Err(SignatureRejected) <==> whole && parts[1] != p.hmac(secret, parts[0]))
            && (whole && parts[1] == p.hmac(secret, parts[0]) ==>
                  var payload := p.parse(Base64.Decode(parts[0]));
                  && (v == Err(NotJson) <==> payload.None?)
                  && (v == Err(PayloadMalformed) <==>
                      payload.Some? && !payload.value.VObj? && !payload.value.VArr?)
                  && (v == Err(UnsupportedSchema) <==>
                      && payload.Some? && (payload.value.VObj? || payload.value.VArr?)
                      && Get(payload.value, "schemaVersion") != VStr(SCHEMA)))
  {
    hide Split, Base64.Decode, SCHEMA;
  }

  /** Whatever follows a second dot makes no difference. */
  lemma LaterPartsIgnored(p: Platform, token: string, extra: string, secret: string, now: int)
    requires |Split(token, '.')| >= 2
    ensures Verify(p, token + ['.'] + extra, secret, now) == Verify(p, token, secret, now)
  {
    hide Base64.Decode, Check, Split;
    SplitMore(token, '.', extra);
  }

  // Creating sessions

  function Trunc(x: real): int {
    if x >= 0.0 then x.Floor else -(-x).Floor
  }

  /** Seconds to live: as asked, a quarter of an hour by default, but within a minute and an hour. */
  function Lifetime(ttlSeconds: Option<real>): (r: int)
    ensures 60 <= r <= 3600
    ensures ttlSeconds.None? ==> r == 900
    ensures forall t :: ttlSeconds == Some(t) && 60.0 <= t <= 3600.0 ==> r as real <= t < r as real + 1.0
    ensures forall t :: ttlSeconds == Some(t) && t > 3600.0 ==> r == 3600
    ensures forall t :: ttlSeconds == Some(t) && t < 60.0 ==> r == 60
  {
    var t := Trunc(if ttlSeconds.Some? then ttlSeconds.value else 900.0);
    var capped := if t < 3600 then t else 3600;
    if capped > 60 then capped else 60
  }

  /** The session record: the caller's fields, the schema, and the dates. */
  function Session(p: Platform, fields: map<string, Value>, now: int, ttlSeconds: Option<real>): Value {
    VObj(fields[
      "schemaVersion" := VStr(SCHEMA)][
      "createdAtIso" := VStr(p.isoText(now))][
      "expiresAtIso" := VStr(p.isoText(now + Lifetime(ttlSeconds) * 1000))])
  }

  /**
   A session keeps the caller's fields but for its schema and its two dates, the second its lifetime after the first.
   */
  lemma SessionKeeps(p: Platform, fields: map<string, Value>, now: int, ttlSeconds: Option<real>, key: string)
    ensures var s := Session(p, fields, now, ttlSeconds);
            && Get(s, "schemaVersion") == VStr(SCHEMA) && Get(s, "createdAtIso") == VStr(p.isoText(now))
            && Get(s, "expiresAtIso") == VStr(p.isoText(now + 1000 * Lifetime(ttlSeconds)))
            && (key !in {"schemaVersion", "createdAtIso", "expiresAtIso"} ==> Get(s, key) == Get(VObj(fields), key))
  {
    hide Lifetime, SCHEMA;
  }

  /**
   A created session verifies until its lifetime is over, and from then on is expired: at least a minute, at most an
   hour.
   */
  lemma CreatedSessionLives(
      p: Platform, fields: map<string, Value>, created: int, ttlSeconds: Option<real>, secret: string, now: int)
    requires HashesAreHex(p) && DatesRead(p)
    requires var s := Session(p, fields, created, ttlSeconds);
             p.parse(p.stringify(s)) == Some(s) && p.stringify(s) != []
    ensures var s := Session(p, fields, created, ttlSeconds);
            Verify(p, Sign(p, s, secret), secret, now) ==
            if now < created + Lifetime(ttlSeconds) * 1000 then Ok(s) else Err(Expired)
    ensures now < created + 60_000 ==>
            Verify(p, Sign(p, Session(p, fields, created, ttlSeconds), secret), secret, now).Ok?
    ensures now >= created + 3_600_000 ==>
            Verify(p, Sign(p, Session(p, fields, created, ttlSeconds), secret), secret, now).Err?
  {
    hide Sign, Verify, HashesAreHex, Lifetime;
    var s := Session(p, fields, created, ttlSeconds);
    VerifySigned(p, s, secret, secret, now);
  }
}
