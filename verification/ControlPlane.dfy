/** The workshop beta's control plane: sign-in sessions, admin challenges and bindings, missions and their agents. */
module ControlPlane {
  import opened Wrappers
  import opened Text
  import opened Lists
  import Json
  import StableJson

  datatype SessionStatus = SessionPending | SessionVerified | SessionExpired | SessionRevoked

  datatype Session = Session(
    id: string, email: string, status: SessionStatus, tokenHash: string, expiresAt: int, verifiedAt: Option<int>)

  datatype ChallengeStatus = Issued | Claimed | ChallengeVerified | ChallengeExpired | ChallengeRevoked

  datatype Challenge = Challenge(
    id: string, sessionId: string, emailHash: string, workshopId: string, nonce: string, status: ChallengeStatus,
    agentId: Option<string>, agentName: Option<string>, claimDigest: Option<string>,
    signature: Option<string>, publicKey: Option<string>,
    createdAt: int, expiresAt: int, claimedAt: Option<int>)

  datatype BindingStatus = BindingClaimed | BindingVerified | BindingRevoked

  datatype Binding = Binding(
    id: string, sessionId: string, emailHash: string, workshopId: string, agentId: string, agentName: Option<string>,
    status: BindingStatus, challengeId: string, createdAt: int)

  datatype Status =
    | Draft | AdminBound | MissionIssued | AgentsInvited | AgentsClaimed | WorkStarted | ReceiptPending
    | ReceiptConfirmed | Verified | Completed | Expired | Revoked | AgentRejected | ReceiptFailed | VerificationFailed

  datatype Visibility = Private | Company | ProofOnlyPublic | PublicCollaboration

  datatype MissionFields = MissionFields(
    workspaceId: string, title: string, goal: string, visibility: Visibility, allowedAgentIds: seq<string>,
    dataRules: string, successCriteria: string, budgetUsd: Option<string>, expiresAt: Option<string>)

  datatype Mission = Mission(
    id: string, fields: MissionFields, hash: string, status: Status,
    createdBySession: Option<string>, adminBinding: Option<string>, createdAt: int, updatedAt: int)

  datatype Role = Admin | Worker | Verifier | Compiler | Observer

  datatype Claim = Claim(
    id: string, missionId: string, agentId: string, role: Role, scopeDigest: string, createdAt: int)

  datatype Error =
    | MissingField | NotFound | SessionTimedOut | BadToken | SessionNotVerified | ChallengeTimedOut | ChallengeClosed
    | UnknownStatus | ForbiddenTransition

  // ---- the transition table ----

  function Next(s: Status): set<Status> {
    match s
    case Draft => {AdminBound, MissionIssued, Expired, Revoked}
    case AdminBound => {MissionIssued, Expired, Revoked}
    case MissionIssued => {AgentsInvited, AgentsClaimed, Expired, Revoked}
    case AgentsInvited => {AgentsClaimed, AgentRejected, Expired, Revoked}
    case AgentsClaimed => {WorkStarted, AgentRejected, Expired, Revoked}
    case WorkStarted => {ReceiptPending, ReceiptFailed, VerificationFailed, Expired, Revoked}
    case ReceiptPending => {ReceiptConfirmed, ReceiptFailed, Expired, Revoked}
    case ReceiptConfirmed => {Verified, VerificationFailed, Expired, Revoked}
    case Verified => {Completed, VerificationFailed, Expired, Revoked}
    case _ => {}
  }

  predicate Terminal(s: Status) {
    s in {Completed, Expired, Revoked, AgentRejected, ReceiptFailed, VerificationFailed}
  }

  /** A mission's statuses from its creation on, each a permitted step from the one before. */
  ghost predicate Path(h: seq<Status>) {
    && h != [] && h[0] == Draft
    && forall i :: 0 <= i < |h| - 1 ==> h[i + 1] in Next(h[i])
  }

  /** How far along a status is; every permitted step goes strictly further. */
  function Rank(s: Status): nat {
    match s
    case Draft => 0
    case AdminBound => 1
    case MissionIssued => 2
    case AgentsInvited => 3
    case AgentsClaimed => 4
    case WorkStarted => 5
    case ReceiptPending => 6
    case ReceiptConfirmed => 7
    case Verified => 8
    case _ => 9
  }

  lemma {:induction false} RankGrows(h: seq<Status>, i: nat)
    requires Path(h) && i < |h|
    ensures i <= Rank(h[i])
  {
    hide Next;
    if i > 0 {
      RankGrows(h, i - 1);
      StepUp(h[i - 1], h[i]);
    }
  }

  lemma StepUp(s: Status, t: Status)
    requires t in Next(s)
    ensures Rank(s) < Rank(t)
    ensures Rank(t) >= 4 && !Terminal(t) ==> Rank(t) == Rank(s) + 1 || (t == AgentsClaimed && s == MissionIssued)
    ensures t == Completed ==> s == Verified
    ensures t == MissionIssued ==> s == Draft || s == AdminBound
  {
  }

  /**
   The table in words: every open mission may expire or be revoked; otherwise it goes one stage on, or skips the binding
   or the invitations; and it may fail where agents, receipts or verification are what it waits for.
   */
  lemma TableMeans(s: Status, t: Status)
    ensures t in Next(s) <==>
            && !Terminal(s)
            && (|| t in {Expired, Revoked}
                || (t == Completed && s == Verified)
                || (!Terminal(t) && Rank(t) == Rank(s) + 1)
                || (s == Draft && t == MissionIssued) || (s == MissionIssued && t == AgentsClaimed)
                || (t == AgentRejected && s in {AgentsInvited, AgentsClaimed})
                || (t == ReceiptFailed && s in {WorkStarted, ReceiptPending})
                || (t == VerificationFailed && s in {WorkStarted, ReceiptConfirmed, Verified}))
  {
  }

  lemma TerminalIffNoNext(s: Status)
    ensures Terminal(s) <==> Next(s) == {}
  {
    if !Terminal(s) { assert Revoked in Next(s); }
  }

  /** No mission changes status more than nine times, and none leaves a terminal status. */
  lemma PathShort(h: seq<Status>)
    requires Path(h)
    ensures |h| - 1 <= 9
    ensures forall i :: 0 <= i < |h| - 1 ==> !Terminal(h[i])
  {
    hide Next;
    RankGrows(h, |h| - 1);
    forall i | 0 <= i < |h| - 1 ensures !Terminal(h[i]) {
      TerminalIffNoNext(h[i]);
      assert h[i + 1] in Next(h[i]);
    }
  }

  /** The statuses every completed mission has passed, in this order and at the end of its history. */
  const MILESTONES := [AgentsClaimed, WorkStarted, ReceiptPending, ReceiptConfirmed, Verified, Completed]

  lemma CompletedPassedMilestones(h: seq<Status>)
    requires Path(h) && h[|h| - 1] == Completed
    ensures |h| >= 7 && h[|h| - 6..] == MILESTONES
    ensures exists i :: 0 <= i < |h| - 6 && h[i] == MissionIssued
  {
    hide Next;
    var n := |h|;
    Back(h, n - 1);
    Back(h, n - 2);
    Back(h, n - 3);
    Back(h, n - 4);
    Back(h, n - 5);
    Back(h, n - 6);
    Back(h, n - 7);
    assert h[n - 7] == MissionIssued || h[n - 8] == MissionIssued;
  }

  /** What must have come just before. */
  lemma Back(h: seq<Status>, i: int)
    requires Path(h) && 0 <= i < |h|
    ensures h[i] == Completed ==> i > 0 && h[i - 1] == Verified
    ensures h[i] == Verified ==> i > 0 && h[i - 1] == ReceiptConfirmed
    ensures h[i] == ReceiptConfirmed ==> i > 0 && h[i - 1] == ReceiptPending
    ensures h[i] == ReceiptPending ==> i > 0 && h[i - 1] == WorkStarted
    ensures h[i] == WorkStarted ==> i > 0 && h[i - 1] == AgentsClaimed
    ensures h[i] == AgentsClaimed ==> i > 0 && (h[i - 1] == AgentsInvited || h[i - 1] == MissionIssued)
    ensures h[i] == AgentsInvited ==> i > 0 && h[i - 1] == MissionIssued
  {
    if i > 0 {
      assert h[i - 1 + 1] in Next(h[i - 1]);
    }
  }

  // ---- mission hashes ----

  function VisibilityText(v: Visibility): string {
    match v
    case Private => "private"
    case Company => "company"
    case ProofOnlyPublic => "proof_only_public"
    case PublicCollaboration => "public_collaboration"
  }

  /** A text that names no visibility asks for the most private one. */
  function VisibilityOf(text: Option<string>): Visibility {
    if text == Some("company") then Company
    else if text == Some("proof_only_public") then ProofOnlyPublic
    else if text == Some("public_collaboration") then PublicCollaboration
    else Private
  }

  /** Every visibility is had by its name, and none but the private one in any other way. */
  lemma VisibilityRoundTrip(text: Option<string>, v: Visibility)
    ensures VisibilityOf(Some(VisibilityText(v))) == v
    ensures v != Private ==> (VisibilityOf(text) == v <==> text == Some(VisibilityText(v)))
  {
  }

  function StringItems(ids: seq<string>): Json.Items {
    if ids == [] then Json.NoItems else Json.Item(Json.Str(ids[0]), StringItems(ids[1..]))
  }

  function OptionalMember(key: string, value: Option<string>, rest: Json.Members): Json.Members {
    if value.Some? then Json.Member(key, Json.Str(value.value), rest) else rest
  }

  function MissionJson(f: MissionFields): Json.Json {
    Json.Obj(
      Json.Member("schemaVersion", Json.Str("santaclawz-workshop-beta-mission/0.1"),
      Json.Member("workspaceId", Json.Str(f.workspaceId),
      Json.Member("title", Json.Str(f.title),
      Json.Member("goal", Json.Str(f.goal),
      Json.Member("visibility", Json.Str(VisibilityText(f.visibility)),
      Json.Member("allowedAgentIds", Json.Arr(StringItems(f.allowedAgentIds)),
      Json.Member("dataRules", Json.Str(f.dataRules),
      Json.Member("successCriteria", Json.Str(f.successCriteria),
      OptionalMember("budgetUsd", f.budgetUsd,
      OptionalMember("expiresAtIso", f.expiresAt, Json.NoMembers)))))))))))
  }

  function MissionHash(sha256: string -> string, f: MissionFields): string {
    sha256(Json.Flat(MissionJson(f)))
  }

  lemma {:induction false} StringItemsInjective(a: seq<string>, b: seq<string>)
    requires StringItems(a) == StringItems(b)
    ensures a == b
  {
    if a != [] && b != [] {
      StringItemsInjective(a[1..], b[1..]);
      assert a == [a[0]] + a[1..] && b == [b[0]] + b[1..];
    }
  }

  lemma {:induction false} StringItemsNoHoles(a: seq<string>)
    ensures Json.NoLoneHoleItems(StringItems(a)) && StringItems(a) != Json.Item(Json.Undef, Json.NoItems)
  {
    if a != [] { StringItemsNoHoles(a[1..]); }
  }

  lemma VisibilityTextInjective(a: Visibility, b: Visibility)
    requires VisibilityText(a) == VisibilityText(b)
    ensures a == b
  {
  }

  lemma TailNoHoles(f: MissionFields)
    ensures var last := OptionalMember("expiresAtIso", f.expiresAt, Json.NoMembers);
            Json.NoLoneHoleMembers(OptionalMember("budgetUsd", f.budgetUsd, last))
  {
  }

  lemma TailInjective(f: MissionFields, g: MissionFields)
    requires OptionalMember("budgetUsd", f.budgetUsd, OptionalMember("expiresAtIso", f.expiresAt, Json.NoMembers)) ==
             OptionalMember("budgetUsd", g.budgetUsd, OptionalMember("expiresAtIso", g.expiresAt, Json.NoMembers))
    ensures f.budgetUsd == g.budgetUsd && f.expiresAt == g.expiresAt
  {
  }

  lemma MissionJsonNoHoles(f: MissionFields)
    ensures Json.NoLoneHole(MissionJson(f))
  {
    hide StringItems, OptionalMember, VisibilityText;
    StringItemsNoHoles(f.allowedAgentIds);
    TailNoHoles(f);
    var a := MissionJson(f).members;
    var b := a.rest.rest.rest;
    var c := b.rest.rest;
    NoHolesInFront(c.rest.rest, c.rest);
    NoHolesInFront(c.rest, c);
    NoHolesInFront(c, b.rest);
    NoHolesInFront(b.rest, b);
    NoHolesInFront(b, a.rest.rest);
    NoHolesInFront(a.rest.rest, a.rest);
    NoHolesInFront(a.rest, a);
  }

  lemma NoHolesInFront(rest: Json.Members, all: Json.Members)
    requires all.Member? && all.rest == rest && Json.NoLoneHole(all.value) && Json.NoLoneHoleMembers(rest)
    ensures Json.NoLoneHoleMembers(all)
  {
  }

  /** Two missions with one hash have the same stored fields: the hash stands for all of them. */
  lemma MissionHashDetermines(sha256: string -> string, f: MissionFields, g: MissionFields)
    requires Injective(sha256)
    ensures MissionHash(sha256, f) == MissionHash(sha256, g) <==> f == g
  {
    hide StringItems, OptionalMember, VisibilityText, Json.Flat, Json.NoLoneHole;
    if MissionHash(sha256, f) == MissionHash(sha256, g) {
      MissionJsonNoHoles(f);
      MissionJsonNoHoles(g);
      assert Json.Flat(MissionJson(f)) + "" == Json.Flat(MissionJson(g)) + "";
      Json.FlatInjective(MissionJson(f), MissionJson(g), "", "");
      StringItemsInjective(f.allowedAgentIds, g.allowedAgentIds);
      VisibilityTextInjective(f.visibility, g.visibility);
      TailInjective(f, g);
    }
  }

  // ---- invariants of the stored lists, and of the history behind them ----

  const SESSION_CAP := 200
  const CHALLENGE_CAP := 300
  const BINDING_CAP := 300
  const MISSION_CAP := 500
  const CLAIM_CAP := 1000

  /** Sessions carry distinct ids and the email they were created with; verified once means verified now. */
  ghost predicate SessionsOk(sessions: seq<Session>, emails: map<string, string>, verified: set<string>) {
    && |sessions| <= SESSION_CAP
    && (forall i, j :: 0 <= i < j < |sessions| ==> sessions[i].id != sessions[j].id)
    && (forall i :: 0 <= i < |sessions| ==>
          && sessions[i].id in emails && emails[sessions[i].id] == sessions[i].email
          && (sessions[i].id in verified <==> sessions[i].status == SessionVerified))
    && verified <= emails.Keys
  }

  /** What a challenge was issued with never changes. */
  predicate SameOrigin(c: Challenge, d: Challenge) {
    && c.id == d.id && c.sessionId == d.sessionId && c.emailHash == d.emailHash && c.workshopId == d.workshopId
    && c.nonce == d.nonce && c.createdAt == d.createdAt && c.expiresAt == d.expiresAt
  }

  /** Every challenge ever issued went to a session already verified, under the hash of that session's email. */
  ghost predicate IssuedOk(
      sha256: string -> string, issued: map<string, Challenge>, emails: map<string, string>, verified: set<string>)
  {
    forall id :: id in issued ==>
      && issued[id].sessionId in verified && issued[id].sessionId in emails
      && issued[id].emailHash == sha256(emails[issued[id].sessionId])
  }

  ghost predicate ChallengesOk(challenges: seq<Challenge>, issued: map<string, Challenge>) {
    && |challenges| <= CHALLENGE_CAP
    && (forall i, j :: 0 <= i < j < |challenges| ==> challenges[i].id != challenges[j].id)
    && forall i :: 0 <= i < |challenges| ==>
         challenges[i].id in issued && SameOrigin(challenges[i], issued[challenges[i].id])
  }

  predicate SamePair(a: Binding, b: Binding) {
    a.sessionId == b.sessionId && a.agentId == b.agentId && a.status != BindingRevoked && b.status != BindingRevoked
  }

  /** At most one binding that is not revoked for a session and an agent. */
  ghost predicate OneActiveEach(bindings: seq<Binding>) {
    bindings != [] ==>
      && (forall i :: 1 <= i < |bindings| ==> !SamePair(bindings[0], bindings[i]))
      && OneActiveEach(bindings[1..])
  }

  lemma {:induction false} OneActiveMeans(bindings: seq<Binding>, i: nat, j: nat)
    requires OneActiveEach(bindings) && i < j < |bindings|
    ensures !SamePair(bindings[i], bindings[j])
  {
    if i > 0 {
      OneActiveMeans(bindings[1..], i - 1, j - 1);
    }
  }

  lemma {:induction false} OneActiveFiltered(bindings: seq<Binding>, keep: Binding -> bool)
    requires OneActiveEach(bindings)
    ensures OneActiveEach(Filter(bindings, keep))
  {
    if bindings != [] {
      var rest := Filter(bindings[1..], keep);
      OneActiveFiltered(bindings[1..], keep);
      if keep(bindings[0]) {
        var all := [bindings[0]] + rest;
        forall i | 1 <= i < |all| ensures !SamePair(all[0], all[i]) {
          assert all[i] in rest;
        }
        assert all[1..] == rest;
      } else {
        assert [] + rest == rest;
      }
    }
  }

  lemma {:induction false} OneActivePrefix(bindings: seq<Binding>, n: nat)
    requires OneActiveEach(bindings) && n <= |bindings|
    ensures OneActiveEach(bindings[..n])
  {
    if n > 0 {
      OneActivePrefix(bindings[1..], n - 1);
      assert bindings[..n][1..] == bindings[1..][..n - 1];
    }
  }

  /** A binding speaks for the challenge it claimed: same session, email hash and workshop. */
  predicate Bound(b: Binding, issued: map<string, Challenge>) {
    && b.challengeId in issued
    && b.sessionId == issued[b.challengeId].sessionId && b.emailHash == issued[b.challengeId].emailHash
    && b.workshopId == issued[b.challengeId].workshopId && b.status == BindingClaimed
  }

  ghost predicate BindingsOk(bindings: seq<Binding>, issued: map<string, Challenge>) {
    && |bindings| <= BINDING_CAP && OneActiveEach(bindings)
    && forall i :: 0 <= i < |bindings| ==> Bound(bindings[i], issued)
  }

  function Last(h: seq<Status>): Status {
    if h == [] then Draft else h[|h| - 1]
  }

  /** Every mission ever created has a status history that is a path in the transition table. */
  ghost predicate HistoryOk(history: map<string, seq<Status>>) {
    forall id :: id in history ==> Path(history[id])
  }

  ghost predicate MissionsOk(sha256: string -> string, missions: seq<Mission>, history: map<string, seq<Status>>) {
    && |missions| <= MISSION_CAP
    && (forall i, j :: 0 <= i < j < |missions| ==> missions[i].id != missions[j].id)
    && forall i :: 0 <= i < |missions| ==>
         && missions[i].id in history && missions[i].status == Last(history[missions[i].id])
         && missions[i].hash == MissionHash(sha256, missions[i].fields)
  }

  ghost predicate ClaimsOk(claims: seq<Claim>, history: map<string, seq<Status>>) {
    && |claims| <= CLAIM_CAP
    && forall i :: 0 <= i < |claims| ==> claims[i].missionId in history
  }

  class ControlPlane {
    const sha256: string -> string
    var authSessions: seq<Session>
    var adminChallenges: seq<Challenge>
    var adminBindings: seq<Binding>
    var missions: seq<Mission>
    var agentClaims: seq<Claim>
    /**
     History, which outlives eviction: emails by session, sessions ever verified, challenges as issued, mission
     statuses.
     */
    ghost var emails: map<string, string>
    ghost var verified: set<string>
    ghost var issued: map<string, Challenge>
    ghost var history: map<string, seq<Status>>

    ghost predicate Valid()
      reads this
    {
      && SessionsOk(authSessions, emails, verified)
      && IssuedOk(sha256, issued, emails, verified)
      && ChallengesOk(adminChallenges, issued)
      && BindingsOk(adminBindings, issued)
      && MissionsOk(sha256, missions, history)
      && HistoryOk(history)
      && ClaimsOk(agentClaims, history)
    }

    constructor (sha256: string -> string)
      ensures Valid() && this.sha256 == sha256
      ensures authSessions == [] && adminChallenges == [] && adminBindings == [] && missions == [] && agentClaims == []
      ensures emails == map[] && verified == {} && issued == map[] && history == map[]
    {
      this.sha256 := sha256;
      authSessions, adminChallenges, adminBindings, missions, agentClaims := [], [], [], [], [];
      emails, verified, issued, history := map[], {}, map[], map[];
    }

    method CreateAuthSession(now: int, id: string, token: string, email: string)
      requires Valid() && id !in emails
      modifies `authSessions, `emails
      ensures Valid() && emails == old(emails)[id := email]
      ensures var session := Session(id, email, SessionPending, sha256(token), now + 20 * 60_000, None);
              authSessions == Prepend(session, old(authSessions), SESSION_CAP)
    {
      hide ChallengesOk, BindingsOk, MissionsOk, HistoryOk, ClaimsOk, Prepend;
      var session := Session(id, email, SessionPending, sha256(token), now + 20 * 60_000, None);
      authSessions := Prepend(session, authSessions, SESSION_CAP);
      emails := emails[id := email];
    }

    /** Only a pending session reacts: it turns expired when late, verified on its own token, and otherwise stays. */
    method VerifyAuthSession(now: int, sessionId: Option<string>, token: Option<string>)
      returns (result: Result<Session, Error>)
      requires Valid()
      modifies `authSessions, `verified
      ensures Valid()
      ensures authSessions == AfterAttempts(old(authSessions), sha256, now, sessionId, token)
      ensures |authSessions| == |old(authSessions)|
      ensures forall i :: 0 <= i < |authSessions| ==>
                Attempted(old(authSessions)[i], authSessions[i], sha256, now, sessionId, token)
      ensures verified == old(verified) + IdsOf(authSessions, SessionVerified)
      ensures result.Ok? ==> result.value in authSessions && result.value.status != SessionPending
      ensures Answered(old(authSessions), result, sha256, now, sessionId, token)
    {
      hide SessionsOk, ChallengesOk, BindingsOk, MissionsOk, HistoryOk, ClaimsOk, OptionalText, IssuedOk, IdsOf,
           ReplaceWhere, FindIndex, Attempted, AfterVerify, Answered, AfterAttempts, Presents;
      var wanted, presented := OptionalText(sessionId, 120), OptionalText(token, 240);
      AttemptsMean(authSessions, sha256, now, sessionId, token);
      VerifiedKnown(authSessions, emails, verified);
      if wanted.None? || presented.None? {
        NoneAnswered(authSessions, Err(MissingField), sha256, now, sessionId, token);
        AttemptsNone(authSessions, sha256, now, sessionId, token);
        return Err(MissingField);
      }
      var at := FindIndex(authSessions, (s: Session) => s.id == wanted.value);
      if at.None? {
        NoneAnswered(authSessions, Err(NotFound), sha256, now, sessionId, token);
        AttemptsNone(authSessions, sha256, now, sessionId, token);
        return Err(NotFound);
      }
      var k := at.value;
      var session := authSessions[k];
      VerifyKeeps(authSessions, emails, verified, k, now, sha256(presented.value));
      assert Named(session, sessionId, token);
      AttemptsAt(authSessions, k, sha256, now, sessionId, token);
      if session.status != SessionPending {
        AnsweredAt(authSessions, Ok(session), k, sha256, now, sessionId, token);
        return Ok(session);
      }
      if session.expiresAt <= now {
        AnsweredAt(authSessions, Err(SessionTimedOut), k, sha256, now, sessionId, token);
        authSessions := authSessions[k := session.(status := SessionExpired)];
        VerifiedKnown(authSessions, emails, verified);
        return Err(SessionTimedOut);
      }
      assert Presents(session, sha256, token) <==> session.tokenHash == sha256(presented.value) by {
        PresentsMeans(session, sha256, token);
      }
      if session.tokenHash != sha256(presented.value) {
        AnsweredAt(authSessions, Err(BadToken), k, sha256, now, sessionId, token);
        return Err(BadToken);
      }
      var next := session.(status := SessionVerified, verifiedAt := Some(now));
      AnsweredAt(authSessions, Ok(next), k, sha256, now, sessionId, token);
      authSessions := ReplaceWhere(authSessions, (s: Session) => s.id == wanted.value, next);
      IssuedStays(sha256, issued, emails, verified, emails, verified + {session.id});
      verified := verified + {session.id};
      NewlyVerified(old(authSessions), old(verified), k, next);
      assert authSessions[k] == next;
      result := Ok(next);
    }

    method IssueAdminChallenge(now: int, sessionId: Option<string>, id: string, nonce: string, workshopId: string)
          returns (result: Result<Challenge, Error>)
      requires Valid() && id !in issued
      modifies `adminChallenges, `issued
      ensures Valid()
      ensures result.Err? ==> adminChallenges == old(adminChallenges) && issued == old(issued)
      ensures result.Ok? <==>
              exists i :: 0 <= i < |authSessions| && Some(authSessions[i].id) == OptionalText(sessionId, 120)
                                          && authSessions[i].status == SessionVerified
      ensures result.Ok? ==>
                && Some(result.value.sessionId) == OptionalText(sessionId, 120)
                && result.value.emailHash == sha256(emails[result.value.sessionId])
                && result.value == Challenge(
                     id, result.value.sessionId, result.value.emailHash, workshopId, nonce, Issued,
                     None, None, None, None, None, now, now + 30 * 60_000, None)
                && adminChallenges == Prepend(result.value, old(adminChallenges), CHALLENGE_CAP)
                && issued == old(issued)[id := result.value]
    {
      hide MissionsOk, HistoryOk, ClaimsOk, OptionalText, BindingsOk, ChallengesOk, IssuedOk;
      var wanted := OptionalText(sessionId, 120);
      if wanted.None? {
        return Err(MissingField);
      }
      var at := FindIndex(authSessions, (s: Session) => s.id == wanted.value && s.status == SessionVerified);
      if at.None? {
        return Err(SessionNotVerified);
      }
      var session := authSessions[at.value];
      var challenge := Challenge(
        id, wanted.value, sha256(session.email), workshopId, nonce, Issued,
        None, None, None, None, None, now, now + 30 * 60_000, None);
      IssueKeeps(sha256, adminChallenges, adminBindings, issued, emails, verified, challenge);
      adminChallenges := Prepend(challenge, adminChallenges, CHALLENGE_CAP);
      issued := issued[id := challenge];
      result := Ok(challenge);
    }

    /**
     An open, unexpired challenge is claimed for an agent; a late claim only marks the challenge expired, whatever it
     was.
     */
    method ClaimAdminChallenge(
        now: int, challengeId: Option<string>, agentId: Option<string>, agentName: Option<string>,
        signature: Option<string>, publicKey: Option<string>, suppliedDigest: Option<string>, bindingId: string)
      returns (result: Result<(Challenge, Binding), Error>)
      requires Valid()
      modifies `adminChallenges, `adminBindings
      ensures Valid()
      ensures result.Ok? <==>
              exists i :: 0 <= i < |old(adminChallenges)|
                          && Claimable(old(adminChallenges)[i], now, challengeId, agentId)
      ensures adminChallenges ==
              if OptionalText(challengeId, 120).None? || OptionalText(agentId, 180).None? then old(adminChallenges)
              else
                var attempt := ClaimOf(agentId, agentName, signature, publicKey, suppliedDigest);
                AfterClaims(sha256, old(adminChallenges), OptionalText(challengeId, 120).value, now, attempt)
      ensures result.Err? ==> adminBindings == old(adminBindings)
      ensures result.Ok? ==>
                && result.value.0 in adminChallenges && Some(result.value.0.id) == OptionalText(challengeId, 120)
                && adminBindings == Rebound(old(adminBindings), result.value.1)
                && var agent, name := OptionalText(agentId, 180), OptionalText(agentName, 160);
                   agent.Some? && result.value.1 == BindingOf(result.value.0, agent.value, name, bindingId, now)
      ensures result.Ok? ==>
                && Some(result.value.1.agentId) == OptionalText(agentId, 180) == result.value.0.agentId
                && Some(result.value.1.challengeId) == OptionalText(challengeId, 120)
                && result.value.1.agentName == OptionalText(agentName, 160) && result.value.1.status == BindingClaimed
                && result.value.1.id == bindingId && result.value.1.createdAt == now
    {
      hide SessionsOk, MissionsOk, HistoryOk, ClaimsOk, OptionalText, ChallengesOk, BindingsOk, IssuedOk, Rebound,
           ReplaceWhere, FindIndex, AfterClaim, AfterClaims, SameOrigin, Bound, BindingOf, ClaimOf, Newer;
      var wanted, agent := OptionalText(challengeId, 120), OptionalText(agentId, 180);
      if wanted.None? || agent.None? {
        return Err(MissingField);
      }
      var at := FindIndex(adminChallenges, (c: Challenge) => c.id == wanted.value);
      if at.None? {
        var attempt := ClaimOf(agentId, agentName, signature, publicKey, suppliedDigest);
        AfterClaimsNone(sha256, adminChallenges, wanted.value, now, attempt);
        return Err(NotFound);
      }
      var challenge := adminChallenges[at.value];
      UniqueChallenge(adminChallenges, issued, at.value);
      var attempt := ClaimOf(agentId, agentName, signature, publicKey, suppliedDigest);
      var next := AfterClaim(sha256, challenge, now, attempt);
      ClaimCases(sha256, challenge, now, attempt);
      AfterClaimsAt(sha256, adminChallenges, at.value, now, attempt);
      ReplaceKeeps(adminChallenges, issued, at.value, next);
      if challenge.expiresAt <= now {
        adminChallenges := ReplaceWhere(adminChallenges, (c: Challenge) => c.id == next.id, next);
        return Err(ChallengeTimedOut);
      }
      if challenge.status != Issued && challenge.status != Claimed {
        return Err(ChallengeClosed);
      }
      ClaimMeans(sha256, challenge, now, attempt);
      BindingParts(next, agent.value, OptionalText(agentName, 160), bindingId, now);
      ClaimParts(agentId, agentName, signature, publicKey, suppliedDigest);
      var binding := BindingOf(next, agent.value, OptionalText(agentName, 160), bindingId, now);
      BindingOfBound(challenge, next, issued, agent.value, OptionalText(agentName, 160), bindingId, now);
      BindKeeps(adminBindings, issued, binding);
      adminChallenges := ReplaceWhere(adminChallenges, (c: Challenge) => c.id == next.id, next);
      adminBindings := Rebound(adminBindings, binding);
      assert adminChallenges[at.value] == next;
      result := Ok((next, binding));
    }

    method CreateMission(
        now: int, id: string, workspaceId: string, title: Option<string>, goal: Option<string>,
        visibility: Option<string>, allowedAgentIds: seq<string>, dataRules: Option<string>,
        successCriteria: Option<string>, budgetUsd: Option<string>, expiresAt: Option<string>,
        sessionId: Option<string>, bindingId: Option<string>)
      returns (result: Result<Mission, Error>)
      requires Valid() && id !in history
      modifies `missions, `history
      ensures Valid()
      ensures result.Ok? <==> OptionalText(title, 160).Some? && OptionalText(goal, 2000).Some?
      ensures result.Err? ==> missions == old(missions) && history == old(history)
      ensures result.Ok? ==>
                && missions == Prepend(result.value, old(missions), MISSION_CAP)
                && history == old(history)[id := [Draft]]
                && var fields := MissionFieldsOf(
                     workspaceId, title, goal, VisibilityOf(visibility), allowedAgentIds, dataRules, successCriteria,
                     budgetUsd, expiresAt);
                   var session, binding := OptionalText(sessionId, 120), OptionalText(bindingId, 120);
                   result.value == Mission(id, fields, MissionHash(sha256, fields), Draft, session, binding, now, now)
    {
      hide SessionsOk, ChallengesOk, BindingsOk, IssuedOk, OptionalText, MissionHash, Next, MissionFieldsOf, MissionsOk,
           ClaimsOk, Prepend, VisibilityOf;
      var t, g := OptionalText(title, 160), OptionalText(goal, 2000);
      if t.None? || g.None? {
        return Err(MissingField);
      }
      var fields := MissionFieldsOf(
        workspaceId, title, goal, VisibilityOf(visibility), allowedAgentIds, dataRules, successCriteria, budgetUsd,
        expiresAt);
      var session, binding := OptionalText(sessionId, 120), OptionalText(bindingId, 120);
      var mission := Mission(id, fields, MissionHash(sha256, fields), Draft, session, binding, now, now);
      CreateKeeps(sha256, missions, agentClaims, history, mission);
      missions := Prepend(mission, missions, MISSION_CAP);
      history := history[id := [Draft]];
      result := Ok(mission);
    }

    method TransitionMission(now: int, missionId: Option<string>, status: Option<string>)
      returns (result: Result<Mission, Error>)
      requires Valid()
      modifies `missions, `history
      ensures Valid()
      ensures result.Ok? <==> exists i :: 0 <= i < |old(missions)| && Movable(old(missions)[i], missionId, status)
      ensures result.Err? ==> missions == old(missions) && history == old(history)
      ensures result.Ok? ==> |missions| == |old(missions)|
      ensures result.Ok? ==> forall i :: 0 <= i < |missions| ==>
                var was := old(missions)[i];
                missions[i] == if !Movable(was, missionId, status) then was
                               else was.(status := StatusOf(OptionalText(status, 80)).value, updatedAt := now)
      ensures result.Ok? ==>
                var id, target := OptionalText(missionId, 120).value, StatusOf(OptionalText(status, 80)).value;
                id in old(history) && history == old(history)[id := old(history)[id] + [target]]
    {
      hide SessionsOk, ChallengesOk, BindingsOk, IssuedOk, OptionalText, MissionHash, Next, StatusOf, MissionsOk,
           ClaimsOk, HistoryOk;
      var wanted, target := OptionalText(missionId, 120), StatusOf(OptionalText(status, 80));
      StatusOfNothing();
      if wanted.None? || OptionalText(status, 80).None? {
        return Err(MissingField);
      }
      if target.None? {
        return Err(UnknownStatus);
      }
      var at := FindIndex(missions, (m: Mission) => m.id == wanted.value);
      if at.None? {
        return Err(NotFound);
      }
      var mission := missions[at.value];
      UniqueMission(sha256, missions, history, at.value);
      if target.value !in Next(mission.status) {
        return Err(ForbiddenTransition);
      }
      var next := mission.(status := target.value, updatedAt := now);
      MoveKeeps(sha256, missions, agentClaims, history, at.value, next);
      missions := ReplaceWhere(missions, (m: Mission) => m.id == wanted.value, next);
      history := history[wanted.value := history[wanted.value] + [target.value]];
      result := Ok(next);
    }

    /** A claim is recorded for any mission; one waiting for agents moves on to having some. */
    method ClaimMission(
        now: int, claimId: string, missionId: Option<string>, agentId: Option<string>, role: Role, scope: string)
      returns (result: Result<(Claim, Mission), Error>)
      requires Valid()
      modifies `missions, `history, `agentClaims
      ensures Valid()
      ensures result.Ok? <==>
                && OptionalText(agentId, 180).Some?
                && exists i :: 0 <= i < |old(missions)| && Some(old(missions)[i].id) == OptionalText(missionId, 120)
      ensures result.Err? ==> missions == old(missions) && history == old(history) && agentClaims == old(agentClaims)
      ensures result.Ok? ==> missions == Advanced(old(missions), OptionalText(missionId, 120), now)
      ensures result.Ok? ==>
                var id := OptionalText(missionId, 120).value;
                && id in old(history)
                && var path := old(history)[id];
                   history ==
                   if AwaitsAgents(Last(path)) then old(history)[id := path + [AgentsClaimed]] else old(history)
      ensures result.Ok? ==>
                && result.value.0 ==
                   Claim(claimId, result.value.1.id, OptionalText(agentId, 180).value, role, sha256(scope), now)
                && Some(result.value.1.id) == OptionalText(missionId, 120) && result.value.1 in missions
                && agentClaims == Prepend(result.value.0, old(agentClaims), CLAIM_CAP)
    {
      hide SessionsOk, ChallengesOk, BindingsOk, IssuedOk, OptionalText, MissionHash, Next, MissionsOk, ClaimsOk,
           HistoryOk, Prepend, ReplaceWhere, FindIndex, Advanced;
      var wanted, agent := OptionalText(missionId, 120), OptionalText(agentId, 180);
      if wanted.None? || agent.None? {
        return Err(MissingField);
      }
      var at := FindIndex(missions, (m: Mission) => m.id == wanted.value);
      if at.None? {
        return Err(NotFound);
      }
      var mission := missions[at.value];
      UniqueMission(sha256, missions, history, at.value);
      var claim := Claim(claimId, wanted.value, agent.value, role, sha256(scope), now);
      var next := if AwaitsAgents(mission.status) then mission.(status := AgentsClaimed, updatedAt := now) else mission;
      if AwaitsAgents(mission.status) {
        AwaitedNext(mission.status);
        MoveKeeps(sha256, missions, agentClaims, history, at.value, next);
        history := history[wanted.value := history[wanted.value] + [AgentsClaimed]];
      } else {
        assert missions[at.value := mission] == missions;
      }
      ReplaceAt(missions, at.value, next);
      AdvancedAt(missions, at.value, now);
      ClaimKeeps(agentClaims, history, claim);
      missions := ReplaceWhere(missions, (m: Mission) => m.id == next.id, next);
      agentClaims := Prepend(claim, agentClaims, CLAIM_CAP);
      assert missions[at.value] == next;
      result := Ok((claim, next));
    }
  }

  const DEFAULT_DATA_RULES := "Private by default. Public receipts expose proof metadata only."
  const DEFAULT_SUCCESS_CRITERIA := "Mission completes when the required receipt is confirmed and reviewed."

  function Newer(given: Option<string>, kept: Option<string>): Option<string> {
    if given.Some? then given else kept
  }

  function Default(given: Option<string>, default: string): string {
    if given.Some? then given.value else default
  }

  function Trimmed(ids: seq<string>): seq<string> {
    seq(|ids|, i requires 0 <= i < |ids| => Trim(ids[i]))
  }

  /** At most fifty trimmed, non-blank agent ids, in the order given. */
  function CleanIds(ids: seq<string>): seq<string> {
    var kept := Filter(Trimmed(ids), id => id != "");
    if |kept| <= 50 then kept else kept[..50]
  }

  /** The stored fields: required texts cut to length, the rest cleaned or defaulted. */
  function MissionFieldsOf(
      workspaceId: string, title: Option<string>, goal: Option<string>, visibility: Visibility,
      allowedAgentIds: seq<string>, dataRules: Option<string>, successCriteria: Option<string>,
      budgetUsd: Option<string>, expiresAt: Option<string>): MissionFields
    requires OptionalText(title, 160).Some? && OptionalText(goal, 2000).Some?
  {
    MissionFields(
      workspaceId, OptionalText(title, 160).value, OptionalText(goal, 2000).value, visibility,
      CleanIds(allowedAgentIds),
      Default(OptionalText(dataRules, 2000), DEFAULT_DATA_RULES),
      Default(OptionalText(successCriteria, 2000), DEFAULT_SUCCESS_CRITERIA),
      OptionalText(budgetUsd, 40), OptionalText(expiresAt, 80))
  }

  /**
   What a mission is stored with: its texts trimmed and cut, its agents cleaned, the defaults where nothing was given.
   */
  lemma MissionFieldsMean(
      workspaceId: string, title: Option<string>, goal: Option<string>, visibility: Visibility,
      allowedAgentIds: seq<string>, dataRules: Option<string>, successCriteria: Option<string>,
      budgetUsd: Option<string>, expiresAt: Option<string>)
    requires OptionalText(title, 160).Some? && OptionalText(goal, 2000).Some?
    ensures var f := MissionFieldsOf(
                workspaceId, title, goal, visibility, allowedAgentIds, dataRules, successCriteria, budgetUsd,
                expiresAt);
            && f.workspaceId == workspaceId && f.visibility == visibility
            && f.allowedAgentIds == CleanIds(allowedAgentIds)
            && Some(f.title) == OptionalText(title, 160) && Some(f.goal) == OptionalText(goal, 2000)
            && f.budgetUsd == OptionalText(budgetUsd, 40) && f.expiresAt == OptionalText(expiresAt, 80)
            && (dataRules.None? || Trim(dataRules.value) == "" ==> f.dataRules == DEFAULT_DATA_RULES)
            && (dataRules.Some? && Trim(dataRules.value) != "" ==>
                  f.dataRules != "" && f.dataRules <= Trim(dataRules.value) && |f.dataRules| <= 2000)
            && (successCriteria.None? || Trim(successCriteria.value) == "" ==>
                  f.successCriteria == DEFAULT_SUCCESS_CRITERIA)
            && (successCriteria.Some? && Trim(successCriteria.value) != "" ==>
                  f.successCriteria != "" && f.successCriteria <= Trim(successCriteria.value)
                  && |f.successCriteria| <= 2000)
  {
    hide Trim, CleanIds, DEFAULT_DATA_RULES, DEFAULT_SUCCESS_CRITERIA, OptionalText;
    OptionalTextMeans(dataRules, 2000);
    OptionalTextMeans(successCriteria, 2000);
  }

  /** Agent ids are trimmed, the blank ones dropped and the rest kept in order, fifty at most. */
  lemma CleanIdsMean(a: seq<string>, id: string)
    ensures |CleanIds(a)| <= 50 && CleanIds([]) == []
    ensures |CleanIds(a)| < 50 ==> CleanIds(a + [id]) == CleanIds(a) + if Trim(id) == "" then [] else [Trim(id)]
    ensures |CleanIds(a)| == 50 ==> CleanIds(a + [id]) == CleanIds(a)
  {
    hide Trim, Filter;
    var keep := (id: string) => id != "";
    CleanedAppend(a, id);
    FilterAppend(Trimmed(a), [Trim(id)], keep);
    assert Trimmed([]) == [];
    FilterAppend<string>([], [], keep);
  }

  lemma CleanedAppend(a: seq<string>, id: string)
    ensures Trimmed(a + [id]) == Trimmed(a) + [Trim(id)]
  {
    hide Trim;
  }

  function ClaimJson(c: Challenge, agentId: string): Json.Json {
    Json.Obj(
      Json.Member("challengeId", Json.Str(c.id),
      Json.Member("agentId", Json.Str(agentId),
      Json.Member("nonce", Json.Str(c.nonce),
      Json.Member("audience", Json.Str("santaclawz-workshop-beta-admin-binding"), Json.NoMembers)))))
  }

  function ClaimDigest(sha256: string -> string, c: Challenge, agentId: string, supplied: Option<string>): string {
    if supplied.Some? && IsDigest(supplied.value) then supplied.value else sha256(Json.Flat(ClaimJson(c, agentId)))
  }

  /** What an agent presents to claim a challenge. */
  datatype Attempt = Attempt(
    agent: string, name: Option<string>, signature: Option<string>, publicKey: Option<string>, digest: Option<string>)

  function ClaimOf(
      agentId: Option<string>, name: Option<string>, signature: Option<string>, publicKey: Option<string>,
      digest: Option<string>): Attempt
    requires OptionalText(agentId, 180).Some?
  {
    Attempt(
      OptionalText(agentId, 180).value, OptionalText(name, 160), OptionalText(signature, 2000),
      OptionalText(publicKey, 500), OptionalText(digest, 80))
  }

  /** A challenge after an attempt to claim it: expired when late, claimed when open, and otherwise as it was. */
  function AfterClaim(sha256: string -> string, c: Challenge, now: int, a: Attempt): Challenge {
    if c.expiresAt <= now then c.(status := ChallengeExpired)
    else if c.status != Issued && c.status != Claimed then c
    else
      c.(
        status := Claimed, agentId := Some(a.agent), claimDigest := Some(ClaimDigest(sha256, c, a.agent, a.digest)),
        agentName := Newer(a.name, c.agentName), signature := Newer(a.signature, c.signature),
        publicKey := Newer(a.publicKey, c.publicKey), claimedAt := Some(now))
  }

  /** Only the named challenge changes. */
  function AfterClaims(
      sha256: string -> string, challenges: seq<Challenge>, id: string, now: int, a: Attempt): (r: seq<Challenge>)
    ensures |r| == |challenges|
    ensures forall i :: 0 <= i < |r| ==>
              r[i] == if challenges[i].id == id then AfterClaim(sha256, challenges[i], now, a) else challenges[i]
  {
    seq(|challenges|, i requires 0 <= i < |challenges| =>
      if challenges[i].id == id then AfterClaim(sha256, challenges[i], now, a) else challenges[i])
  }

  lemma AfterClaimsAt(sha256: string -> string, challenges: seq<Challenge>, k: nat, now: int, a: Attempt)
    requires k < |challenges| && forall i :: 0 <= i < |challenges| && challenges[i].id == challenges[k].id ==> i == k
    ensures var next := AfterClaim(sha256, challenges[k], now, a);
            && AfterClaims(sha256, challenges, challenges[k].id, now, a) == challenges[k := next]
            && ReplaceWhere(challenges, (c: Challenge) => c.id == next.id, next) == challenges[k := next]
  {
    hide ClaimDigest, Newer, AfterClaim;
    ClaimCases(sha256, challenges[k], now, a);
  }

  /** A late attempt expires the challenge whatever it was, also a claimed or verified one; a timely one never does. */
  lemma LateClaimExpires(sha256: string -> string, challenges: seq<Challenge>, k: nat, now: int, a: Attempt)
    requires k < |challenges| && forall i :: 0 <= i < |challenges| && challenges[i].id == challenges[k].id ==> i == k
    ensures AfterClaims(sha256, challenges, challenges[k].id, now, a)[k].status == ChallengeExpired <==>
            challenges[k].expiresAt <= now || challenges[k].status == ChallengeExpired
  {
    hide ClaimDigest, Newer, AfterClaims;
    AfterClaimsAt(sha256, challenges, k, now, a);
  }

  lemma AfterClaimsNone(sha256: string -> string, challenges: seq<Challenge>, id: string, now: int, a: Attempt)
    requires forall i :: 0 <= i < |challenges| ==> challenges[i].id != id
    ensures AfterClaims(sha256, challenges, id, now, a) == challenges
  {
    hide AfterClaim;
  }

  lemma ClaimCases(sha256: string -> string, c: Challenge, now: int, a: Attempt)
    ensures var after := AfterClaim(sha256, c, now, a);
            && SameOrigin(after, c) && after.id == c.id
            && (now < c.expiresAt && c.status != Issued && c.status != Claimed ==> after == c)
  {
    hide ClaimDigest, Newer;
  }

  /**
   What an attempt to claim leaves of a challenge: what it was issued with, and, when it was open and in time, the claim
   of the agent now, with the newest texts given.
   */
  lemma ClaimMeans(sha256: string -> string, c: Challenge, now: int, a: Attempt)
    ensures var r := AfterClaim(sha256, c, now, a);
            && SameOrigin(r, c)
            && (c.expiresAt <= now ==> r == c.(status := ChallengeExpired))
            && (now < c.expiresAt && c.status != Issued && c.status != Claimed ==> r == c)
            && (now < c.expiresAt && (c.status == Issued || c.status == Claimed) ==>
                  && r.status == Claimed && r.agentId == Some(a.agent) && r.claimedAt == Some(now)
                  && r.claimDigest == Some(ClaimDigest(sha256, c, a.agent, a.digest))
                  && (a.name.Some? ==> r.agentName == a.name) && (a.name.None? ==> r.agentName == c.agentName)
                  && (a.signature.Some? ==> r.signature == a.signature)
                  && (a.signature.None? ==> r.signature == c.signature)
                  && (a.publicKey.Some? ==> r.publicKey == a.publicKey)
                  && (a.publicKey.None? ==> r.publicKey == c.publicKey))
  {
    hide ClaimDigest;
  }

  /** A digest the agent supplies is taken; any other one stands for the challenge, its nonce and the agent. */
  lemma ClaimDigestDetermines(
      sha256: string -> string, c: Challenge, agent: string, d: Challenge, other: string, supplied: Option<string>)
    requires Injective(sha256)
    ensures supplied.Some? && IsDigest(supplied.value) ==> ClaimDigest(sha256, c, agent, supplied) == supplied.value
    ensures supplied.None? || !IsDigest(supplied.value) ==>
              (ClaimDigest(sha256, c, agent, supplied) == ClaimDigest(sha256, d, other, supplied) <==>
               c.id == d.id && agent == other && c.nonce == d.nonce)
  {
    hide IsDigest, Json.Flat, Json.NoLoneHole;
    ClaimJsonNoHoles(c, agent);
    ClaimJsonNoHoles(d, other);
    if Json.Flat(ClaimJson(c, agent)) == Json.Flat(ClaimJson(d, other)) {
      assert Json.Flat(ClaimJson(c, agent)) + "" == Json.Flat(ClaimJson(d, other)) + "";
      Json.FlatInjective(ClaimJson(c, agent), ClaimJson(d, other), "", "");
    }
  }

  lemma ClaimJsonNoHoles(c: Challenge, agent: string)
    ensures Json.NoLoneHole(ClaimJson(c, agent))
  {
    var a := ClaimJson(c, agent).members;
    NoHolesInFront(a.rest.rest.rest, a.rest.rest);
    NoHolesInFront(a.rest.rest, a.rest);
    NoHolesInFront(a.rest, a);
  }

  /** The binding a claimed challenge gives its agent. */
  function BindingOf(c: Challenge, agent: string, name: Option<string>, bindingId: string, now: int): Binding {
    Binding(bindingId, c.sessionId, c.emailHash, c.workshopId, agent, name, BindingClaimed, c.id, now)
  }

  lemma BindingParts(c: Challenge, agent: string, name: Option<string>, bindingId: string, now: int)
    ensures var b := BindingOf(c, agent, name, bindingId, now);
            && b.agentId == agent && b.agentName == name && b.challengeId == c.id && b.id == bindingId
            && b.createdAt == now && b.status == BindingClaimed
  {
  }

  lemma ClaimParts(
      agentId: Option<string>, name: Option<string>, signature: Option<string>, publicKey: Option<string>,
      digest: Option<string>)
    requires OptionalText(agentId, 180).Some?
    ensures var a := ClaimOf(agentId, name, signature, publicKey, digest);
            && Some(a.agent) == OptionalText(agentId, 180) && a.name == OptionalText(name, 160)
            && a.signature == OptionalText(signature, 2000) && a.publicKey == OptionalText(publicKey, 500)
            && a.digest == OptionalText(digest, 80)
  {
  }

  lemma BindingOfBound(
      c: Challenge, next: Challenge, issued: map<string, Challenge>, agent: string, name: Option<string>,
      bindingId: string, now: int)
    requires c.id in issued && SameOrigin(c, issued[c.id]) && SameOrigin(next, c)
    ensures Bound(BindingOf(next, agent, name, bindingId, now), issued)
  {
  }

  predicate Claimable(c: Challenge, now: int, challengeId: Option<string>, agentId: Option<string>) {
    && Some(c.id) == OptionalText(challengeId, 120) && OptionalText(agentId, 180).Some?
    && now < c.expiresAt && (c.status == Issued || c.status == Claimed)
  }

  function StatusOf(text: Option<string>): Option<Status> {
    if text.None? then None
    else if text.value == "draft_mission" then Some(Draft)
    else if text.value == "admin_bound" then Some(AdminBound)
    else if text.value == "mission_issued" then Some(MissionIssued)
    else if text.value == "agents_invited" then Some(AgentsInvited)
    else if text.value == "agents_claimed" then Some(AgentsClaimed)
    else if text.value == "work_started" then Some(WorkStarted)
    else if text.value == "receipt_pending" then Some(ReceiptPending)
    else if text.value == "receipt_confirmed" then Some(ReceiptConfirmed)
    else if text.value == "verified" then Some(Verified)
    else if text.value == "completed" then Some(Completed)
    else if text.value == "expired" then Some(Expired)
    else if text.value == "revoked" then Some(Revoked)
    else if text.value == "agent_rejected" then Some(AgentRejected)
    else if text.value == "receipt_failed" then Some(ReceiptFailed)
    else if text.value == "verification_failed" then Some(VerificationFailed)
    else None
  }

  function StatusText(s: Status): string {
    match s
    case Draft => "draft_mission"
    case AdminBound => "admin_bound"
    case MissionIssued => "mission_issued"
    case AgentsInvited => "agents_invited"
    case AgentsClaimed => "agents_claimed"
    case WorkStarted => "work_started"
    case ReceiptPending => "receipt_pending"
    case ReceiptConfirmed => "receipt_confirmed"
    case Verified => "verified"
    case Completed => "completed"
    case Expired => "expired"
    case Revoked => "revoked"
    case AgentRejected => "agent_rejected"
    case ReceiptFailed => "receipt_failed"
    case VerificationFailed => "verification_failed"
  }

  /** A text names a status exactly when it is that status's own text. */
  lemma StatusRoundTrip(text: string, s: Status)
    ensures StatusOf(Some(text)) == Some(s) <==> text == StatusText(s)
  {
    hide StatusOf, StatusText;
    EarlyTexts(s);
    LateTexts(s);
    StatusNamed(text);
  }

  lemma EarlyTexts(s: Status)
    ensures Rank(s) <= 5 ==> StatusOf(Some(StatusText(s))) == Some(s)
  {
  }

  lemma LateTexts(s: Status)
    ensures Rank(s) > 5 ==> StatusOf(Some(StatusText(s))) == Some(s)
  {
  }

  lemma StatusNamed(text: string)
    ensures StatusOf(Some(text)).Some? ==> text == StatusText(StatusOf(Some(text)).value)
  {
  }

  lemma StatusOfNothing()
    ensures StatusOf(None) == None
  {
  }

  predicate Movable(m: Mission, missionId: Option<string>, status: Option<string>) {
    && Some(m.id) == OptionalText(missionId, 120)
    && StatusOf(OptionalText(status, 80)).Some? && StatusOf(OptionalText(status, 80)).value in Next(m.status)
  }

  predicate AwaitsAgents(s: Status) { s == MissionIssued || s == AgentsInvited }

  /** The named mission, if it waits for agents, has them. */
  function Advanced(missions: seq<Mission>, id: Option<string>, now: int): (r: seq<Mission>)
    ensures |r| == |missions|
    ensures forall i :: 0 <= i < |r| ==>
              r[i] == if Some(missions[i].id) == id && AwaitsAgents(missions[i].status)
                      then missions[i].(status := AgentsClaimed, updatedAt := now) else missions[i]
  {
    seq(|missions|, i requires 0 <= i < |missions| =>
      if Some(missions[i].id) == id && AwaitsAgents(missions[i].status)
      then missions[i].(status := AgentsClaimed, updatedAt := now) else missions[i])
  }

  lemma AdvancedAt(missions: seq<Mission>, k: nat, now: int)
    requires k < |missions| && forall i :: 0 <= i < |missions| && missions[i].id == missions[k].id ==> i == k
    ensures Advanced(missions, Some(missions[k].id), now) ==
            if AwaitsAgents(missions[k].status)
            then missions[k := missions[k].(status := AgentsClaimed, updatedAt := now)]
            else missions
  {
  }

  /** The statuses a claim moves on are exactly those the table lets go to agents claimed. */
  lemma AwaitedNext(s: Status)
    ensures AwaitsAgents(s) <==> AgentsClaimed in Next(s)
  {
  }

  lemma UniqueChallenge(challenges: seq<Challenge>, issued: map<string, Challenge>, k: nat)
    requires ChallengesOk(challenges, issued) && k < |challenges|
    ensures challenges[k].id in issued && SameOrigin(challenges[k], issued[challenges[k].id])
    ensures forall i :: 0 <= i < |challenges| && challenges[i].id == challenges[k].id ==> i == k
  {
  }

  lemma UniqueMission(sha256: string -> string, missions: seq<Mission>, history: map<string, seq<Status>>, k: nat)
    requires MissionsOk(sha256, missions, history) && k < |missions|
    ensures missions[k].id in history && missions[k].status == Last(history[missions[k].id])
    ensures forall i :: 0 <= i < |missions| && missions[i].id == missions[k].id ==> i == k
  {
  }

  lemma ReplaceAt(missions: seq<Mission>, k: nat, next: Mission)
    requires k < |missions| && next.id == missions[k].id
    requires forall i :: 0 <= i < |missions| && missions[i].id == missions[k].id ==> i == k
    ensures ReplaceWhere(missions, (m: Mission) => m.id == next.id, next) == missions[k := next]
  {
  }

  lemma ReplaceKeeps(challenges: seq<Challenge>, issued: map<string, Challenge>, k: nat, next: Challenge)
    requires ChallengesOk(challenges, issued) && k < |challenges| && SameOrigin(next, challenges[k])
    ensures ChallengesOk(ReplaceWhere(challenges, (c: Challenge) => c.id == next.id, next), issued)
  {
  }

  /** The new binding in front, in place of any that is not revoked for its session and agent. */
  function Rebound(bindings: seq<Binding>, b: Binding): seq<Binding> {
    Prepend(b, Filter(bindings, x => !SamePair(b, x)), BINDING_CAP)
  }

  /**
   Besides the new binding in front, exactly the bindings of other pairs and the revoked ones stay, in their order.
   */
  lemma ReboundMeans(bindings: seq<Binding>, b: Binding)
    requires b.status != BindingRevoked
    ensures var kept := Filter(
                bindings,
                (x: Binding) => x.sessionId != b.sessionId || x.agentId != b.agentId || x.status == BindingRevoked);
            Rebound(bindings, b) == if |kept| < BINDING_CAP then [b] + kept else [b] + kept[..BINDING_CAP - 1]
  {
    var keep := (x: Binding) => x.sessionId != b.sessionId || x.agentId != b.agentId || x.status == BindingRevoked;
    FilterAlike(bindings, x => !SamePair(b, x), keep);
  }

  lemma {:induction false} FilterAlike(bindings: seq<Binding>, p: Binding -> bool, q: Binding -> bool)
    requires forall x :: p(x) == q(x)
    ensures Filter(bindings, p) == Filter(bindings, q)
  {
    if bindings != [] {
      FilterAlike(bindings[1..], p, q);
    }
  }

  lemma BindKeeps(bindings: seq<Binding>, issued: map<string, Challenge>, b: Binding)
    requires BindingsOk(bindings, issued) && Bound(b, issued)
    ensures BindingsOk(Rebound(bindings, b), issued)
  {
    hide Bound, SamePair, Filter;
    var keep := x => !SamePair(b, x);
    var kept := Filter(bindings, keep);
    var all := [b] + kept;
    OneActiveFiltered(bindings, keep);
    forall i | 1 <= i < |all| ensures !SamePair(all[0], all[i]) {
      assert all[i] in kept;
    }
    assert all[1..] == kept;
    forall i | 0 <= i < |all| ensures Bound(all[i], issued) {
      assert i > 0 ==> all[i] in kept;
    }
    if |all| > BINDING_CAP {
      OneActivePrefix(all, BINDING_CAP);
    }
  }

  lemma CreateKeeps(
      sha256: string -> string, missions: seq<Mission>, claims: seq<Claim>, history: map<string, seq<Status>>,
      m: Mission)
    requires MissionsOk(sha256, missions, history) && ClaimsOk(claims, history) && m.id !in history
    requires m.status == Draft && m.hash == MissionHash(sha256, m.fields)
    ensures MissionsOk(sha256, Prepend(m, missions, MISSION_CAP), history[m.id := [Draft]])
    ensures ClaimsOk(claims, history[m.id := [Draft]])
  {
    hide Prepend, MissionHash;
  }

  lemma MoveKeeps(
      sha256: string -> string, missions: seq<Mission>, claims: seq<Claim>, history: map<string, seq<Status>>, k: nat,
      next: Mission)
    requires MissionsOk(sha256, missions, history) && HistoryOk(history) && ClaimsOk(claims, history) && k < |missions|
    requires next.id == missions[k].id && next.fields == missions[k].fields && next.hash == missions[k].hash
    requires next.status in Next(missions[k].status)
    ensures missions[k].id in history
    ensures var history' := history[next.id := history[next.id] + [next.status]];
            && MissionsOk(sha256, ReplaceWhere(missions, (m: Mission) => m.id == next.id, next), history')
            && HistoryOk(history') && ClaimsOk(claims, history')
  {
    hide MissionHash, Next;
  }

  lemma ClaimKeeps(claims: seq<Claim>, history: map<string, seq<Status>>, c: Claim)
    requires ClaimsOk(claims, history) && c.missionId in history
    ensures ClaimsOk(Prepend(c, claims, CLAIM_CAP), history)
  {
    hide Prepend;
  }

  /** Any session after such an attempt. */
  function AfterAttempt(
      s: Session, sha256: string -> string, now: int, sessionId: Option<string>, token: Option<string>): Session
  {
    if Named(s, sessionId, token) then AfterVerify(s, now, sha256(OptionalText(token, 240).value)) else s
  }

  function AfterAttempts(
      sessions: seq<Session>, sha256: string -> string, now: int, sessionId: Option<string>, token: Option<string>)
    : (r: seq<Session>)
    ensures |r| == |sessions|
    ensures forall i :: 0 <= i < |r| ==> r[i] == AfterAttempt(sessions[i], sha256, now, sessionId, token)
  {
    seq(|sessions|, i requires 0 <= i < |sessions| => AfterAttempt(sessions[i], sha256, now, sessionId, token))
  }

  lemma AttemptsMean(
      sessions: seq<Session>, sha256: string -> string, now: int, sessionId: Option<string>, token: Option<string>)
    ensures var after := AfterAttempts(sessions, sha256, now, sessionId, token);
            forall i :: 0 <= i < |sessions| ==> Attempted(sessions[i], after[i], sha256, now, sessionId, token)
  {
    hide Attempted, AfterAttempt;
    forall i | 0 <= i < |sessions|
      ensures Attempted(
                sessions[i], AfterAttempts(sessions, sha256, now, sessionId, token)[i], sha256, now, sessionId, token)
    {
      AttemptMeans(sessions[i], sha256, now, sessionId, token);
    }
  }

  lemma AttemptsNone(
      sessions: seq<Session>, sha256: string -> string, now: int, sessionId: Option<string>, token: Option<string>)
    requires forall i :: 0 <= i < |sessions| ==> !Named(sessions[i], sessionId, token)
    ensures AfterAttempts(sessions, sha256, now, sessionId, token) == sessions
  {
    hide Named, AfterVerify;
  }

  lemma AttemptsAt(
      sessions: seq<Session>, k: nat, sha256: string -> string, now: int, sessionId: Option<string>,
      token: Option<string>)
    requires k < |sessions| && Named(sessions[k], sessionId, token)
    requires forall i :: 0 <= i < |sessions| && sessions[i].id == sessions[k].id ==> i == k
    ensures var s, after := sessions[k], AfterAttempts(sessions, sha256, now, sessionId, token);
            if s.status != SessionPending then after == sessions
            else if s.expiresAt <= now then after == sessions[k := s.(status := SessionExpired)]
            else if Presents(s, sha256, token)
            then after == sessions[k := s.(status := SessionVerified, verifiedAt := Some(now))]
            else after == sessions
  {
    hide OptionalText;
    assert forall i :: 0 <= i < |sessions| && i != k ==> !Named(sessions[i], sessionId, token);
  }

  /** An attempt that names this session, with a token. */
  predicate Named(s: Session, sessionId: Option<string>, token: Option<string>) {
    Some(s.id) == OptionalText(sessionId, 120) && OptionalText(token, 240).Some?
  }

  /** The token is the session's own, as far as its hash tells. */
  predicate Presents(s: Session, sha256: string -> string, token: Option<string>) {
    OptionalText(token, 240).Some? && s.tokenHash == sha256(OptionalText(token, 240).value)
  }

  lemma PresentsMeans(s: Session, sha256: string -> string, token: Option<string>)
    requires OptionalText(token, 240).Some?
    ensures Presents(s, sha256, token) <==> s.tokenHash == sha256(OptionalText(token, 240).value)
  {
    hide OptionalText;
  }

  /**
   What an attempt may do to a session: verify it exactly when it is the named one, pending, in time and its token is
   presented; expire it exactly when it is the named one, pending and late; and nothing else.
   */
  ghost predicate Attempted(
      was: Session, next: Session, sha256: string -> string, now: int, sessionId: Option<string>, token: Option<string>)
  {
    && next == was.(status := next.status, verifiedAt := next.verifiedAt)
    && (next.status == SessionVerified <==>
        || was.status == SessionVerified
        || (Named(was, sessionId, token) && was.status == SessionPending && now < was.expiresAt
            && Presents(was, sha256, token)))
    && (next.status == SessionExpired <==>
        || was.status == SessionExpired
        || (Named(was, sessionId, token) && was.status == SessionPending && was.expiresAt <= now))
    && (next.status == was.status ==> next == was)
    && (next.status == SessionVerified && was.status != SessionVerified ==> next.verifiedAt == Some(now))
    && (next.status == SessionRevoked <==> was.status == SessionRevoked)
  }

  /**
   What an attempt is answered: yes exactly for a named session that was no longer pending, or was in time and its token
   presented; a wrong token exactly for one that was pending, in time and not presented; late exactly for a late one.
   */
  ghost predicate Answered(
      sessions: seq<Session>, result: Result<Session, Error>, sha256: string -> string, now: int,
      sessionId: Option<string>, token: Option<string>)
  {
    && (result.Ok? <==>
        exists i :: 0 <= i < |sessions| && Named(sessions[i], sessionId, token)
          && (sessions[i].status != SessionPending
              || (now < sessions[i].expiresAt && Presents(sessions[i], sha256, token))))
    && (result == Err(BadToken) <==>
        exists i :: 0 <= i < |sessions| && Named(sessions[i], sessionId, token)
          && sessions[i].status == SessionPending && now < sessions[i].expiresAt
          && !Presents(sessions[i], sha256, token))
    && (result == Err(SessionTimedOut) <==>
        exists i :: 0 <= i < |sessions| && Named(sessions[i], sessionId, token)
          && sessions[i].status == SessionPending && sessions[i].expiresAt <= now)
  }

  lemma AnsweredAt(
      sessions: seq<Session>, result: Result<Session, Error>, k: nat, sha256: string -> string, now: int,
      sessionId: Option<string>, token: Option<string>)
    requires k < |sessions| && Named(sessions[k], sessionId, token)
    requires forall i :: 0 <= i < |sessions| && sessions[i].id == sessions[k].id ==> i == k
    requires var s := sessions[k];
             if s.status != SessionPending then result.Ok?
             else if s.expiresAt <= now then result == Err(SessionTimedOut)
             else if Presents(s, sha256, token) then result.Ok? else result == Err(BadToken)
    ensures Answered(sessions, result, sha256, now, sessionId, token)
  {
    hide OptionalText;
    assert forall i :: 0 <= i < |sessions| && Named(sessions[i], sessionId, token) ==> i == k;
  }

  lemma NoneAnswered(
      sessions: seq<Session>, result: Result<Session, Error>, sha256: string -> string, now: int,
      sessionId: Option<string>, token: Option<string>)
    requires forall i :: 0 <= i < |sessions| ==> !Named(sessions[i], sessionId, token)
    requires result == Err(MissingField) || result == Err(NotFound)
    ensures Answered(sessions, result, sha256, now, sessionId, token)
  {
  }

  lemma AttemptMeans(s: Session, sha256: string -> string, now: int, sessionId: Option<string>, token: Option<string>)
    ensures Attempted(s, AfterAttempt(s, sha256, now, sessionId, token), sha256, now, sessionId, token)
  {
    hide OptionalText;
  }

  /** A session after a verification attempt with some token's hash. */
  function AfterVerify(s: Session, now: int, hash: string): Session {
    if s.status != SessionPending then s
    else if s.expiresAt <= now then s.(status := SessionExpired)
    else if s.tokenHash != hash then s
    else s.(status := SessionVerified, verifiedAt := Some(now))
  }

  function IdsOf(sessions: seq<Session>, status: SessionStatus): set<string> {
    set i | 0 <= i < |sessions| && sessions[i].status == status :: sessions[i].id
  }

  lemma VerifiedKnown(sessions: seq<Session>, emails: map<string, string>, verified: set<string>)
    requires SessionsOk(sessions, emails, verified)
    ensures IdsOf(sessions, SessionVerified) <= verified
    ensures verified + IdsOf(sessions, SessionVerified) == verified
  {
  }

  lemma NewlyVerified(sessions: seq<Session>, verified: set<string>, k: nat, next: Session)
    requires k < |sessions| && next.id == sessions[k].id && next.status == SessionVerified
    requires IdsOf(sessions, SessionVerified) <= verified
    ensures verified + IdsOf(sessions[k := next], SessionVerified) == verified + {next.id}
  {
    var after := sessions[k := next];
    assert after[k].id in IdsOf(after, SessionVerified);
    forall id | id in IdsOf(after, SessionVerified) ensures id in verified + {next.id} {
      var i :| 0 <= i < |after| && after[i].status == SessionVerified && after[i].id == id;
      assert i != k ==> sessions[i].id in IdsOf(sessions, SessionVerified);
    }
  }

  lemma VerifyKeeps(
      sessions: seq<Session>, emails: map<string, string>, verified: set<string>, k: nat, now: int, hash: string)
    requires SessionsOk(sessions, emails, verified) && k < |sessions|
    ensures var next := AfterVerify(sessions[k], now, hash);
            var after := ReplaceWhere(sessions, (s: Session) => s.id == sessions[k].id, next);
            && after == sessions[k := next]
            && SessionsOk(after, emails, if next.status == SessionVerified then verified + {next.id} else verified)
    ensures forall i :: 0 <= i < |sessions| && sessions[i].id == sessions[k].id ==> i == k
  {
  }

  lemma IssuedStays(
      sha256: string -> string, issued: map<string, Challenge>, emails: map<string, string>, verified: set<string>,
      emails': map<string, string>, verified': set<string>)
    requires IssuedOk(sha256, issued, emails, verified) && verified <= verified'
    requires forall id :: id in emails ==> id in emails' && emails'[id] == emails[id]
    ensures IssuedOk(sha256, issued, emails', verified')
  {
  }

  lemma IssueKeeps(
      sha256: string -> string, challenges: seq<Challenge>, bindings: seq<Binding>, issued: map<string, Challenge>,
      emails: map<string, string>, verified: set<string>, c: Challenge)
    requires IssuedOk(sha256, issued, emails, verified) && ChallengesOk(challenges, issued)
    requires BindingsOk(bindings, issued)
    requires c.id !in issued && c.sessionId in verified && c.sessionId in emails
    requires c.emailHash == sha256(emails[c.sessionId])
    ensures IssuedOk(sha256, issued[c.id := c], emails, verified)
    ensures ChallengesOk(Prepend(c, challenges, CHALLENGE_CAP), issued[c.id := c])
    ensures BindingsOk(bindings, issued[c.id := c])
  {
    hide Prepend, OneActiveEach;
  }

  // Runs a reader might not expect

  lemma PlainTexts()
    ensures OptionalText(Some("m"), 120) == Some("m") && OptionalText(Some("m"), 160) == Some("m")
    ensures OptionalText(Some("m"), 2000) == Some("m")
    ensures OptionalText(Some("mission_issued"), 80) == Some("mission_issued")
    ensures OptionalText(Some("agents_claimed"), 80) == Some("agents_claimed")
  {
    hide TrimBy;
  }

  lemma StatusTexts()
    ensures StatusOf(Some("mission_issued")) == Some(MissionIssued)
    ensures StatusOf(Some("agents_claimed")) == Some(AgentsClaimed)
  {
  }

  /** A mission counts as having its agents claimed without a single claim on record. */
  method ClaimedWithoutClaims(sha256: string -> string) returns (plane: ControlPlane)
    ensures fresh(plane) && plane.Valid()
    ensures |plane.missions| == 1 && plane.missions[0].status == AgentsClaimed && plane.agentClaims == []
  {
    hide OptionalText, StatusOf, MissionFieldsOf, MissionHash;
    PlainTexts();
    StatusTexts();
    plane := new ControlPlane(sha256);
    var created := plane.CreateMission(
      0, "m", "m", Some("m"), Some("m"), None, [], None, None, None, None, None, None);
    assert plane.missions[0].id == "m" && plane.missions[0].status == Draft;
    assert Movable(plane.missions[0], Some("m"), Some("mission_issued"));
    var issued := plane.TransitionMission(1, Some("m"), Some("mission_issued"));
    assert plane.missions[0].id == "m" && plane.missions[0].status == MissionIssued;
    assert Movable(plane.missions[0], Some("m"), Some("agents_claimed"));
    var claimed := plane.TransitionMission(2, Some("m"), Some("agents_claimed"));
  }
}
