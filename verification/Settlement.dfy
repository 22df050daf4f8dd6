/** Settling through an unreliable facilitator: retry the same payload, pay at most once. */
module Settlement {
  import opened Wrappers
  import opened Text
  import opened Lists
  import opened Values
  import Payload

  datatype Outcome = Settled(response: string) | Failed(message: string)

  /** The attempt budget: the setting rounded half up and clamped to 1..5, or 2 when it is not a number. */
  function MaxAttempts(setting: Option<real>): (n: nat)
    ensures 1 <= n <= 5
    ensures setting.None? ==> n == 2
    ensures setting.Some? && setting.value < 1.0 ==> n == 1
    ensures setting.Some? && setting.value > 5.0 ==> n == 5
    ensures setting.Some? && 1.0 <= setting.value <= 5.0 ==> n as real - 0.5 <= setting.value < n as real + 0.5
  {
    if setting.None? then 2
    else
      var rounded := (setting.value + 0.5).Floor;
      if rounded < 1 then 1 else if rounded > 5 then 5 else rounded
  }

  function LowerChar(c: char): char {
    if 'A' <= c <= 'Z' then (c as int + 32) as char else c
  }

  /** The twenty-six capital letters become their small ones, and everything else stays. */
  lemma LowerCharAlphabet(c: char, i: nat)
    requires i < 26
    ensures LowerChar("ABCDEFGHIJKLMNOPQRSTUVWXYZ"[i]) == "abcdefghijklmnopqrstuvwxyz"[i]
    ensures !('A' <= c <= 'Z') ==> LowerChar(c) == c
  {
  }

  function Lowered(text: string): (r: string)
    ensures |r| == |text| && forall i :: 0 <= i < |r| ==> r[i] == LowerChar(text[i])
  {
    seq(|text|, i requires 0 <= i < |text| => LowerChar(text[i]))
  }

  /** Case-insensitive occurrence of a lower-case ASCII phrase. */
  predicate Mentions(text: string, phrase: string) {
    Includes(Lowered(text), phrase)
  }

  const STATUS_CODES := ["429", "502", "503", "504"]

  const PHRASES := [
    "replacement transaction underpriced", "nonce too low", "nonce expired", "already known",
    "transaction underpriced", "temporarily unavailable", "timeout", "rate limit"]

  predicate Retryable(message: string) {
    || (exists k :: 0 <= k < |PHRASES| && Mentions(message, PHRASES[k]))
    || (exists k :: 0 <= k < |STATUS_CODES| && Mentions(message, STATUS_CODES[k]))
  }

  /** The four status codes and the eight phrases, one by one. */
  lemma RetryableIff(message: string)
    ensures Retryable(message) <==>
            || Mentions(message, "429") || Mentions(message, "502") || Mentions(message, "503")
            || Mentions(message, "504")
            || Mentions(message, "replacement transaction underpriced") || Mentions(message, "nonce too low")
            || Mentions(message, "nonce expired") || Mentions(message, "already known")
            || Mentions(message, "transaction underpriced") || Mentions(message, "temporarily unavailable")
            || Mentions(message, "timeout") || Mentions(message, "rate limit")
  {
    hide Mentions;
    assert |PHRASES| == 8 && |STATUS_CODES| == 4;
    assert Mentions(message, STATUS_CODES[0]) <==> Mentions(message, "429");
    assert Mentions(message, STATUS_CODES[1]) <==> Mentions(message, "502");
    assert Mentions(message, STATUS_CODES[2]) <==> Mentions(message, "503");
    assert Mentions(message, STATUS_CODES[3]) <==> Mentions(message, "504");
    assert Mentions(message, PHRASES[0]) <==> Mentions(message, "replacement transaction underpriced");
    assert Mentions(message, PHRASES[1]) <==> Mentions(message, "nonce too low");
    assert Mentions(message, PHRASES[2]) <==> Mentions(message, "nonce expired");
    assert Mentions(message, PHRASES[3]) <==> Mentions(message, "already known");
    assert Mentions(message, PHRASES[4]) <==> Mentions(message, "transaction underpriced");
    assert Mentions(message, PHRASES[5]) <==> Mentions(message, "temporarily unavailable");
    assert Mentions(message, PHRASES[6]) <==> Mentions(message, "timeout");
    assert Mentions(message, PHRASES[7]) <==> Mentions(message, "rate limit");
  }

  /**
   The environment: it moves money at most once per identifier, but may refuse, may answer with an error after
   moving money, and may handle a request long after the caller stopped waiting for it.
   */
  class Facilitator {
    var transfers: seq<string>
    var received: seq<Value>
    var wire: seq<Value>
    /** What the callers were told, in order. */
    var answers: seq<Outcome>

    ghost predicate Valid()
      reads this
    {
      && NoRepeats(transfers)
      && forall i :: 0 <= i < |wire| ==> Identifier(wire[i]).Some?
    }

    constructor ()
      ensures Valid() && transfers == [] && received == [] && wire == [] && answers == []
    {
      transfers, received, wire, answers := [], [], [], [];
    }

    /** Handle any request still on the wire: refuse it, recognise it, or pay it. */
    method Handle(i: nat, refuse: bool)
      requires Valid() && i < |wire|
      modifies `transfers, `wire
      ensures Valid() && wire == old(wire)[..i] + old(wire)[i + 1..]
      ensures var id := Identifier(old(wire)[i]).value;
              transfers == old(transfers) + if refuse || id in old(transfers) then [] else [id]
    {
      var id := Identifier(wire[i]).value;
      if !refuse && id !in transfers {
        transfers := transfers + [id];
      }
      wire := wire[..i] + wire[i + 1..];
    }

    /** Send a request; while the caller waits, any number of outstanding requests are handled; then any answer. */
    method Settle(payload: Value) returns (outcome: Outcome)
      requires Valid() && Identifier(payload).Some?
      modifies this
      ensures Valid() && received == old(received) + [payload] && answers == old(answers) + [outcome]
      ensures old(transfers) <= transfers
      ensures forall k :: |old(transfers)| <= k < |transfers| ==> PaidFor(transfers[k], old(wire) + [payload])
      ensures forall p :: p in wire ==> p in old(wire) || p == payload
    {
      hide Identifier, NoRepeats;
      received := received + [payload];
      wire := wire + [payload];
      ghost var sent := wire;
      while *
        invariant Valid() && received == old(received) + [payload] && answers == old(answers)
        invariant old(transfers) <= transfers
        invariant forall k :: |old(transfers)| <= k < |transfers| ==> PaidFor(transfers[k], sent)
        invariant forall p :: p in wire ==> p in sent
        decreases |wire|
      {
        if |wire| == 0 {
          break;
        }
        var i: nat :| i < |wire|;
        var refuse: bool := *;
        assert wire[i] in sent;
        Handle(i, refuse);
      }
      outcome := *;
      answers := answers + [outcome];
    }
  }

  ghost predicate PaidFor(id: string, requests: seq<Value>) {
    exists p :: p in requests && Identifier(p) == Some(id)
  }

  /** The attempts' outcomes a run may have: retryable failures, then a success or the failure that ended it. */
  ghost predicate LegalRun(outcomes: seq<Outcome>, maxAttempts: nat, result: Result<string, string>) {
    && 1 <= |outcomes| <= maxAttempts
    && (forall i :: 0 <= i < |outcomes| - 1 ==> outcomes[i].Failed? && Retryable(outcomes[i].message))
    && var last := outcomes[|outcomes| - 1];
       match result
       case Ok(response) => last == Settled(response)
       case Err(message) =>
         && last == Failed(message)
         && (|outcomes| == maxAttempts || !Retryable(message))
  }

  method SettleWithRetry(facilitator: Facilitator, payload: Value, setting: Option<real>)
    returns (result: Result<string, string>, ghost outcomes: seq<Outcome>)
    requires facilitator.Valid() && Identifier(payload).Some?
    modifies facilitator
    ensures facilitator.Valid()
    // the answers this run got, and what they make of its length and its result
    ensures facilitator.answers == old(facilitator.answers) + outcomes
    ensures LegalRun(outcomes, MaxAttempts(setting), result)
    ensures facilitator.received == old(facilitator.received) + seq(|outcomes|, _ => payload)
    // money moved during the run, or later for an abandoned attempt, is for this payment or for one already under way
    ensures old(facilitator.transfers) <= facilitator.transfers
    ensures forall k :: |old(facilitator.transfers)| <= k < |facilitator.transfers| ==>
              PaidFor(facilitator.transfers[k], old(facilitator.wire) + [payload])
    ensures forall p :: p in facilitator.wire ==> p in old(facilitator.wire) || p == payload
    // so with nothing else under way this call costs the buyer one transfer at most, and none if already paid
    ensures old(facilitator.wire) == [] ==>
              && |facilitator.transfers| <= |old(facilitator.transfers)| + 1
              && (Identifier(payload).value in old(facilitator.transfers) ==>
                    facilitator.transfers == old(facilitator.transfers))
              && forall p :: p in facilitator.wire ==> p == payload
  {
    hide Identifier, Retryable;
    var maxAttempts := MaxAttempts(setting);
    ghost var paid, waiting := facilitator.transfers, facilitator.wire;
    outcomes := [];
    var lastError := "";
    var attempt := 1;
    while attempt <= maxAttempts
      invariant facilitator.Valid() && 1 <= attempt <= maxAttempts && |outcomes| == attempt - 1
      invariant forall i :: 0 <= i < |outcomes| ==> outcomes[i].Failed? && Retryable(outcomes[i].message)
      invariant facilitator.answers == old(facilitator.answers) + outcomes
      invariant facilitator.received == old(facilitator.received) + seq(|outcomes|, _ => payload)
      invariant paid <= facilitator.transfers
      invariant forall k :: |paid| <= k < |facilitator.transfers| ==>
                  PaidFor(facilitator.transfers[k], waiting + [payload])
      invariant forall p :: p in facilitator.wire ==> p in waiting || p == payload
      decreases maxAttempts - attempt
    {
      ghost var before, onWire := facilitator.transfers, facilitator.wire;
      var outcome := facilitator.Settle(payload);
      outcomes := outcomes + [outcome];
      forall k | |paid| <= k < |facilitator.transfers| ensures PaidFor(facilitator.transfers[k], waiting + [payload]) {
        if k >= |before| {
          var p :| p in onWire + [payload] && Identifier(p) == Some(facilitator.transfers[k]);
          assert p in waiting + [payload];
        } else {
          assert facilitator.transfers[k] == before[k];
        }
      }
      if outcome.Settled? {
        AtMostOne(paid, facilitator.transfers, waiting, payload);
        return Ok(outcome.response), outcomes;
      }
      lastError := outcome.message;
      if attempt >= maxAttempts || !Retryable(outcome.message) {
        break;
      }
      attempt := attempt + 1;
    }
    AtMostOne(paid, facilitator.transfers, waiting, payload);
    result := Err(lastError);
  }

  /** Distinct transfers that all carry one identifier are at most one. */
  lemma AtMostOne(before: seq<string>, after: seq<string>, waiting: seq<Value>, payload: Value)
    requires before <= after && NoRepeats(after) && Identifier(payload).Some?
    requires forall k :: |before| <= k < |after| ==> PaidFor(after[k], waiting + [payload])
    ensures waiting == [] ==> |after| <= |before| + 1 && (Identifier(payload).value in before ==> after == before)
  {
    hide Identifier, NoRepeats;
    if waiting == [] {
      var id, n := Identifier(payload).value, |before|;
      assert forall k :: n <= k < |after| ==> after[k] == id;
      if n + 1 < |after| {
        OnePlace(after, n, n + 1);
      }
      if id in before {
        var j :| 0 <= j < n && before[j] == id;
        if n < |after| {
          OnePlace(after, j, n);
        }
        assert before == after[..n];
      }
    }
  }

  /** The whole story of one payment: the caller gives up or succeeds, then everything it abandoned is handled. */
  method SettleToQuiet(facilitator: Facilitator, payload: Value, setting: Option<real>)
    returns (result: Result<string, string>)
    requires facilitator.Valid() && Identifier(payload).Some? && facilitator.wire == []
    modifies facilitator
    ensures facilitator.Valid() && facilitator.wire == []
    ensures old(facilitator.answers) <= facilitator.answers
    ensures LegalRun(facilitator.answers[|old(facilitator.answers)|..], MaxAttempts(setting), result)
    ensures facilitator.received == old(facilitator.received) +
              seq(|facilitator.answers| - |old(facilitator.answers)|, _ => payload)
    ensures old(facilitator.transfers) <= facilitator.transfers
    ensures |facilitator.transfers| <= |old(facilitator.transfers)| + 1
    ensures Identifier(payload).value in old(facilitator.transfers) ==>
            facilitator.transfers == old(facilitator.transfers)
  {
    hide Retryable, Identifier;
    ghost var outcomes;
    ghost var paid := facilitator.transfers;
    result, outcomes := SettleWithRetry(facilitator, payload, setting);
    ghost var told, sent := facilitator.answers, facilitator.received;
    assert told[|old(facilitator.answers)|..] == outcomes;
    assert forall i :: 0 <= i < |facilitator.wire| ==> facilitator.wire[i] in facilitator.wire;
    while |facilitator.wire| > 0
      invariant facilitator.Valid() && paid <= facilitator.transfers
      invariant facilitator.answers == told && facilitator.received == sent
      invariant forall k :: |paid| <= k < |facilitator.transfers| ==> PaidFor(facilitator.transfers[k], [] + [payload])
      invariant forall i :: 0 <= i < |facilitator.wire| ==> facilitator.wire[i] == payload
      decreases |facilitator.wire|
    {
      var refuse: bool := *;
      assert facilitator.wire[0] == payload && payload in [] + [payload];
      facilitator.Handle(0, refuse);
    }
    AtMostOne(paid, facilitator.transfers, [], payload);
  }

  datatype PaymentError = Shape(error: Payload.ShapeError) | Remote(message: string)

  function RunResult(result: Result<string, PaymentError>): Result<string, string>
    requires result.Err? ==> result.error.Remote?
  {
    if result.Ok? then Ok(result.value) else Err(result.error.message)
  }

  /**
   Settling on a hosted rail: the payload that was checked is the payload that is sent, and nothing is sent unless it
   passed.
   */
  method SettlePayment(
      facilitator: Facilitator, lower: Payload.Lower, payload: Value, required: Value, setting: Option<real>)
    returns (result: Result<string, PaymentError>)
    requires facilitator.Valid() && facilitator.wire == []
    modifies facilitator
    ensures facilitator.Valid()
    ensures result.Err? && result.error.Shape? <==> !Payload.Accepts(lower, payload, true, required)
    ensures !Payload.Accepts(lower, payload, true, required) ==>
              && facilitator.received == old(facilitator.received) && facilitator.answers == old(facilitator.answers)
              && facilitator.transfers == old(facilitator.transfers) && facilitator.wire == []
    ensures Payload.Accepts(lower, payload, true, required) ==>
              && Identifier(payload).Some? && old(facilitator.answers) <= facilitator.answers
              && LegalRun(facilitator.answers[|old(facilitator.answers)|..], MaxAttempts(setting), RunResult(result))
              && facilitator.received == old(facilitator.received) +
                   seq(|facilitator.answers| - |old(facilitator.answers)|, _ => payload)
              && |facilitator.transfers| <= |old(facilitator.transfers)| + 1
              && (Identifier(payload).value in old(facilitator.transfers) ==>
                    facilitator.transfers == old(facilitator.transfers))
              && forall p :: p in facilitator.wire ==> p == payload
  {
    hide Payload.AcceptedOn, LegalRun, Identifier;
    var shape := Payload.AssertHostedFacilitatorPayloadShape(lower, payload, true, required);
    if shape.Err? {
      return Err(Shape(shape.error));
    }
    ghost var outcomes;
    ghost var answered := facilitator.answers;
    var settled;
    settled, outcomes := SettleWithRetry(facilitator, payload, setting);
    assert facilitator.answers[|answered|..] == outcomes;
    result := if settled.Ok? then Ok(settled.value) else Err(Remote(settled.error));
  }
}
