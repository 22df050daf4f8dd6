/** The message of the client's own timer, and when the retry loop takes it for a passing failure. */
module LocalTimer {
  import opened Wrappers
  import opened Text
  import opened Decimal
  import opened Settlement

  const FACILITATOR := "Facilitator "
  const SETTLEMENT := "settlement "
  const ATTEMPT_TIMED := "attempt timed "
  const OUT_AFTER := "out after "

  function TimedOut(): string {
    FACILITATOR + SETTLEMENT + ATTEMPT_TIMED + OUT_AFTER
  }

  function TimeoutMessage(ms: nat): string {
    TimedOut() + NatText(ms) + "ms."
  }

  // The fixed words

  /** Spaces and letters other than those that tell a retryable phrase: no digit, no k, v, w, x or y. */
  predicate Plain(c: char) {
    c == ' ' || ('a' <= c <= 'u' && c != 'k')
  }

  /** Not one of the three pairs of letters that tell the other retryable phrases. */
  predicate PlainPair(c: char, d: char) {
    !(c == 't' && d == 'r') && !(c == 'r' && d == 'a') && !(c == 'e' && d == 'o')
  }

  predicate PlainText(s: string) {
    && (forall k :: 0 <= k < |s| ==> Plain(LowerChar(s[k])))
    && (forall k :: 0 <= k < |s| - 1 ==> PlainPair(LowerChar(s[k]), LowerChar(s[k + 1])))
  }

  lemma FacilitatorLetters(s: string)
    requires |s| == 12 && s[0] == 'F' && s[1] == 'a' && s[2] == 'c' && s[3] == 'i' && s[4] == 'l' && s[5] == 'i'
             && s[6] == 't' && s[7] == 'a' && s[8] == 't' && s[9] == 'o' && s[10] == 'r' && s[11] == ' '
    ensures PlainText(s) && s[|s| - 1] == ' '
  {
  }

  lemma SettlementLetters(s: string)
    requires |s| == 11 && s[0] == 's' && s[1] == 'e' && s[2] == 't' && s[3] == 't' && s[4] == 'l' && s[5] == 'e'
             && s[6] == 'm' && s[7] == 'e' && s[8] == 'n' && s[9] == 't' && s[10] == ' '
    ensures PlainText(s) && s[|s| - 1] == ' '
  {
  }

  lemma AttemptTimedLetters(s: string)
    requires |s| == 14 && s[0] == 'a' && s[1] == 't' && s[2] == 't' && s[3] == 'e' && s[4] == 'm' && s[5] == 'p'
             && s[6] == 't' && s[7] == ' ' && s[8] == 't' && s[9] == 'i' && s[10] == 'm' && s[11] == 'e'
             && s[12] == 'd' && s[13] == ' '
    ensures PlainText(s) && s[|s| - 1] == ' '
  {
  }

  lemma OutAfterLetters(s: string)
    requires |s| == 10 && s[0] == 'o' && s[1] == 'u' && s[2] == 't' && s[3] == ' ' && s[4] == 'a' && s[5] == 'f'
             && s[6] == 't' && s[7] == 'e' && s[8] == 'r' && s[9] == ' '
    ensures PlainText(s) && s[|s| - 1] == ' '
  {
  }

  lemma PlainJoin(a: string, b: string)
    requires PlainText(a) && PlainText(b) && a != [] && a[|a| - 1] == ' '
    ensures PlainText(a + b)
    ensures b != [] ==> (a + b)[|a + b| - 1] == b[|b| - 1]
  {
    var s := a + b;
    forall k | 0 <= k < |s| - 1 ensures PlainPair(LowerChar(s[k]), LowerChar(s[k + 1])) {
      if k == |a| - 1 {
        assert LowerChar(s[k]) == ' ';
      } else if k >= |a| {
        assert s[k] == b[k - |a|] && s[k + 1] == b[k - |a| + 1];
      }
    }
  }

  lemma FacilitatorPlain()
    ensures PlainText(FACILITATOR) && FACILITATOR != [] && FACILITATOR[|FACILITATOR| - 1] == ' '
  {
    FacilitatorLetters(FACILITATOR);
  }

  lemma SettlementPlain()
    ensures PlainText(SETTLEMENT) && SETTLEMENT != [] && SETTLEMENT[|SETTLEMENT| - 1] == ' '
  {
    SettlementLetters(SETTLEMENT);
  }

  lemma AttemptTimedPlain()
    ensures PlainText(ATTEMPT_TIMED) && ATTEMPT_TIMED != [] && ATTEMPT_TIMED[|ATTEMPT_TIMED| - 1] == ' '
  {
    AttemptTimedLetters(ATTEMPT_TIMED);
  }

  lemma OutAfterPlain()
    ensures PlainText(OUT_AFTER) && OUT_AFTER != [] && OUT_AFTER[|OUT_AFTER| - 1] == ' '
  {
    OutAfterLetters(OUT_AFTER);
  }

  lemma TimedOutPlain()
    ensures PlainText(TimedOut()) && TimedOut() != [] && TimedOut()[|TimedOut()| - 1] == ' '
  {
    hide FACILITATOR, SETTLEMENT, ATTEMPT_TIMED, OUT_AFTER, PlainText;
    FacilitatorPlain();
    SettlementPlain();
    AttemptTimedPlain();
    OutAfterPlain();
    PlainJoin(FACILITATOR, SETTLEMENT);
    PlainJoin(FACILITATOR + SETTLEMENT, ATTEMPT_TIMED);
    PlainJoin(FACILITATOR + SETTLEMENT + ATTEMPT_TIMED, OUT_AFTER);
  }

  // The whole message

  /** In the message, digits are the timeout's, and nothing tells a retryable phrase. */
  lemma MessageLetters(ms: nat, k: nat)
    requires k < |TimeoutMessage(ms)|
    ensures var m, n, d := Lowered(TimeoutMessage(ms)), |TimedOut()|, NatText(ms);
            && (Plain(m[k]) || IsDigit(m[k]) || m[k] == '.')
            && (IsDigit(m[k]) <==> n <= k < n + |d|)
            && (n <= k < n + |d| ==> m[k] == d[k - n])
            && (k + 1 < |m| ==> PlainPair(m[k], m[k + 1]))
  {
    hide TimedOut, NatText;
    TimedOutPlain();
    var t, n, d := TimeoutMessage(ms), |TimedOut()|, NatText(ms);
    assert t == TimedOut() + d + "ms.";
    if k < n {
      assert t[k] == TimedOut()[k] && (k + 1 < n ==> t[k + 1] == TimedOut()[k + 1]);
    } else if k < n + |d| {
      assert t[k] == d[k - n] && IsDigit(d[k - n]);
    } else {
      assert t[k] == "ms."[k - n - |d|];
    }
  }

  lemma OccursLetters(m: string, phrase: string, i: nat, j: nat)
    requires j < |phrase|
    ensures OccursAt(m, phrase, i) ==> i + j < |m| && m[i + j] == phrase[j]
    ensures OccursAt(m, phrase, i) && j + 1 < |phrase| ==> i + j + 1 < |m| && m[i + j + 1] == phrase[j + 1]
  {
    if OccursAt(m, phrase, i) {
      var part := m[i..i + |phrase|];
      assert part[j] == m[i + j] && (j + 1 < |phrase| ==> part[j + 1] == m[i + j + 1]);
    }
  }

  /** Whether the phrase has, at `j`, a letter or a pair of letters that the message lacks. */
  predicate Telling(phrase: string, j: nat) {
    && j < |phrase|
    && ('v' <= phrase[j] <= 'z' || phrase[j] == 'k' || (j + 1 < |phrase| && !PlainPair(phrase[j], phrase[j + 1])))
  }

  lemma TellingAbsent(ms: nat, phrase: string, j: nat)
    requires Telling(phrase, j)
    ensures !Mentions(TimeoutMessage(ms), phrase)
  {
    hide TimeoutMessage, TimedOut, NatText;
    var m := Lowered(TimeoutMessage(ms));
    forall i | 0 <= i <= |m| ensures !OccursAt(m, phrase, i) {
      OccursLetters(m, phrase, i, j);
      if i + j < |m| {
        MessageLetters(ms, i + j);
      }
    }
  }

  lemma TellingPhrases()
    ensures |PHRASES| == 8
    ensures Telling(PHRASES[0], 12) && Telling(PHRASES[1], 12) && Telling(PHRASES[2], 7) && Telling(PHRASES[3], 8)
    ensures Telling(PHRASES[4], 0) && Telling(PHRASES[5], 15) && Telling(PHRASES[6], 3) && Telling(PHRASES[7], 0)
  {
  }

  lemma NoPhrase(ms: nat, k: nat)
    requires k < |PHRASES|
    ensures !Mentions(TimeoutMessage(ms), PHRASES[k])
  {
    hide Telling, PHRASES, Mentions, TimeoutMessage;
    TellingPhrases();
    TellingAbsent(ms, PHRASES[k], [12, 12, 7, 8, 0, 15, 3, 0][k]);
  }

  /** A status code occurs in the message exactly where it occurs in the timeout. */
  lemma CodeOccurs(ms: nat, code: string)
    requires code != [] && AllDigits(code)
    ensures Mentions(TimeoutMessage(ms), code) <==> Includes(NatText(ms), code)
  {
    hide TimedOut, NatText, TimeoutMessage, AllDigits;
    var m, n, d := Lowered(TimeoutMessage(ms)), |TimedOut()|, NatText(ms);
    MessageLength(ms);
    forall k | 0 <= k < |m| ensures (IsDigit(m[k]) <==> n <= k < n + |d|) && (n <= k < n + |d| ==> m[k] == d[k - n]) {
      MessageLetters(ms, k);
    }
    CodeShift(m, n, d, code);
  }

  lemma MessageLength(ms: nat)
    ensures |TimeoutMessage(ms)| == |TimedOut()| + |NatText(ms)| + 3
  {
    hide TimedOut, NatText;
  }

  lemma CodeShift(m: string, n: nat, d: string, code: string)
    requires n + |d| <= |m| && code != [] && AllDigits(code)
    requires forall k :: 0 <= k < |m| ==>
               (IsDigit(m[k]) <==> n <= k < n + |d|) && (n <= k < n + |d| ==> m[k] == d[k - n])
    ensures Includes(m, code) <==> Includes(d, code)
  {
    if Includes(m, code) {
      var i :| 0 <= i <= |m| && OccursAt(m, code, i);
      assert m[i..i + |code|][0] == m[i] && m[i..i + |code|][|code| - 1] == m[i + |code| - 1];
      assert n <= i && i + |code| <= n + |d|;
      assert d[i - n..i - n + |code|] == m[i..i + |code|];
      assert OccursAt(d, code, i - n);
    }
    if Includes(d, code) {
      var i :| 0 <= i <= |d| && OccursAt(d, code, i);
      assert m[i + n..i + n + |code|] == d[i..i + |code|];
      assert OccursAt(m, code, i + n);
    }
  }

  lemma CodesAreDigits(k: nat)
    requires k < |STATUS_CODES|
    ensures STATUS_CODES[k] != [] && AllDigits(STATUS_CODES[k])
  {
  }

  /** The timer's message is retryable exactly when the decimal text of the timeout contains one of the status codes. */
  lemma TimeoutRetryable(ms: nat)
    ensures Retryable(TimeoutMessage(ms)) <==>
            exists k :: 0 <= k < |STATUS_CODES| && Includes(NatText(ms), STATUS_CODES[k])
  {
    hide PHRASES, STATUS_CODES, Mentions, TimeoutMessage, NatText, AllDigits, Includes;
    forall k | 0 <= k < |PHRASES| ensures !Mentions(TimeoutMessage(ms), PHRASES[k]) {
      NoPhrase(ms, k);
    }
    forall k | 0 <= k < |STATUS_CODES|
      ensures Mentions(TimeoutMessage(ms), STATUS_CODES[k]) <==> Includes(NatText(ms), STATUS_CODES[k])
    {
      CodesAreDigits(k);
      CodeOccurs(ms, STATUS_CODES[k]);
    }
  }

  lemma ThirtySeconds()
    ensures NatText(30_000) == "30000"
  {
    assert NatText(3) == "3" && NatText(30) == "30" && NatText(300) == "300" && NatText(3_000) == "3000";
  }

  lemma FiftySeconds()
    ensures NatText(50_200) == "50200" && OccursAt("50200", "502", 0)
  {
    assert NatText(5) == "5" && NatText(50) == "50" && NatText(502) == "502" && NatText(5_020) == "5020";
  }

  lemma CodesStartHigh(k: nat)
    requires k < |STATUS_CODES|
    ensures STATUS_CODES[k] != [] && (STATUS_CODES[k][0] == '4' || STATUS_CODES[k][0] == '5')
    ensures k == 1 ==> STATUS_CODES[k] == "502"
  {
  }

  lemma CodeCount()
    ensures |STATUS_CODES| == 4
  {
  }

  lemma NoHighDigit(i: nat)
    requires i < 5
    ensures "30000"[i] != '4' && "30000"[i] != '5'
  {
  }

  /** With the default of thirty seconds the timer ends the run; with 50.2 seconds it does not. */
  lemma DefaultTimeout()
    ensures !Retryable(TimeoutMessage(30_000)) && Retryable(TimeoutMessage(50_200))
  {
    hide Retryable, TimeoutMessage, NatText, OccursAt, STATUS_CODES;
    TimeoutRetryable(30_000);
    TimeoutRetryable(50_200);
    ThirtySeconds();
    FiftySeconds();
    forall k | 0 <= k < |STATUS_CODES| ensures !Includes("30000", STATUS_CODES[k]) {
      CodesStartHigh(k);
      forall i | 0 <= i <= 5 ensures !OccursAt("30000", STATUS_CODES[k], i) {
        OccursLetters("30000", STATUS_CODES[k], i, 0);
        if i < 5 {
          NoHighDigit(i);
        }
      }
    }
    CodeCount();
    CodesStartHigh(1);
    assert Includes("50200", STATUS_CODES[1]);
  }

  /** A run that meets a timer whose message is not retryable ends there, with that message. */
  lemma TimeoutEndsRun(outcomes: seq<Outcome>, maxAttempts: nat, result: Result<string, string>, i: nat, ms: nat)
    requires LegalRun(outcomes, maxAttempts, result) && i < |outcomes| && outcomes[i] == Failed(TimeoutMessage(ms))
    ensures !Retryable(TimeoutMessage(ms)) ==> i == |outcomes| - 1 && result == Err(TimeoutMessage(ms))
  {
    hide Retryable, TimeoutMessage;
  }
}
