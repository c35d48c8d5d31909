/**
 * One recipient's send: rich message, then HTML, then plain text, with at most three attempts
 * (bot/alerts.py `_send_alert_to_recipient_once` and `_send_alert_to_recipient_with_retry`).
 *
 * The transport is an adversary: every request is answered by an arbitrary value.
 * `Begin`, `Answered` and `Awake` are the control flow as a transition system, which the
 * delivery protocol reuses step by step; class `Bot` is the imperative form.
 */
module Telegram {
  import opened Prelude

  const MAX_ATTEMPTS: nat := 3
  const MAX_TEXT: nat := 4096

  datatype Channel = Rich | Html | Plain

  datatype ErrorKind = BadRequest | Forbidden | RetryAfter(seconds: int) | TimedOut | Network | RichUncertain | Other

  /** An exception: its class, and whether its text names a blocked chat or a transient fault. */
  datatype Failure = Failure(kind: ErrorKind, saysBlocked: bool, saysTransient: bool)

  datatype Answer = Acknowledged | Refused(failure: Failure)

  datatype Exchange = Exchange(channel: Channel, answer: Answer)

  datatype Payload = Payload(richHtml: bool, botToken: bool, htmlText: bool, plainLength: nat)

  datatype Cause = NoError | TooLong | Raised(failure: Failure)

  datatype SendState =
    | Calling(attempt: nat, channel: Channel)
    | Sleeping(attempt: nat, seconds: int)
    | Finished(sent: bool, attempt: nat, cause: Cause)

  predicate Permanent(f: Failure) {
    f.kind == BadRequest || f.kind == Forbidden || f.kind == RichUncertain || f.saysBlocked
  }

  predicate Transient(f: Failure) {
    !Permanent(f) && (f.kind.RetryAfter? || f.kind == TimedOut || f.kind == Network || f.saysTransient)
  }

  /** Telegram's own delay when it gives one, else 30 seconds and then 120. */
  function Delay(f: Failure, attempt: nat): int {
    if f.kind.RetryAfter? then (if f.kind.seconds < 0 then 0 else f.kind.seconds)
    else if attempt <= 1 then 30 else 120
  }

  function LegacyChannel(p: Payload): Channel {
    if p.htmlText then Html else Plain
  }

  function Begin(p: Payload, attempt: nat): SendState {
    if p.plainLength > MAX_TEXT then Finished(false, attempt, TooLong)
    else if p.richHtml && p.botToken then Calling(attempt, Rich)
    else Calling(attempt, LegacyChannel(p))
  }

  /** An attempt ended with an exception: sleep before the next one, or give up. */
  function AttemptFailed(attempt: nat, f: Failure): SendState {
    if Transient(f) && attempt < MAX_ATTEMPTS then Sleeping(attempt, Delay(f, attempt))
    else Finished(false, attempt, Raised(f))
  }

  /** Does a failed request on `channel` lead to another request of the same attempt? */
  function Fallback(p: Payload, channel: Channel, f: Failure): Option<Channel> {
    match channel
    case Rich => if f.kind == BadRequest then Some(LegacyChannel(p)) else None
    case Html => if f.saysBlocked || (p.richHtml && f.kind != BadRequest) then None else Some(Plain)
    case Plain => None
  }

  function Answered(p: Payload, attempt: nat, channel: Channel, a: Answer): SendState {
    match a
    case Acknowledged => Finished(true, attempt, NoError)
    case Refused(f) =>
      match Fallback(p, channel, f)
      case Some(next) => Calling(attempt, next)
      case None => AttemptFailed(attempt, f)
  }

  function Awake(p: Payload, s: SendState): SendState {
    if s.Sleeping? then Begin(p, s.attempt + 1) else s
  }

  /** State reached from `s` after the requests and answers of `t`, if they can follow `s`. */
  function After(p: Payload, s: SendState, t: seq<Exchange>): Option<SendState>
    decreases |t|
  {
    if t == [] then Some(s)
    else
      var now := Awake(p, s);
      if now.Calling? && now.channel == t[0].channel
      then After(p, Answered(p, now.attempt, now.channel, t[0].answer), t[1..])
      else None
  }

  /** The pauses the run takes between attempts. */
  function Pauses(p: Payload, s: SendState, t: seq<Exchange>): seq<int>
    decreases |t|
  {
    var now := Awake(p, s);
    if t == [] || !now.Calling? then []
    else
      var next := Answered(p, now.attempt, now.channel, t[0].answer);
      (if next.Sleeping? then [next.seconds] else []) + Pauses(p, next, t[1..])
  }

  function Acks(t: seq<Exchange>): nat {
    if t == [] then 0 else (if t[0].answer.Acknowledged? then 1 else 0) + Acks(t[1..])
  }

  predicate UncertainRich(e: Exchange) {
    e.channel == Rich && e.answer.Refused? && e.answer.failure.kind == RichUncertain
  }

  lemma {:induction false} AfterAppend(p: Payload, s: SendState, t: seq<Exchange>, u: seq<Exchange>)
    requires After(p, s, t).Some?
    ensures After(p, s, t + u) == After(p, After(p, s, t).value, u)
    ensures Pauses(p, s, t + u) == Pauses(p, s, t) + Pauses(p, After(p, s, t).value, u)
    decreases |t|
  {
    hide Answered, Awake;
    if t == [] {
      assert t + u == u;
    } else {
      assert (t + u)[1..] == t[1..] + u;
      var now := Awake(p, s);
      var next := Answered(p, now.attempt, now.channel, t[0].answer);
      AfterAppend(p, next, t[1..], u);
      assert After(p, s, t + u) == After(p, next, t[1..] + u);
    }
  }

  /** Requests an attempt can still make, counted over the attempts left. */
  function Budget(s: SendState): int {
    match s
    case Calling(n, ch) => 3 * (MAX_ATTEMPTS - n) + (match ch case Rich => 3 case Html => 2 case Plain => 1)
    case Sleeping(n, _) => 3 * (MAX_ATTEMPTS - n)
    case Finished(_, _, _) => 0
  }

  predicate Sane(s: SendState) {
    1 <= s.attempt <= MAX_ATTEMPTS && (s.Sleeping? ==> s.attempt < MAX_ATTEMPTS)
  }

  /** Whatever is answered: an acknowledgement is the last request of a run and makes it succeed,
      a failed run has none, and no request follows an uncertain rich send. */
  lemma {:induction false} RunGuarantees(p: Payload, s: SendState, t: seq<Exchange>)
    requires Sane(s) && !s.Finished? && After(p, s, t).Some?
    ensures var r := After(p, s, t).value;
            && Sane(r) && |t| <= Budget(s) - Budget(r)
            && (r.Finished? && r.sent <==> Acks(t) == 1)
            && (Acks(t) == 1 ==> |t| > 0 && t[|t| - 1].answer.Acknowledged?)
            && (Acks(t) == 0 <==> !(r.Finished? && r.sent))
            && (r.Finished? && !r.sent && r.cause != TooLong ==>
                  r.cause.Raised? && (!Transient(r.cause.failure) || r.attempt == MAX_ATTEMPTS))
            && forall k :: 0 <= k < |t| && UncertainRich(t[k]) ==> k == |t| - 1 && r.Finished? && !r.sent
    decreases |t|
  {
    if t != [] {
      var now := Awake(p, s);
      var next := Answered(p, now.attempt, now.channel, t[0].answer);
      assert After(p, s, t) == After(p, next, t[1..]);
      if next.Finished? {
        assert t[1..] == [];
      } else {
        RunGuarantees(p, next, t[1..]);
        assert forall k :: 1 <= k < |t| ==> t[k] == t[1..][k - 1];
      }
    }
  }

  /** The whole send, from the first attempt. */
  lemma SendGuarantees(p: Payload, t: seq<Exchange>, sent: bool, attempt: nat, cause: Cause)
    requires After(p, Begin(p, 1), t) == Some(Finished(sent, attempt, cause))
    ensures sent <==> Acks(t) == 1
    ensures sent ==> |t| > 0 && t[|t| - 1].answer.Acknowledged?
    ensures !sent <==> Acks(t) == 0
    ensures 1 <= attempt <= 3 && |t| <= 9
    ensures !sent && cause.Raised? ==> !Transient(cause.failure) || attempt == 3
    ensures cause == TooLong <==> p.plainLength > 4096
    ensures cause == TooLong ==> t == []
    ensures forall k :: 0 <= k < |t| && UncertainRich(t[k]) ==> k == |t| - 1 && !sent
  {
    if p.plainLength > MAX_TEXT {
      assert t == [];
    } else {
      RunGuarantees(p, Begin(p, 1), t);
      NeverTooLong(p, Begin(p, 1), t);
    }
  }

  lemma {:induction false} NeverTooLong(p: Payload, s: SendState, t: seq<Exchange>)
    requires p.plainLength <= MAX_TEXT && After(p, s, t).Some?
    requires s.Finished? ==> s.cause != TooLong
    ensures var r := After(p, s, t).value; r.Finished? ==> r.cause != TooLong
    decreases |t|
  {
    if t != [] {
      var now := Awake(p, s);
      NeverTooLong(p, Answered(p, now.attempt, now.channel, t[0].answer), t[1..]);
    }
  }

  // ---- what follows what, over the exchanges alone -------------------------------------------

  /** Rich text needs a token; without it HTML is tried if there is any. */
  function FirstChannel(p: Payload): Channel {
    if p.richHtml && p.botToken then Rich else if p.htmlText then Html else Plain
  }

  /** A refusal after which the same attempt asks on `next`: a rich request that Telegram rejects, or an
      HTML request that names no blocked chat and, where there was rich text, was rejected too. */
  predicate GoesOn(p: Payload, e: Exchange, next: Channel) {
    && e.answer.Refused?
    && ((e.channel == Rich && e.answer.failure.kind == BadRequest && next == if p.htmlText then Html else Plain)
        || (e.channel == Html && next == Plain && !e.answer.failure.saysBlocked
            && (e.answer.failure.kind == BadRequest || !p.richHtml)))
  }

  /** A refusal with which its attempt ends. */
  predicate EndsAttempt(p: Payload, e: Exchange) {
    e.answer.Refused? && forall next :: !GoesOn(p, e, next)
  }

  /** Worth another attempt: an error that passes, and none that says the chat or the text is bad. */
  predicate WorthRetrying(f: Failure) {
    && (f.kind.RetryAfter? || f.kind == TimedOut || f.kind == Network || f.saysTransient)
    && f.kind !in {BadRequest, Forbidden, RichUncertain} && !f.saysBlocked
  }

  function AttemptsEnded(p: Payload, t: seq<Exchange>): nat {
    if t == [] then 0 else (if EndsAttempt(p, t[0]) then 1 else 0) + AttemptsEnded(p, t[1..])
  }

  /** What happens after exchange `k` when `n` attempts have ended before it. */
  predicate Followed(p: Payload, t: seq<Exchange>, k: nat, n: nat, sent: bool, attempt: nat, cause: Cause)
    requires k < |t|
  {
    var e := t[k];
    && (forall next :: GoesOn(p, e, next) ==> k + 1 < |t| && t[k + 1].channel == next)
    && (EndsAttempt(p, e) ==>
          if WorthRetrying(e.answer.failure) && n < 2 then k + 1 < |t| && t[k + 1].channel == FirstChannel(p)
          else k == |t| - 1 && !sent && attempt == n + 1 && cause == Raised(e.answer.failure))
    && (e.answer.Acknowledged? ==> k == |t| - 1 && sent)
  }

  /** The pause after the failed attempt number `n`, counted from 0: Telegram's own delay if it gives one,
      else 30 seconds and then two minutes. */
  function PauseOf(e: Exchange, n: nat): int
    requires e.answer.Refused?
  {
    match e.answer.failure.kind
    case RetryAfter(seconds) => if seconds >= 0 then seconds else 0
    case _ => if n == 0 then 30 else 120
  }

  /** One answer decides among going on, pausing and ending as the exchanges' own terms have it. */
  lemma FirstFollows(p: Payload, now: SendState, e: Exchange)
    requires now.Calling? && 1 <= now.attempt <= 3 && e.channel == now.channel && p.plainLength <= MAX_TEXT
    ensures var next := Answered(p, now.attempt, now.channel, e.answer);
            && (forall channel :: GoesOn(p, e, channel) <==> next == Calling(now.attempt, channel))
            && (next.Calling? ==> next.attempt == now.attempt)
            && (EndsAttempt(p, e) <==> next.Sleeping? || (next.Finished? && !next.sent))
            && (next.Sleeping? <==> EndsAttempt(p, e) && WorthRetrying(e.answer.failure) && now.attempt < 3)
            && (next.Sleeping? ==> next == Sleeping(now.attempt, PauseOf(e, now.attempt - 1)))
            && (next.Sleeping? ==> Awake(p, next) == Calling(now.attempt + 1, FirstChannel(p)))
            && (next.Finished? && !next.sent ==> next == Finished(false, now.attempt, Raised(e.answer.failure)))
            && (e.answer.Acknowledged? <==> next.Finished? && next.sent)
  {
    if e.answer.Refused? {
      var f := e.answer.failure;
      assert Fallback(p, e.channel, f).Some? ==> GoesOn(p, e, Fallback(p, e.channel, f).value);
    }
  }

  function EndedBefore(s: SendState): int {
    if s.Sleeping? then s.attempt else s.attempt - 1
  }

  /** A sequence of exchanges behind its first one. */
  lemma Behind(p: Payload, t: seq<Exchange>, k: nat)
    requires 1 <= k <= |t|
    ensures AttemptsEnded(p, t[..k]) == (if EndsAttempt(p, t[0]) then 1 else 0) + AttemptsEnded(p, t[1..][..k - 1])
  {
    assert t[..k][1..] == t[1..][..k - 1];
  }

  lemma FollowedBehind(p: Payload, t: seq<Exchange>, k: nat, n: nat, sent: bool, attempt: nat, cause: Cause)
    requires 1 <= k < |t| && Followed(p, t[1..], k - 1, n, sent, attempt, cause)
    ensures Followed(p, t, k, n, sent, attempt, cause)
  {
    hide GoesOn, EndsAttempt, WorthRetrying;
  }

  lemma FollowedFirst(p: Payload, now: SendState, t: seq<Exchange>, sent: bool, attempt: nat, cause: Cause)
    requires now.Calling? && 1 <= now.attempt <= 3 && t != [] && t[0].channel == now.channel
        && p.plainLength <= MAX_TEXT
    requires var next := Answered(p, now.attempt, now.channel, t[0].answer);
             if next.Finished? then |t| == 1 && next == Finished(sent, attempt, cause)
             else |t| > 1 && t[1].channel == if next.Calling? then next.channel else FirstChannel(p)
    ensures Followed(p, t, 0, now.attempt - 1, sent, attempt, cause)
  {
    FirstFollows(p, now, t[0]);
    hide GoesOn, EndsAttempt, WorthRetrying, Answered, Awake;
  }

  lemma {:induction false} RunFollows(p: Payload, s: SendState, t: seq<Exchange>, sent: bool, attempt: nat,
      cause: Cause)
    requires Sane(s) && !s.Finished? && p.plainLength <= MAX_TEXT
    requires After(p, s, t) == Some(Finished(sent, attempt, cause))
    ensures t != [] && t[0].channel == if s.Calling? then s.channel else FirstChannel(p)
    ensures forall k :: 0 <= k < |t| ==>
              Followed(p, t, k, EndedBefore(s) + AttemptsEnded(p, t[..k]), sent, attempt, cause)
    decreases |t|
  {
    var now := Awake(p, s);
    var next := Answered(p, now.attempt, now.channel, t[0].answer);
    assert After(p, s, t) == After(p, next, t[1..]);
    if next.Finished? {
      assert t[1..] == [];
    } else {
      RunFollows(p, next, t[1..], sent, attempt, cause);
    }
    FirstFollows(p, now, t[0]);
    FollowedFirst(p, now, t, sent, attempt, cause);
    hide GoesOn, EndsAttempt, WorthRetrying, Answered, Followed, After;
    forall k | 0 <= k < |t|
      ensures Followed(p, t, k, EndedBefore(s) + AttemptsEnded(p, t[..k]), sent, attempt, cause)
    {
      if k > 0 {
        Behind(p, t, k);
        FollowedBehind(p, t, k, EndedBefore(next) + AttemptsEnded(p, t[1..][..k - 1]), sent, attempt, cause);
      }
    }
  }

  /** The pauses of a run, one exchange on. */
  lemma PausesStep(p: Payload, s: SendState, t: seq<Exchange>)
    requires Sane(s) && !s.Finished? && p.plainLength <= MAX_TEXT && t != [] && After(p, s, t).Some?
    ensures var now := Awake(p, s); var next := Answered(p, now.attempt, now.channel, t[0].answer);
            && now.Calling? && 1 <= now.attempt <= 3 && now.attempt == EndedBefore(s) + 1 && now.channel == t[0].channel
            && After(p, s, t) == After(p, next, t[1..])
            && Pauses(p, s, t) == (if next.Sleeping? then [next.seconds] else []) + Pauses(p, next, t[1..])
            && (next.Finished? ==> t[1..] == [] && Pauses(p, s, t) == [])
  {
  }

  lemma {:induction false} PauseCount(p: Payload, s: SendState, t: seq<Exchange>, sent: bool, attempt: nat,
      cause: Cause)
    requires Sane(s) && !s.Finished? && p.plainLength <= MAX_TEXT && t != []
    requires After(p, s, t) == Some(Finished(sent, attempt, cause))
    ensures |Pauses(p, s, t)| == AttemptsEnded(p, t) - if sent then 0 else 1
    decreases |t|
  {
    var now := Awake(p, s);
    var next := Answered(p, now.attempt, now.channel, t[0].answer);
    PausesStep(p, s, t);
    FirstFollows(p, now, t[0]);
    hide GoesOn, EndsAttempt, WorthRetrying, Answered, Pauses;
    if !next.Finished? {
      assert t[1..] != [];
      PauseCount(p, next, t[1..], sent, attempt, cause);
    }
  }

  lemma {:induction false} PauseAt(p: Payload, s: SendState, t: seq<Exchange>, sent: bool, attempt: nat, cause: Cause,
      k: nat)
    requires Sane(s) && !s.Finished? && p.plainLength <= MAX_TEXT && k + 1 < |t| && EndsAttempt(p, t[k])
    requires After(p, s, t) == Some(Finished(sent, attempt, cause))
    ensures AttemptsEnded(p, t[..k]) < |Pauses(p, s, t)|
    ensures Pauses(p, s, t)[AttemptsEnded(p, t[..k])] == PauseOf(t[k], EndedBefore(s) + AttemptsEnded(p, t[..k]))
    decreases |t|
  {
    var now := Awake(p, s);
    var next := Answered(p, now.attempt, now.channel, t[0].answer);
    PausesStep(p, s, t);
    FirstFollows(p, now, t[0]);
    hide GoesOn, EndsAttempt, WorthRetrying, Answered, Pauses, After, PauseOf;
    if k > 0 {
      PauseAt(p, next, t[1..], sent, attempt, cause, k - 1);
      Behind(p, t, k);
    }
  }

  /** Every refusal of a send is followed by what it allows. It begins on the first channel; a refused
      request that allows another channel is followed by it; an attempt that ends on an error worth
      retrying is followed by another one, up to three in all, after Telegram's own delay or 30 and
      120 seconds; so a send fails only on an error not worth retrying or with its third attempt. */
  lemma SendFollows(p: Payload, t: seq<Exchange>, sent: bool, attempt: nat, cause: Cause)
    requires After(p, Begin(p, 1), t) == Some(Finished(sent, attempt, cause)) && p.plainLength <= 4096
    ensures t != [] && t[0].channel == FirstChannel(p)
    ensures forall k :: 0 <= k < |t| ==> Followed(p, t, k, AttemptsEnded(p, t[..k]), sent, attempt, cause)
    ensures forall k :: 0 <= k < |t| && EndsAttempt(p, t[k]) && k + 1 < |t| ==>
              var n := AttemptsEnded(p, t[..k]);
              n < |Pauses(p, Begin(p, 1), t)| && Pauses(p, Begin(p, 1), t)[n] == PauseOf(t[k], n)
    ensures |Pauses(p, Begin(p, 1), t)| == AttemptsEnded(p, t) - if sent then 0 else 1
  {
    RunFollows(p, Begin(p, 1), t, sent, attempt, cause);
    PauseCount(p, Begin(p, 1), t, sent, attempt, cause);
    forall k: nat | k + 1 < |t| && EndsAttempt(p, t[k])
      ensures var n := AttemptsEnded(p, t[..k]);
              n < |Pauses(p, Begin(p, 1), t)| && Pauses(p, Begin(p, 1), t)[n] == PauseOf(t[k], n)
    {
      PauseAt(p, Begin(p, 1), t, sent, attempt, cause, k);
    }
  }

  /** One more request after a run that has not paused. */
  lemma OneMore(p: Payload, s: SendState, t: seq<Exchange>, e: Exchange)
    requires After(p, s, t).Some? && After(p, s, t).value.Calling? && After(p, s, t).value.channel == e.channel
    requires Pauses(p, s, t) == []
    ensures var next := Answered(p, After(p, s, t).value.attempt, e.channel, e.answer);
            After(p, s, t + [e]) == Some(next) && Pauses(p, s, t + [e]) == if next.Sleeping? then [next.seconds] else []
  {
    AfterAppend(p, s, t, [e]);
    hide Answered;
    assert [e][1..] == [];
  }

  lemma NotEmpty(p: Payload, attempt: nat, run: seq<Exchange>)
    requires p.plainLength <= MAX_TEXT && After(p, Begin(p, attempt), run).Some?
        && !After(p, Begin(p, attempt), run).value.Calling?
    ensures run != []
  {
  }

  /** The bot with its adversary: request number k is answered by `script(k)`. */
  class Bot {
    const script: nat -> Answer
    var requests: seq<Exchange>
    var naps: seq<int>

    constructor (script: nat -> Answer)
      ensures this.script == script && requests == [] && naps == []
    {
      this.script := script;
      requests, naps := [], [];
    }

    method Request(channel: Channel) returns (answer: Answer)
      modifies this`requests
      ensures answer == script(old(|requests|))
      ensures requests == old(requests) + [Exchange(channel, answer)]
    {
      answer := script(|requests|);
      requests := requests + [Exchange(channel, answer)];
    }

    /** One attempt: rich, HTML and plain requests in the order the answers allow. */
    method SendOnce(p: Payload, ghost attempt: nat) returns (sent: bool, cause: Cause, ghost run: seq<Exchange>)
      modifies this`requests
      ensures requests == old(requests) + run
      ensures p.plainLength > MAX_TEXT <==> cause == TooLong
      ensures sent <==> cause == NoError
      ensures var next := if cause.Raised? then AttemptFailed(attempt, cause.failure)
          else Finished(sent, attempt, cause);
              && After(p, Begin(p, attempt), run) == Some(next)
              && Pauses(p, Begin(p, attempt), run) == if next.Sleeping? then [next.seconds] else []
    {
      run := [];
      ghost var begin := Begin(p, attempt);
      if p.plainLength > MAX_TEXT {
        return false, TooLong, run;
      }
      var channel := if p.richHtml && p.botToken then Rich else LegacyChannel(p);
      assert After(p, begin, []) == Some(Calling(attempt, channel)) && Pauses(p, begin, []) == [];
      hide After, Pauses, Begin, Transient, Delay, AttemptFailed;
      if p.richHtml && p.botToken {
        var answer := Request(Rich);
        OneMore(p, begin, [], Exchange(Rich, answer));
        assert [] + [Exchange(Rich, answer)] == [Exchange(Rich, answer)];
        run := [Exchange(Rich, answer)];
        if answer.Acknowledged? {
          return true, NoError, run;
        }
        if answer.failure.kind != BadRequest {
          return false, Raised(answer.failure), run;
        }
        channel := LegacyChannel(p);
      }
      if p.htmlText {
        var answer := Request(Html);
        OneMore(p, begin, run, Exchange(Html, answer));
        assert requests == old(requests) + (run + [Exchange(Html, answer)]);
        run := run + [Exchange(Html, answer)];
        if answer.Acknowledged? {
          return true, NoError, run;
        }
        if answer.failure.saysBlocked || (p.richHtml && answer.failure.kind != BadRequest) {
          return false, Raised(answer.failure), run;
        }
      }
      var last := Request(Plain);
      OneMore(p, begin, run, Exchange(Plain, last));
      assert requests == old(requests) + (run + [Exchange(Plain, last)]);
      run := run + [Exchange(Plain, last)];
      if last.Acknowledged? {
        return true, NoError, run;
      }
      return false, Raised(last.failure), run;
    }

    /** The retry loop. Its requests and its result are one run of the transition system,
        so `SendGuarantees` speaks about every call of this method. */
    method SendWithRetry(p: Payload) returns (sent: bool, attempt: nat, cause: Cause, ghost run: seq<Exchange>)
      modifies this
      ensures requests == old(requests) + run
      ensures After(p, Begin(p, 1), run) == Some(Finished(sent, attempt, cause))
      ensures naps == old(naps) + Pauses(p, Begin(p, 1), run)
    {
      attempt := 1;
      run := [];
      ghost var paused: seq<int> := [];
      ghost var entry := Begin(p, 1);
      assert Attempting(p, run, paused, entry, attempt);
      hide Attempting, After, Pauses, Begin, Transient, Delay;
      while true
        invariant 1 <= attempt <= MAX_ATTEMPTS
        invariant requests == old(requests) + run && naps == old(naps) + paused
        invariant Attempting(p, run, paused, entry, attempt)
        decreases MAX_ATTEMPTS - attempt
      {
        ghost var made, more := requests, [];
        sent, cause, more := SendOnce(p, attempt);
        assert made + more == old(requests) + (run + more);
        Attempted(p, run, paused, entry, attempt, more);
        run := run + more;
        if sent || cause.TooLong? || !Transient(cause.failure) || attempt >= MAX_ATTEMPTS {
          assert paused + [] == paused;
          return;
        }
        var delay := Delay(cause.failure, attempt);
        naps := naps + [delay];
        assert naps == old(naps) + (paused + [delay]);
        paused := paused + [delay];
        entry := Sleeping(attempt, delay);
        attempt := attempt + 1;
        Napped(p, run, paused, entry, attempt);
      }
    }
  }

  /** About to make attempt `attempt`, having come to `entry` by `run` with the pauses `paused`. */
  predicate Attempting(p: Payload, run: seq<Exchange>, paused: seq<int>, entry: SendState, attempt: nat) {
    && After(p, Begin(p, 1), run) == Some(entry) && Pauses(p, Begin(p, 1), run) == paused
    && Awake(p, entry) == Begin(p, attempt)
    && if attempt == 1 then entry == Begin(p, 1) && !entry.Sleeping? else entry.Sleeping? && p.plainLength <= MAX_TEXT
  }

  lemma Attempted(p: Payload, run: seq<Exchange>, paused: seq<int>, entry: SendState, attempt: nat, more: seq<Exchange>)
    requires Attempting(p, run, paused, entry, attempt)
    requires After(p, Begin(p, attempt), more).Some? && !After(p, Begin(p, attempt), more).value.Calling?
    ensures After(p, Begin(p, 1), run + more) == After(p, Begin(p, attempt), more)
    ensures Pauses(p, Begin(p, 1), run + more) == paused + Pauses(p, Begin(p, attempt), more)
  {
    if entry.Sleeping? { NotEmpty(p, attempt, more); }
    hide After, Pauses, Begin;
    AwakeFirst(p, entry, attempt, more);
    AfterAppend(p, Begin(p, 1), run, more);
  }

  lemma Napped(p: Payload, run: seq<Exchange>, paused: seq<int>, entry: SendState, attempt: nat)
    requires After(p, Begin(p, 1), run) == Some(entry) && Pauses(p, Begin(p, 1), run) == paused
    requires entry.Sleeping? && entry.attempt + 1 == attempt && attempt > 1
    ensures Attempting(p, run, paused, entry, attempt)
  {
  }

  lemma AwakeFirst(p: Payload, s: SendState, attempt: nat, t: seq<Exchange>)
    requires Awake(p, s) == Begin(p, attempt) && (s.Sleeping? ==> t != []) && (!s.Sleeping? ==> s == Begin(p, attempt))
    ensures After(p, s, t) == After(p, Begin(p, attempt), t)
    ensures Pauses(p, s, t) == Pauses(p, Begin(p, attempt), t)
  {
  }
}
