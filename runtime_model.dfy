/** The value-level parts of the automation runtime: the chat-room suffix,
    the shape of the messages published to subscribers, the retry delay of
    the send pipeline and what a merge buffer turns into when it is flushed. */
module RuntimeModel {
  import opened PyStr

  const ChatroomSuffix: string := "@chatroom"

  /** `_strip_chatroom_suffix`: drop a trailing `@chatroom`, keep anything else. */
  function StripChatroomSuffix(w: string): (r: string)
    ensures EndsWith(w, ChatroomSuffix) ==> r + ChatroomSuffix == w
    ensures !EndsWith(w, ChatroomSuffix) ==> r == w
  {
    if EndsWith(w, ChatroomSuffix) then w[..|w| - |ChatroomSuffix|] else w
  }

  /** Stripping undoes the group decoration of a contact name. */
  lemma StripChatroomRoundTrip(c: string)
    ensures StripChatroomSuffix(c + ChatroomSuffix) == c
  {
    var w := c + ChatroomSuffix;
    assert w[|w| - |ChatroomSuffix|..] == ChatroomSuffix;
    assert w[..|w| - |ChatroomSuffix|] == c;
  }

  // ---------------------------------------------------------------------
  // Published messages
  // ---------------------------------------------------------------------

  /** One entry of a `wechat_message` payload's `messages` list. */
  datatype WireMessage = WireMessage(
    fromUser: string,
    toUser: string,
    content: string,
    msgType: int,
    msgId: nat,
    newMsgId: nat,
    createTime: int,
    pushContent: string,
    msgSource: string)

  /** The payload put on the outbox, addressed to the subscribers of `accountWxid`. */
  datatype PublishItem = PublishItem(
    accountWxid: string,
    kind: string,
    wxid: string,
    timestamp: int,
    count: nat,
    messages: seq<WireMessage>)

  /** Python's `int(x)` on a float: truncation toward zero. */
  function TruncateReal(x: real): (n: int)
    ensures x >= 0.0 ==> n >= 0 && n as real <= x < n as real + 1.0
    ensures x < 0.0 ==> n <= 0 && x <= n as real < x + 1.0
  {
    if x >= 0.0 then x.Floor else -((-x).Floor)
  }

  /** A single-message `wechat_message` payload from the bot account. */
  function WechatMessage(botWxid: string, msg: WireMessage, now: int): (item: PublishItem)
    ensures item.accountWxid == botWxid && item.wxid == botWxid
    ensures item.kind == "wechat_message" && item.count == 1 && item.messages == [msg]
  {
    PublishItem(botWxid, "wechat_message", botWxid, now, 1, [msg])
  }

  /** `_emit_incoming_message`: a message from `contact` to the bot; a group
      contact gets the room suffix and its text a placeholder sender line. */
  function IncomingItem(botWxid: string, contact: string, content: string, ts: real,
                        isGroup: bool, msgId: nat, now: int): (item: PublishItem)
    ensures item.kind == "wechat_message" && item.accountWxid == botWxid && item.count == 1
    ensures |item.messages| == 1
    ensures item.messages[0].fromUser == if isGroup then contact + ChatroomSuffix else contact
    ensures item.messages[0].content == if isGroup then "member:\n" + content else content
    ensures item.messages[0].toUser == botWxid
    ensures item.messages[0].msgId == msgId && item.messages[0].newMsgId == msgId
    ensures item.messages[0].createTime == TruncateReal(ts)
  {
    var fromUser := if isGroup then contact + ChatroomSuffix else contact;
    var text := if isGroup then "member:\n" + content else content;
    WechatMessage(botWxid, WireMessage(fromUser, botWxid, text, 1, msgId, msgId, TruncateReal(ts), "", ""), now)
  }

  /** The sender of a published group message, with the suffix stripped, is the contact. */
  lemma IncomingGroupSenderRoundTrip(botWxid: string, contact: string, content: string, ts: real,
                                     msgId: nat, now: int)
    ensures StripChatroomSuffix(IncomingItem(botWxid, contact, content, ts, true, msgId, now).messages[0].fromUser) == contact
  {
    StripChatroomRoundTrip(contact);
  }

  /** `_publish_self_send`: the echo of a message the bot itself sent. */
  function SelfSendItem(botWxid: string, toWxid: string, content: string, msgId: nat, now: int): (item: PublishItem)
    ensures item.kind == "wechat_message" && item.accountWxid == botWxid && item.count == 1
    ensures |item.messages| == 1
    ensures item.messages[0].fromUser == botWxid && item.messages[0].toUser == toWxid
    ensures item.messages[0].content == content
    ensures item.messages[0].msgId == msgId && item.messages[0].createTime == now
  {
    WechatMessage(botWxid, WireMessage(botWxid, toWxid, content, 1, msgId, msgId, now, "", ""), now)
  }

  // ---------------------------------------------------------------------
  // Retry delay of the send pipeline
  // ---------------------------------------------------------------------

  function MaxReal(a: real, b: real): real { if a >= b then a else b }
  function MinReal(a: real, b: real): real { if a <= b then a else b }

  /** `max(1, int(job.max_attempts))`. */
  function AttemptLimit(maxAttempts: int): (n: nat)
    ensures n >= 1 && n >= maxAttempts
    ensures maxAttempts >= 1 ==> n == maxAttempts
    ensures maxAttempts < 1 ==> n == 1
  {
    if maxAttempts >= 1 then maxAttempts else 1
  }

  /** The backoff base, never below 50 ms. */
  function BackoffBase(base: real): (b: real)
    ensures b >= 0.05 && b >= base
    ensures base <= 0.05 ==> b == 0.05
    ensures base >= 0.05 ==> b == base
  {
    MaxReal(0.05, base)
  }

  /** The backoff cap, never below the base. */
  function BackoffCap(base: real, cap: real): (c: real)
    ensures c >= BackoffBase(base) && c >= cap
    ensures cap <= BackoffBase(base) ==> c == BackoffBase(base)
    ensures cap >= BackoffBase(base) ==> c == cap
  {
    MaxReal(BackoffBase(base), cap)
  }

  /** `b * 1.8 ** n`, the uncapped delay after `n` doublings of growth 1.8. */
  function Grown(b: real, n: nat): real {
    if n == 0 then b else 1.8 * Grown(b, n - 1)
  }

  /** Growth never shrinks a positive delay. */
  lemma {:induction false} GrownAtLeast(b: real, n: nat)
    requires b > 0.0
    ensures Grown(b, n) >= b
  {
    if n > 0 {
      GrownAtLeast(b, n - 1);
    }
  }

  lemma {:induction false} GrownMonotone(b: real, m: nat, n: nat)
    requires b > 0.0 && m <= n
    ensures Grown(b, m) <= Grown(b, n)
    decreases n - m
  {
    if m < n {
      GrownMonotone(b, m, n - 1);
      GrownAtLeast(b, n - 1);
    }
  }

  /** The delay before the attempt after `attempt` fails, jitter left out:
      `min(cap', base' * 1.8 ** (attempt - 1))`. */
  function RetryDelay(base: real, cap: real, attempt: nat): (d: real)
    requires attempt >= 1
    ensures BackoffBase(base) <= d <= BackoffCap(base, cap)
  {
    GrownAtLeast(BackoffBase(base), attempt - 1);
    MinReal(BackoffCap(base, cap), Grown(BackoffBase(base), attempt - 1))
  }

  /** A later failure never waits less than an earlier one. */
  lemma RetryDelayMonotone(base: real, cap: real, a1: nat, a2: nat)
    requires 1 <= a1 <= a2
    ensures RetryDelay(base, cap, a1) <= RetryDelay(base, cap, a2)
  {
    GrownMonotone(BackoffBase(base), a1 - 1, a2 - 1);
  }

  /** The sleeps of a run that failed `n` times before its last attempt:
      one after each of attempts 1..n. */
  function RetryDelays(base: real, cap: real, n: nat): (ds: seq<real>)
    ensures |ds| == n
    ensures forall k :: 0 <= k < n ==> ds[k] == RetryDelay(base, cap, k + 1)
  {
    if n == 0 then [] else RetryDelays(base, cap, n - 1) + [RetryDelay(base, cap, n)]
  }

  /** The sleeps of a run are bounded by the base and cap and never shrink. */
  lemma RetryDelaysBoundedAndSorted(base: real, cap: real, n: nat)
    ensures forall k :: 0 <= k < n ==>
      BackoffBase(base) <= RetryDelays(base, cap, n)[k] <= BackoffCap(base, cap)
    ensures forall j, k :: 0 <= j <= k < n ==>
      RetryDelays(base, cap, n)[j] <= RetryDelays(base, cap, n)[k]
  {
    var ds := RetryDelays(base, cap, n);
    forall j, k | 0 <= j <= k < n ensures ds[j] <= ds[k] {
      RetryDelayMonotone(base, cap, j + 1, k + 1);
    }
  }

  // ---------------------------------------------------------------------
  // Send attempts against the monitor
  // ---------------------------------------------------------------------

  /** What one call into the monitor's send did: returned a flag or raised. */
  datatype SendOutcome = Returned(flag: bool) | Raised(message: string)

  /** The monitor call an attempt makes: the target with the room suffix
      stripped, and whether the acknowledged variant is used. */
  datatype MonitorCall = MonitorCall(target: string, content: string, withAck: bool, ackTimeoutSec: real)

  predicate Succeeds(o: SendOutcome) {
    o.Returned? && o.flag
  }

  /** Number of attempts made when the outcomes come from `outs` and at most
      `limit` are allowed: up to and including the first success. */
  function AttemptsMade(outs: seq<SendOutcome>, limit: nat): (n: nat)
    requires limit <= |outs|
    ensures n <= limit && (limit >= 1 ==> n >= 1)
    ensures forall k :: 0 <= k < n - 1 ==> !Succeeds(outs[k])
    ensures n < limit ==> Succeeds(outs[n - 1])
  {
    if limit == 0 then 0
    else if Succeeds(outs[0]) then 1
    else 1 + AttemptsMade(outs[1..], limit - 1)
  }

  /** Whether some attempt among the first `limit` succeeds. */
  predicate AnySuccess(outs: seq<SendOutcome>, limit: nat)
    requires limit <= |outs|
  {
    exists k :: 0 <= k < limit && Succeeds(outs[k])
  }

  /** The error text left on a job after the given attempts: the message of
      the last one that raised, or the job's earlier error. */
  function LastRaised(outs: seq<SendOutcome>, error: string): string {
    if outs == [] then error
    else if outs[|outs| - 1].Raised? then outs[|outs| - 1].message
    else LastRaised(outs[..|outs| - 1], error)
  }

  /** The error after one more attempt. */
  lemma LastRaisedSnoc(outs: seq<SendOutcome>, k: nat, error: string)
    requires k < |outs|
    ensures LastRaised(outs[..k + 1], error)
         == if outs[k].Raised? then outs[k].message else LastRaised(outs[..k], error)
  {
    assert outs[..k + 1][..k] == outs[..k];
  }

  /** The run stops at the first success. */
  lemma AttemptsMadeAt(outs: seq<SendOutcome>, limit: nat, k: nat)
    requires k < limit <= |outs|
    requires forall j :: 0 <= j < k ==> !Succeeds(outs[j])
    requires Succeeds(outs[k])
    ensures AttemptsMade(outs, limit) == k + 1 && AnySuccess(outs, limit)
  {
  }

  /** A run with no success uses every allowed attempt. */
  lemma AttemptsMadeNone(outs: seq<SendOutcome>, limit: nat)
    requires limit <= |outs|
    requires forall j :: 0 <= j < limit ==> !Succeeds(outs[j])
    ensures AttemptsMade(outs, limit) == limit && !AnySuccess(outs, limit)
  {
  }

  /** `n` copies of the same call. */
  function Repeat<T>(x: T, n: nat): (r: seq<T>)
    ensures |r| == n && forall k :: 0 <= k < n ==> r[k] == x
  {
    if n == 0 then [] else Repeat(x, n - 1) + [x]
  }

  /** The last attempt made succeeded exactly when some allowed attempt would. */
  lemma AttemptsMadeSuccess(outs: seq<SendOutcome>, limit: nat)
    requires 1 <= limit <= |outs|
    ensures Succeeds(outs[AttemptsMade(outs, limit) - 1]) <==> AnySuccess(outs, limit)
  {
    var n := AttemptsMade(outs, limit);
    if AnySuccess(outs, limit) {
      var k :| 0 <= k < limit && Succeeds(outs[k]);
      assert k >= n - 1;
      if n == limit {
        assert k == n - 1;
      }
    }
  }

  // ---------------------------------------------------------------------
  // Merge buffers
  // ---------------------------------------------------------------------

  /** The parts gathered for one `(contact, is_group)` key, the timestamp of
      the latest one and the id of the timer armed for it, if any. */
  datatype MergeBuffer = MergeBuffer(parts: seq<string>, lastTs: real, timer: Option<nat>)

  /** The immediate-flush rule: too many parts, or too many characters. */
  predicate FlushThresholdReached(parts: seq<string>, maxMessages: int, maxChars: int) {
    |parts| >= maxMessages || TotalLength(parts) >= maxChars
  }

  /** `[p for p in parts if p.strip()]`. */
  function NonBlankParts(parts: seq<string>): (ps: seq<string>)
    ensures |ps| <= |parts|
    ensures forall i :: 0 <= i < |ps| ==> !IsBlank(ps[i]) && ps[i] in parts
  {
    if parts == [] then []
    else if IsBlank(parts[|parts| - 1]) then NonBlankParts(parts[..|parts| - 1])
    else NonBlankParts(parts[..|parts| - 1]) + [parts[|parts| - 1]]
  }

  /** Filtering keeps order: appending a part appends it to the filtered list exactly when it is not blank. */
  lemma NonBlankPartsSnoc(parts: seq<string>, p: string)
    ensures NonBlankParts(parts + [p]) == NonBlankParts(parts) + (if IsBlank(p) then [] else [p])
  {
    assert (parts + [p])[..|parts + [p]| - 1] == parts;
  }

  /** Filtering a list with no blank parts changes nothing. */
  lemma {:induction false} NonBlankPartsKeepsAll(parts: seq<string>)
    requires forall i :: 0 <= i < |parts| ==> !IsBlank(parts[i])
    ensures NonBlankParts(parts) == parts
  {
    if parts != [] {
      var init := parts[..|parts| - 1];
      assert forall i :: 0 <= i < |init| ==> init[i] == parts[i];
      NonBlankPartsKeepsAll(init);
      assert init + [parts[|parts| - 1]] == parts;
    }
  }

  /** A list of blank parts filters to nothing. */
  lemma {:induction false} NonBlankPartsOfBlanks(parts: seq<string>)
    requires forall i :: 0 <= i < |parts| ==> IsBlank(parts[i])
    ensures NonBlankParts(parts) == []
  {
    if parts != [] {
      NonBlankPartsOfBlanks(parts[..|parts| - 1]);
    }
  }

  /** The text a flush emits: the non-blank parts joined by newlines, or
      nothing when every part is blank. */
  function MergedContent(parts: seq<string>): (r: Option<string>)
    ensures r.None? <==> NonBlankParts(parts) == []
    ensures r.Some? ==> r.value == Join("\n", NonBlankParts(parts))
  {
    var ps := NonBlankParts(parts);
    if ps == [] then None else Some(if |ps| > 1 then Join("\n", ps) else ps[0])
  }

  /** A single non-blank part is emitted unchanged. */
  lemma MergedSingle(p: string)
    requires !IsBlank(p)
    ensures MergedContent([p]) == Some(p)
  {
    NonBlankPartsKeepsAll([p]);
  }

  /** Two non-blank parts are emitted on two lines. */
  lemma MergedTwo(p: string, q: string)
    requires !IsBlank(p) && !IsBlank(q)
    ensures MergedContent([p, q]) == Some(p + "\n" + q)
  {
    NonBlankPartsKeepsAll([p, q]);
    assert [p, q][1..] == [q];
  }

  /** The timestamp a flush uses: the latest part's, unless it is zero. */
  function FlushTimestamp(lastTs: real, now: real): (ts: real)
    ensures lastTs != 0.0 ==> ts == lastTs
    ensures lastTs == 0.0 ==> ts == now
  {
    if lastTs != 0.0 then lastTs else now
  }

  const NotInitialized: string := "WeChat automation not initialized"

  /** The start-of-attempt checks: `checks[k]` is whether automation was
      running with a monitor when attempt `k + 1` began. Of the first `m`
      attempts, this many pass their check before one finds automation
      stopped. */
  function ChecksPassed(checks: seq<bool>, m: nat): (s: nat)
    requires m <= |checks|
    ensures s <= m
    ensures forall j :: 0 <= j < s ==> checks[j]
    ensures s < m ==> !checks[s]
  {
    if m == 0 then 0
    else
      var s := ChecksPassed(checks, m - 1);
      if s == m - 1 && checks[m - 1] then m else s
  }

  /** The first failing check among the first `m` decides the count. */
  lemma {:induction false} ChecksPassedAt(checks: seq<bool>, m: nat, s: nat)
    requires s < m <= |checks|
    requires forall j :: 0 <= j < s ==> checks[j]
    requires !checks[s]
    ensures ChecksPassed(checks, m) == s
  {
    if s < m - 1 {
      ChecksPassedAt(checks, m - 1, s);
    }
  }

  /** Checks that all pass leave every attempt to run. */
  lemma {:induction false} ChecksAllPass(checks: seq<bool>, m: nat)
    requires m <= |checks|
    requires forall j :: 0 <= j < m ==> checks[j]
    ensures ChecksPassed(checks, m) == m
  {
    if m > 0 {
      ChecksAllPass(checks, m - 1);
    }
  }

  /** The monitor calls `_perform_send_job` makes: one per attempt, up to the
      first success or the limit, cut short by a check that finds automation
      stopped. */
  function CallsMade(checks: seq<bool>, outs: seq<SendOutcome>, limit: nat): (n: nat)
    requires limit <= |outs| && limit <= |checks|
    ensures n <= AttemptsMade(outs, limit)
  {
    ChecksPassed(checks, AttemptsMade(outs, limit))
  }

  /** Whether the attempts were cut short by a stopped automation. */
  predicate StoppedEarly(checks: seq<bool>, outs: seq<SendOutcome>, limit: nat)
    requires limit <= |outs| && limit <= |checks|
  {
    CallsMade(checks, outs, limit) < AttemptsMade(outs, limit)
  }

  /** The outcome of `_perform_send_job`: the last attempt ran and succeeded. */
  predicate SendSucceeded(checks: seq<bool>, outs: seq<SendOutcome>, limit: nat)
    requires limit <= |outs| && limit <= |checks|
  {
    var m := AttemptsMade(outs, limit);
    m >= 1 && !StoppedEarly(checks, outs, limit) && Succeeds(outs[m - 1])
  }

  /** The sleeps `_perform_send_job` takes: one after every failed call that
      is not the last allowed attempt. */
  function SleepsMade(checks: seq<bool>, outs: seq<SendOutcome>, limit: nat): (n: nat)
    requires limit <= |outs| && limit <= |checks|
    ensures n <= CallsMade(checks, outs, limit) <= n + 1
  {
    var c := CallsMade(checks, outs, limit);
    if StoppedEarly(checks, outs, limit) || c == 0 then c else c - 1
  }

  /** The error a job carries after `_perform_send_job`. */
  function ErrorAfterSend(checks: seq<bool>, outs: seq<SendOutcome>, limit: nat, error: string): string
    requires limit <= |outs| && limit <= |checks|
  {
    if StoppedEarly(checks, outs, limit) then NotInitialized
    else LastRaised(outs[..AttemptsMade(outs, limit)], error)
  }

  /** A send succeeds exactly when some allowed attempt would succeed and
      every check up to it found automation running. */
  lemma SendSucceededMeans(checks: seq<bool>, outs: seq<SendOutcome>, limit: nat)
    requires limit <= |outs| && limit <= |checks|
    ensures SendSucceeded(checks, outs, limit) <==>
      exists k :: 0 <= k < limit && Succeeds(outs[k]) && forall j :: 0 <= j <= k ==> checks[j]
  {
    var m := AttemptsMade(outs, limit);
    if SendSucceeded(checks, outs, limit) {
      assert 0 <= m - 1 < limit && Succeeds(outs[m - 1]);
      assert forall j :: 0 <= j <= m - 1 ==> checks[j];
    }
    if exists k :: 0 <= k < limit && Succeeds(outs[k]) && forall j :: 0 <= j <= k ==> checks[j] {
      var k :| 0 <= k < limit && Succeeds(outs[k]) && forall j :: 0 <= j <= k ==> checks[j];
      AttemptsMadeSuccess(outs, limit);
      assert m - 1 <= k;
      ChecksAllPass(checks, m);
    }
  }

  /** With automation running throughout, a send succeeds iff an allowed
      attempt would, and leaves the error of the last attempt that raised. */
  lemma RunningThroughout(checks: seq<bool>, outs: seq<SendOutcome>, limit: nat, error: string)
    requires 1 <= limit <= |outs| && limit <= |checks|
    requires forall j :: 0 <= j < limit ==> checks[j]
    ensures CallsMade(checks, outs, limit) == AttemptsMade(outs, limit)
    ensures SendSucceeded(checks, outs, limit) <==> AnySuccess(outs, limit)
    ensures ErrorAfterSend(checks, outs, limit, error) == LastRaised(outs[..AttemptsMade(outs, limit)], error)
  {
    ChecksAllPass(checks, AttemptsMade(outs, limit));
    AttemptsMadeSuccess(outs, limit);
  }

  /** A stop noticed at the start of attempt `k + 1`, after `k` failed calls
      (during the backoff sleep, or before the first call when `k` is 0),
      fails the job with `WeChat automation not initialized` after exactly
      `k` calls and `k` sleeps. */
  lemma {:induction false} StoppedBeforeAttempt(checks: seq<bool>, outs: seq<SendOutcome>, limit: nat, k: nat,
                                                error: string)
    requires k < limit <= |outs| && limit <= |checks|
    requires forall j :: 0 <= j < k ==> checks[j] && !Succeeds(outs[j])
    requires !checks[k]
    ensures CallsMade(checks, outs, limit) == k && SleepsMade(checks, outs, limit) == k
    ensures !SendSucceeded(checks, outs, limit)
    ensures ErrorAfterSend(checks, outs, limit, error) == NotInitialized
  {
    var m := AttemptsMade(outs, limit);
    assert k < m;
    ChecksPassedAt(checks, m, k);
  }

  /** A run whose checks pass up to attempt `k`, which is the first to
      succeed, makes `k + 1` calls and `k` sleeps, succeeds, and keeps the
      last exception message of those attempts. */
  lemma SucceededAtAttempt(checks: seq<bool>, outs: seq<SendOutcome>, limit: nat, k: nat, error: string)
    requires k < limit <= |outs| && limit <= |checks|
    requires forall j :: 0 <= j <= k ==> checks[j]
    requires forall j :: 0 <= j < k ==> !Succeeds(outs[j])
    requires Succeeds(outs[k])
    ensures CallsMade(checks, outs, limit) == k + 1 && SleepsMade(checks, outs, limit) == k
    ensures SendSucceeded(checks, outs, limit)
    ensures ErrorAfterSend(checks, outs, limit, error) == LastRaised(outs[..k + 1], error)
  {
    AttemptsMadeAt(outs, limit, k);
    ChecksAllPass(checks, k + 1);
  }

  /** A run whose every check passes and every attempt fails makes all
      `limit` calls, sleeps between them only, and fails with the last
      exception message. */
  lemma FailedEveryAttempt(checks: seq<bool>, outs: seq<SendOutcome>, limit: nat, error: string)
    requires 1 <= limit <= |outs| && limit <= |checks|
    requires forall j :: 0 <= j < limit ==> checks[j] && !Succeeds(outs[j])
    ensures CallsMade(checks, outs, limit) == limit && SleepsMade(checks, outs, limit) == limit - 1
    ensures !SendSucceeded(checks, outs, limit)
    ensures ErrorAfterSend(checks, outs, limit, error) == LastRaised(outs[..limit], error)
  {
    AttemptsMadeNone(outs, limit);
    ChecksAllPass(checks, limit);
  }

  /** The attempt loop of `_perform_send_job` on values: before attempt `k`
      (from 0) it reads `checks[k]` and gives up when automation has
      stopped; otherwise it records `call`, keeps the message of an
      exception as the error, stops at a success, and sleeps the backoff
      delay between attempts. */
  method RetryAttempts(checks: seq<bool>, outs: seq<SendOutcome>, limit: nat, call: MonitorCall,
                       base: real, cap: real, error0: string)
    returns (ok: bool, calls: seq<MonitorCall>, delays: seq<real>, error: string)
    requires 1 <= limit <= |outs| && limit <= |checks|
    ensures ok == SendSucceeded(checks, outs, limit)
    ensures error == ErrorAfterSend(checks, outs, limit, error0)
    ensures calls == Repeat(call, CallsMade(checks, outs, limit))
    ensures delays == RetryDelays(base, cap, SleepsMade(checks, outs, limit))
  {
    ok, calls, delays, error := false, [], [], error0;
    var attempt := 1;
    while attempt <= limit
      invariant 1 <= attempt <= limit + 1
      invariant forall k :: 0 <= k < attempt - 1 ==> checks[k] && !Succeeds(outs[k])
      invariant calls == Repeat(call, attempt - 1)
      invariant delays == RetryDelays(base, cap, if attempt <= limit then attempt - 1 else limit - 1)
      invariant error == LastRaised(outs[..attempt - 1], error0)
    {
      if !checks[attempt - 1] {
        error := NotInitialized;
        StoppedBeforeAttempt(checks, outs, limit, attempt - 1, error0);
        return;
      }
      LastRaisedSnoc(outs, attempt - 1, error0);
      calls := calls + [call];
      if outs[attempt - 1].Raised? {
        error := outs[attempt - 1].message;
      }
      if Succeeds(outs[attempt - 1]) {
        SucceededAtAttempt(checks, outs, limit, attempt - 1, error0);
        ok := true;
        return;
      }
      if attempt < limit {
        delays := delays + [RetryDelay(base, cap, attempt)];
      }
      attempt := attempt + 1;
    }
    FailedEveryAttempt(checks, outs, limit, error0);
  }

  /** The worker's rule for the error of a finished job. */
  function WorkerError(ok: bool, error: string): (e: string)
    ensures !ok ==> e != ""
    ensures ok || error != "" ==> e == error
    ensures !ok && error == "" ==> e == "send failed"
  {
    if !ok && error == "" then "send failed" else error
  }

  // ---------------------------------------------------------------------
  // Subscriber hub
  // ---------------------------------------------------------------------

  /** Some account of a non-empty hub map. */
  ghost function PickAccount(m: map<string, set<nat>>): (a: string)
    requires m != map[]
    ensures a in m
  {
    var a :| a in m; a
  }

  /** `sum(len(v) for v in ws_clients.values())`. */
  ghost function ConnectionCount(m: map<string, set<nat>>): nat
    decreases |m|
  {
    if m == map[] then 0
    else
      var a := PickAccount(m);
      |m[a]| + ConnectionCount(m - {a})
  }

  /** The sum does not depend on the order the accounts are visited in. */
  lemma {:induction false} ConnectionCountRemove(m: map<string, set<nat>>, a: string)
    requires a in m
    ensures ConnectionCount(m) == |m[a]| + ConnectionCount(m - {a})
    decreases |m|
  {
    var b := PickAccount(m);
    if a != b {
      assert |m - {b}| < |m|;
      ConnectionCountRemove(m - {b}, a);
      ConnectionCountRemove(m - {a}, b);
      assert m - {b} - {a} == m - {a} - {b};
    }
  }

  /** Replacing one account's set changes the sum by the difference in size. */
  lemma ConnectionCountUpdate(m: map<string, set<nat>>, a: string, s: set<nat>)
    ensures ConnectionCount(m[a := s]) == ConnectionCount(m - {a}) + |s|
    ensures a in m ==> ConnectionCount(m) == ConnectionCount(m - {a}) + |m[a]|
  {
    ConnectionCountRemove(m[a := s], a);
    assert m[a := s] - {a} == m - {a};
    if a in m {
      ConnectionCountRemove(m, a);
    }
  }

  /** The loop behind `sum(len(v) for v in ws_clients.values())`. */
  method CountConnections(m: map<string, set<nat>>) returns (n: nat)
    ensures n == ConnectionCount(m)
  {
    n := 0;
    var rest := m;
    while rest != map[]
      invariant n + ConnectionCount(rest) == ConnectionCount(m)
      decreases |rest|
    {
      var a :| a in rest;
      ConnectionCountRemove(rest, a);
      n := n + |rest[a]|;
      rest := rest - {a};
    }
  }

  /** Eviction of the stale connections of `a`, dropping `a` once it has none left. */
  function Evict(m: map<string, set<nat>>, a: string, stale: set<nat>): (r: map<string, set<nat>>)
    ensures a in r ==> r[a] != {}
  {
    if a !in m then m
    else if m[a] - stale == {} then m - {a}
    else m[a := m[a] - stale]
  }

  /** Eviction removes exactly the stale connections of that account and
      keeps every other account's set as it was. */
  lemma EvictExact(m: map<string, set<nat>>, a: string, stale: set<nat>, b: string, c: nat)
    ensures (b in Evict(m, a, stale) && c in Evict(m, a, stale)[b])
        <==> (b in m && c in m[b] && !(b == a && c in stale))
    ensures b != a ==> (b in Evict(m, a, stale) <==> b in m)
  {
    if a in m && m[a] - stale == {} {
      assert c !in m[a] - stale;
    }
  }

  /** Every account in the hub map still has a connection after eviction. */
  lemma EvictKeepsNonEmpty(m: map<string, set<nat>>, a: string, stale: set<nat>)
    requires forall b :: b in m ==> m[b] != {}
    ensures forall b :: b in Evict(m, a, stale) ==> Evict(m, a, stale)[b] != {}
  {
  }
}
