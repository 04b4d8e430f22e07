# WeChat auto-reply bridge: a Dafny model of its in-memory core

This project models the bookkeeping at the centre of a WeChat automation
bridge, and proves properties of it. The bridge drives WeChat Web in a
browser, forwards incoming chats to subscribers over a websocket stream,
sends replies through a retrying send queue, and can export chat logs with
per-category summaries. The browser, the threads, the clock and the network
are outside the model. What they would report arrives as parameters.

The files:

- `pystr.dfy` (module `PyStr`): the Python `str` operations the code relies
  on, over Dafny strings. These are `strip()` with Python's exact whitespace
  set, `in`, `startswith`/`endswith`, `join`, `replace`, `lower()` (ASCII
  letters only) and `s[start:]` with negative starts.
- `runtime_model.dfy` (module `RuntimeModel`): the value-level parts of the
  automation runtime. These are the `@chatroom` suffix, the published
  `wechat_message` payloads, attempt limits and capped exponential backoff,
  the send-attempt outcome, merge-buffer flushing, the connection count and
  stale-connection eviction.
- `runtime.dfy` (module `Runtime`): the runtime object `WeChatAutoRuntime`,
  as a class. It holds:
  - the send pipeline: the pending and by-id job maps and the FIFO send
    queue, whose `None` entry is the stop sentinel;
  - the worker and the retry loop;
  - the per-`(contact, is_group)` merge buffers;
  - the outbox;
  - the subscriber hub.

  `SendJob` is a class of its own, since the worker fills in its `ok`,
  `error` and `done` in place. Each thread runs one step per call. A worker
  turn is `WorkerStep`, a merge timer firing is `FlushMerge`, and one turn
  of the broadcast loop is `BroadcastStep`.
- `web_monitor.py`'s in-memory logic, in `web_monitor.dfy` (module
  `WebMonitor`):
  - the counted pause scope;
  - acknowledgement text normalisation and the acknowledgement wait;
  - the outgoing-message signature;
  - the contact filter and its mode validation;
  - the processed-signature cache with the keyword trigger in
    `process_chat_item`;
  - @-mention detection.
- `ai_model.dfy` (module `AiModel`):
  - `_is_question`;
  - model selection and the message list posted to the chat API;
  - the replies for each way the API exchange can end;
  - the per-contact conversation history and its window.
- `export_logs.dfy` (module `ExportLogs`):
  - the priority classifier `categorize_message`;
  - the scan of decoded chat-log files into rows and per-category lists;
  - `summarize_categories`.

Where the model takes the code's side against the prose description of the
system:

- The summary prompt's bullet lines are joined with the two characters `\`
  and `n`, because the code writes the Python literal `"\\n"`
  (export_logs.py:112). Its default template contains the same pair
  (export_logs.py:101).
- A job still queued when automation stops is not necessarily left with
  `"automation stopped"`. `stop_automation` first lets the worker drain the
  queue. A worker that takes the job then finds automation stopped, and
  leaves the error `"WeChat automation not initialized"`. In the model this
  is a `WorkerStep` called after (or before) `StopAutomation`.
- `process_chat_item` repeats the white/blacklist test inline instead of
  calling `_should_process_contact`. The two agree because the constructor
  only ever leaves `"blacklist"` or `"whitelist"` as the mode.

## Model

| member | source | states |
|---|---|---|
| RuntimeModel.StripChatroomSuffix | wechat_auto_service_v2/runtime.py:23-26 | a name ending in `@chatroom` loses exactly that suffix (the result plus the suffix is the name); any other name is returned unchanged |
| RuntimeModel.StripChatroomRoundTrip | wechat_auto_service_v2/runtime.py:23-26 | stripping `c + "@chatroom"` gives back `c` for every `c` |
| RuntimeModel.TruncateReal | wechat_auto_service_v2/runtime.py:259 | `int(ts)` truncates toward zero: the result is within one of `ts` and never beyond it |
| RuntimeModel.WechatMessage | wechat_auto_service_v2/runtime.py:417-424 | the published payload is a `wechat_message` for the bot account, with count 1, carrying exactly the one message |
| RuntimeModel.IncomingItem | wechat_auto_service_v2/runtime.py:245-270 | a group message comes from `contact@chatroom` and its text starts with `member:\n`; a direct message carries contact and text unchanged; it is addressed to the bot, with `msgId` = `newMsgId` = the issued id and `createTime` = `int(ts)` |
| RuntimeModel.IncomingGroupSenderRoundTrip | wechat_auto_service_v2/runtime.py:245-246 | stripping the suffix from the sender of a published group message gives back the contact |
| RuntimeModel.SelfSendItem | wechat_auto_service_v2/runtime.py:403-424 | the echo of a sent message goes from the bot to the target with the sent text, the issued id and the current time |
| RuntimeModel.AttemptLimit | wechat_auto_service_v2/runtime.py:350 | `max(1, max_attempts)`: exactly `max_attempts` when that is positive, and exactly one attempt otherwise |
| RuntimeModel.BackoffBase | wechat_auto_service_v2/runtime.py:351 | `max(0.05, base)`: at least both, and equal to one of them (0.05 when the configured base is at most 0.05, the base otherwise) |
| RuntimeModel.BackoffCap | wechat_auto_service_v2/runtime.py:352 | `max(base', cap)`: at least the effective base and the configured cap, and equal to the larger of the two |
| RuntimeModel.GrownAtLeast | wechat_auto_service_v2/runtime.py:377 | growth by `1.8 ** n` never shrinks a positive delay |
| RuntimeModel.GrownMonotone | wechat_auto_service_v2/runtime.py:377 | `base * 1.8 ** n` is non-decreasing in `n` |
| RuntimeModel.RetryDelay | wechat_auto_service_v2/runtime.py:376-377 | the delay before jitter lies between the effective base and the effective cap |
| RuntimeModel.RetryDelayMonotone | wechat_auto_service_v2/runtime.py:376-377 | a later failed attempt never waits less than an earlier one |
| RuntimeModel.RetryDelays | wechat_auto_service_v2/runtime.py:376-387 | a run that failed `n` times before its last attempt sleeps exactly `n` times, the `k`-th sleep being the delay after attempt `k` |
| RuntimeModel.RetryDelaysBoundedAndSorted | wechat_auto_service_v2/runtime.py:376-387 | every sleep of a run is between base and cap, and the sleeps never shrink |
| RuntimeModel.AttemptsMade | wechat_auto_service_v2/runtime.py:354-374 | the attempts made are at most the limit and at least one; all but the last failed; if fewer than the limit were made, the last succeeded |
| RuntimeModel.LastRaisedSnoc | wechat_auto_service_v2/runtime.py:367-369 | after one more attempt the job's error is that attempt's exception message if it raised, else the earlier error |
| RuntimeModel.AttemptsMadeAt | wechat_auto_service_v2/runtime.py:371-374 | after failures on attempts 1..k, a success on attempt k+1 ends the run there |
| RuntimeModel.AttemptsMadeNone | wechat_auto_service_v2/runtime.py:354-389 | a run with no success uses every allowed attempt and reports failure |
| RuntimeModel.AttemptsMadeSuccess | wechat_auto_service_v2/runtime.py:354-374 | the last attempt made succeeded exactly when some allowed attempt would succeed |
| RuntimeModel.ChecksPassed | wechat_auto_service_v2/runtime.py:357-362 | the number of leading running checks that pass, up to `m`: all before it pass and the next one, if any, fails |
| RuntimeModel.ChecksPassedAt | wechat_auto_service_v2/runtime.py:357-362 | when checks `0..s-1` pass and check `s` fails, exactly `s` checks pass |
| RuntimeModel.ChecksAllPass | wechat_auto_service_v2/runtime.py:357-362 | when every check up to `m` passes, `m` checks pass |
| RuntimeModel.CallsMade | wechat_auto_service_v2/runtime.py:354-374 | an attempt calls the monitor only after its running check passed, so no more calls are made than attempts |
| RuntimeModel.SleepsMade | wechat_auto_service_v2/runtime.py:376-387 | a run sleeps once between consecutive calls, and also before a check that then fails: one sleep fewer than calls, or as many |
| RuntimeModel.SendSucceeded | wechat_auto_service_v2/runtime.py:354-374 | the send succeeds when no running check failed and the last attempt made succeeded |
| RuntimeModel.SendSucceededMeans | wechat_auto_service_v2/runtime.py:354-374 | the send succeeds iff some allowed attempt succeeds and every running check up to and including it passed |
| RuntimeModel.ErrorAfterSend | wechat_auto_service_v2/runtime.py:358-369 | a failed running check leaves `WeChat automation not initialized`; otherwise the last exception message, or the earlier error |
| RuntimeModel.RunningThroughout | wechat_auto_service_v2/runtime.py:354-389 | with automation running throughout, every attempt is made, success iff some attempt succeeds, and the error is the last exception's |
| RuntimeModel.StoppedBeforeAttempt | wechat_auto_service_v2/runtime.py:357-362 | when attempts `0..k-1` failed and the running check before attempt `k` fails, `k` calls and `k` sleeps were made, the send fails, and the error is `WeChat automation not initialized` |
| RuntimeModel.SucceededAtAttempt | wechat_auto_service_v2/runtime.py:354-374 | when checks up to attempt `k` pass and attempt `k` is the first to succeed, `k + 1` calls and `k` sleeps were made, the send succeeds, and the error is the last exception message of those attempts |
| RuntimeModel.FailedEveryAttempt | wechat_auto_service_v2/runtime.py:354-389 | when every check passes and every attempt fails, all `limit` calls and `limit - 1` sleeps were made, the send fails, and the error is the last exception message |
| RuntimeModel.RetryAttempts | wechat_auto_service_v2/runtime.py:354-389 | the attempt loop: it checks `checks[k]` before attempt `k` and gives up on a failed check; its outcome, calls, sleeps and error are `SendSucceeded`, `CallsMade`, `SleepsMade` and `ErrorAfterSend` |
| RuntimeModel.NonBlankParts | wechat_auto_service_v2/runtime.py:238 | the kept parts are non-blank, each comes from the buffer, and there are no more of them than parts |
| RuntimeModel.NonBlankPartsSnoc | wechat_auto_service_v2/runtime.py:238 | appending a part appends it to the kept list exactly when it is not blank, so order is kept |
| RuntimeModel.NonBlankPartsKeepsAll | wechat_auto_service_v2/runtime.py:238 | a buffer without blank parts is kept whole |
| RuntimeModel.NonBlankPartsOfBlanks | wechat_auto_service_v2/runtime.py:238-240 | a buffer of blank parts keeps nothing, so the flush emits nothing |
| RuntimeModel.MergedContent | wechat_auto_service_v2/runtime.py:238-241 | a flush emits nothing exactly when no part is non-blank; otherwise it emits the non-blank parts joined with newlines |
| RuntimeModel.MergedSingle | wechat_auto_service_v2/runtime.py:241 | a single non-blank part is emitted unchanged |
| RuntimeModel.MergedTwo | wechat_auto_service_v2/runtime.py:241 | two non-blank parts are emitted as two lines |
| RuntimeModel.FlushTimestamp | wechat_auto_service_v2/runtime.py:242 | the flush uses the latest part's timestamp, or the current time if that is zero |
| RuntimeModel.WorkerError | wechat_auto_service_v2/runtime.py:284-286 | a failed job with an empty error gets exactly `send failed`; in every other case the error is kept, so a failed job never ends with an empty error |
| RuntimeModel.ConnectionCountRemove | wechat_auto_service_v2/runtime.py:446 | the connection sum does not depend on the order in which accounts are visited |
| RuntimeModel.ConnectionCountUpdate | wechat_auto_service_v2/runtime.py:446 | replacing one account's set changes the sum by the difference in set sizes |
| RuntimeModel.CountConnections | wechat_auto_service_v2/runtime.py:446 | the summing loop computes the total number of connections over all accounts |
| RuntimeModel.Evict | wechat_auto_service_v2/runtime.py:470-476 | after eviction no account is left with an empty set |
| RuntimeModel.EvictExact | wechat_auto_service_v2/runtime.py:470-476 | a connection survives eviction exactly when it was there and is not one of the account's stale ones; other accounts are untouched |
| RuntimeModel.EvictKeepsNonEmpty | wechat_auto_service_v2/runtime.py:448-454 | eviction keeps the hub free of empty sets |
| Runtime.OrElse | wechat_auto_service_v2/runtime.py:177-178 | `value or default`: a missing or empty string gives the default, any other value is kept |
| Runtime.EventContact | wechat_auto_service_v2/runtime.py:177 | `from` when non-empty, else `sender` when non-empty, else `Unknown`; never empty |
| Runtime.EventContent | wechat_auto_service_v2/runtime.py:178 | present content is kept as is, absent content is empty |
| Runtime.EventTimestamp | wechat_auto_service_v2/runtime.py:179 | the event's timestamp when present and non-zero, and the current time in every other case; never zero unless the clock reads zero |
| Runtime.EventIsGroup | wechat_auto_service_v2/runtime.py:181-187 | a message flagged as a group stays one; with no monitor, only the flag counts |
| Runtime.SendJob.constructor | wechat_auto_service_v2/runtime.py:35-46 | a new job carries the given id, target, text, time and send settings, and is not done, not ok, with no error |
| Runtime.WeChatAutoRuntime.constructor | wechat_auto_service_v2/runtime.py:56-103 | the bot id defaults to `wxid_unknown` and every send and merge setting to its documented default; counters start at 1, all collections empty, statistics at 0, and the invariant holds |
| Runtime.WeChatAutoRuntime.StartAutomation | wechat_auto_service_v2/runtime.py:108-138 | an already running runtime answers true and changes nothing; otherwise running, the monitor and the worker follow the login result |
| Runtime.WeChatAutoRuntime.FailJobs | wechat_auto_service_v2/runtime.py:158-163 | every given job ends done, not ok, with the given error |
| Runtime.WeChatAutoRuntime.StopAutomation | wechat_auto_service_v2/runtime.py:140-173 | automation, monitor and worker are stopped, the stop sentinel is queued, and every job pending before is done, failed, with `automation stopped`; the pending map and the merge buffers are emptied without emitting anything; the by-id map is untouched |
| Runtime.WeChatAutoRuntime.EnqueueText | wechat_auto_service_v2/runtime.py:298-332 | blank text or stopped automation gives `(false, 0)` with no state change; a pending `(to, content)` gives its existing id and changes nothing; otherwise a fresh job whose id is above every issued id is put in both maps and at the end of the queue; the job registry invariant is kept |
| Runtime.WeChatAutoRuntime.CreateJob | wechat_auto_service_v2/runtime.py:319-332 | the next id is issued, exceeds every earlier id, and the new job is registered under its id and key and queued last |
| Runtime.WeChatAutoRuntime.GetSendJob | wechat_auto_service_v2/runtime.py:334-346 | an id never issued gives `None`; an issued id gives a snapshot of that job's fields |
| Runtime.WeChatAutoRuntime.PublishSelfSend | wechat_auto_service_v2/runtime.py:403-427 | exactly one echo item is appended to the outbox and one message id is used |
| Runtime.WeChatAutoRuntime.PerformSendJob | wechat_auto_service_v2/runtime.py:348-389 | each attempt first checks that automation runs with a monitor (the running check before attempt 1 is the current state, later ones the `laterChecks` inputs); success iff some allowed attempt succeeds with every check up to it passing; the calls are the attempts begun, each to the suffix-stripped target, with one backoff sleep between consecutive attempts; a failed check ends the run with `WeChat automation not initialized`, otherwise the error is the last exception message; success adds exactly 1 to `sent` and publishes exactly one echo |
| Runtime.WeChatAutoRuntime.AttemptSends | wechat_auto_service_v2/runtime.py:354-389 | the retry loop, run by `RuntimeModel.RetryAttempts`: the same outcome, calls, sleeps and final error as stated for `PerformSendJob`, and the job's error is the one the loop ends with |
| Runtime.WeChatAutoRuntime.WorkerStep | wechat_auto_service_v2/runtime.py:277-293 | an empty queue changes nothing; the sentinel stops the worker and touches no job; a job is performed (with the running checks of its later attempts as inputs), marked done with its outcome and error, and removed from the pending map; the by-id map is never pruned; the registry invariant is kept |
| Runtime.WeChatAutoRuntime.RunJob | wechat_auto_service_v2/runtime.py:283-293 | the job just taken ends done, with the send outcome under the given running checks and the worker's error rule, and its key leaves the pending map |
| Runtime.WeChatAutoRuntime.TakeHead | wechat_auto_service_v2/runtime.py:279 | the head of the queue is removed and returned, and the registry invariant holds with that job in hand |
| Runtime.WeChatAutoRuntime.QueuedBehindHead | wechat_auto_service_v2/runtime.py:279 | a job queued behind the head is still queued after the head is taken |
| Runtime.WeChatAutoRuntime.CompleteJob | wechat_auto_service_v2/runtime.py:285-293 | the job records its outcome, gets `send failed` if it failed with no error, is marked done and leaves the pending map |
| Runtime.WeChatAutoRuntime.EmitIncoming | wechat_auto_service_v2/runtime.py:245-271 | exactly one shaped incoming item is appended, one message id is used, and `received` grows by one |
| Runtime.WeChatAutoRuntime.FlushOutput | wechat_auto_service_v2/runtime.py:238-243 | a flush of only blank parts publishes nothing; otherwise exactly one item with the merged text and the flush timestamp |
| Runtime.WeChatAutoRuntime.FlushMerge | wechat_auto_service_v2/runtime.py:232-243 | the buffer is removed; an absent key (a second flush of the same key included) emits nothing; otherwise the merged non-blank parts are emitted once |
| Runtime.WeChatAutoRuntime.HandleIncoming | wechat_auto_service_v2/runtime.py:175-230 | with merging off, the content is emitted at once, unchanged; otherwise the part is appended to its key's buffer with the new timestamp, and the buffer flushes at once iff the count or character threshold is reached; otherwise exactly one fresh timer replaces the old one and nothing is emitted |
| Runtime.WeChatAutoRuntime.WsRegister | wechat_auto_service_v2/runtime.py:443-446 | the connection joins its account's set (created if absent), and `ws_connections` stays the sum of the set sizes |
| Runtime.WeChatAutoRuntime.WsUnregister | wechat_auto_service_v2/runtime.py:448-454 | exactly that connection is removed, an account left empty is deleted, and the count stays the sum |
| Runtime.WeChatAutoRuntime.BroadcastStep | wechat_auto_service_v2/runtime.py:456-477 | the head item is delivered to its account's connections that do not fail; exactly the failed ones are evicted; an account left empty is deleted; the count stays the sum |
| WebMonitor.CollapseWhitespace | modules/web_monitor.py:384 | the result has no whitespace but spaces and no two whitespace characters adjacent; every other character comes from the text; it starts with whitespace iff the text did |
| WebMonitor.CollapseKeepsText | modules/web_monitor.py:384 | collapsing keeps exactly the text's non-whitespace characters, in their order |
| WebMonitor.CollapseKeepsTrailingSpace | modules/web_monitor.py:384 | the result ends with whitespace iff the text did |
| WebMonitor.CollapseUnchanged | modules/web_monitor.py:384 | collapsing already collapsed text changes nothing |
| WebMonitor.NormalizeTextForAck | modules/web_monitor.py:380-385 | the normalised text has no leading or trailing whitespace, no two adjacent whitespace characters, no whitespace but spaces, and no zero-width space or byte-order mark |
| WebMonitor.NormalizeFacts | modules/web_monitor.py:383-384 | deleting the zero-width characters, collapsing and stripping leaves none of them and keeps the text collapsed |
| WebMonitor.NormalFixed | modules/web_monitor.py:380-385 | a trimmed, collapsed text without zero-width characters is its own normal form |
| WebMonitor.NormalizeIdempotent | modules/web_monitor.py:380-385 | normalising twice equals normalising once |
| WebMonitor.AckAtReceived | modules/web_monitor.py:434-441 | a poll that sees a fresh signature showing the expected text ends the wait with success |
| WebMonitor.ReceivedAckAt | modules/web_monitor.py:434-441 | a successful wait had some poll with a fresh signature showing the expected text |
| WebMonitor.AckReceivedMeans | modules/web_monitor.py:426-449 | the wait succeeds iff the normalised expected text is non-empty and some poll's signature differs from the one before the send and from the previous poll's, and its normalised text contains the expected text |
| WebMonitor.WaitForOutgoingAck | modules/web_monitor.py:426-449 | the polling loop (tracking the last seen signature) returns true exactly under that decision rule; an expected text that normalises to nothing gives false |
| WebMonitor.StaleSignatureNeverAcks | modules/web_monitor.py:437-440 | polls that only see the pre-send signature never acknowledge, so an identical older message is not mistaken for the new one |
| WebMonitor.AsWrittenMatchesMePrefix | modules/web_monitor.py:397-401 | as written, any class whose first word starts with `me` counts as outgoing |
| WebMonitor.AsWrittenMatchesMessageClass | modules/web_monitor.py:397-401 | as written, the default message class `message ng-scope` counts as outgoing |
| WebMonitor.MeTokenOfTwoWords | modules/web_monitor.py:401 | in a two-word class, the whole-token test finds `me` only when one word is `me` |
| WebMonitor.DefaultClassHasNoMeToken | modules/web_monitor.py:401 | `me` is not a word of `message ng-scope` |
| WebMonitor.DefaultClassHasNoSelfMarker | modules/web_monitor.py:401 | `message ng-scope` contains neither `from_me` nor `self` |
| WebMonitor.DefaultClassNotOutgoing | modules/web_monitor.py:397-401 | with the whole-token test, the default class of an incoming message is not outgoing |
| WebMonitor.MeTokenMakesOutgoing | modules/web_monitor.py:397-401 | with the whole-token test, adding the word `me` makes a class outgoing |
| WebMonitor.IsOutgoingClassAsWritten | modules/web_monitor.py:397-401 | as written: the padded lowered class contains ` me`, or the class contains `from_me` or `self` |
| WebMonitor.IsOutgoingClass | modules/web_monitor.py:397-401 | as intended: the padded lowered class contains ` me ` as a whole word, or `from_me` or `self` |
| WebMonitor.IntendedImpliesAsWritten | modules/web_monitor.py:397-401 | the intended test is stricter: every class it accepts, the test as written accepts too |
| WebMonitor.LastOutgoingIndex | modules/web_monitor.py:414-416 | for any class test, the reverse search finds the last element passing it, or reports that none does |
| WebMonitor.LastTextIndex | modules/web_monitor.py:418-421 | the reverse search finds the last element with text, or reports that all are empty |
| WebMonitor.LastOutgoingSignature | modules/web_monitor.py:405-424 | for any class test, the signature counts all elements; its text is the last passing element's, else the last non-empty text, else empty |
| WebMonitor.AsWrittenSignatureIsLastElement | modules/web_monitor.py:405-416 | as written, on a page of default-class messages the signature is the last element's text, whatever it is |
| WebMonitor.IntendedSignatureSkipsEmptyLast | modules/web_monitor.py:405-424 | with the intended test on such a page, the signature text is the last non-empty text |
| WebMonitor.SignatureCounterexample | modules/web_monitor.py:405-424 | a page `hello` then an empty message: as written the signature text is empty, as intended it is `hello` |
| WebMonitor.ValidContactListMode | modules/web_monitor.py:51-64 | the mode is always `blacklist` or `whitelist`, and is `whitelist` exactly when the lowered configuration value is |
| WebMonitor.KeywordTriggered | modules/web_monitor.py:990-999 | the loop triggers a reply iff there are no keywords or some keyword is a substring of the text |
| WebMonitor.MessageSignature | modules/web_monitor.py:961 | the cache key is the contact, the two characters `::`, then the text |
| WebMonitor.MentionAtFirstNonSpace | modules/web_monitor.py:1241 | since the nickname starts with a non-space, the optional whitespace after the at-sign ends at the first non-space |
| WebMonitor.MentionFrom | modules/web_monitor.py:1241-1243 | the scan from position `i` succeeds iff a match of `[@＠]\s*nick` starts at `i` or later |
| WebMonitor.IsBotMentionedInText | modules/web_monitor.py:1230-1245 | never for a blank nickname; otherwise true iff the text holds `@` or `＠`, then optional whitespace, then the stripped nickname |
| WebMonitor.WebMonitor.constructor | modules/web_monitor.py:24-64 | no pause scope is open and the cache is empty; keywords, lists and the mention setting take their configured values or defaults; the list mode is validated |
| WebMonitor.WebMonitor.EnterPause | modules/web_monitor.py:73-76 | the counter goes up by one and the pause flag is set |
| WebMonitor.WebMonitor.ExitPause | modules/web_monitor.py:80-84 | the counter goes down by one, clamped at zero, and the flag stays set exactly while an outer scope is still open |
| WebMonitor.WebMonitor.PollCycleRuns | modules/web_monitor.py:797-806 | the poll loop runs a cycle only when no pause scope is open and the driver lock was obtained |
| WebMonitor.WebMonitor.ShouldProcessContact | modules/web_monitor.py:679-684 | in either mode, a whitelisted contact not on the blacklist is processed, and a blacklisted contact not on the whitelist is not |
| WebMonitor.WebMonitor.SendMessage | modules/web_monitor.py:303-344 | succeeds iff logged in and the contact and input box were found; the pause scope is entered and left on every path |
| WebMonitor.WebMonitor.SendMessageWithAck | modules/web_monitor.py:346-378 | succeeds iff the underlying send succeeds, whether or not the acknowledgement arrives; the acknowledgement is awaited only with a positive timeout, against the signature taken before sending with the class test as written; the pause scopes are balanced |
| WebMonitor.WebMonitor.ProcessChatItem | modules/web_monitor.py:904-1027 | an open pause scope returns at once; a filtered contact is returned exactly when the list test rejects the stripped name; before the cache check nothing changes; a signature `contact::text` already seen returns with no reply and no change; otherwise it is cached, the cache grows by at most this one signature and never shrinks, an unmentioned group message needing a mention is not replied to, and a reply is triggered iff no keywords are set or some keyword occurs |
| AiModel.QuestionScan | modules/ai_model.py:57-63 | the early-return scan finds a question exactly when some keyword hits (`?` as a suffix, any other keyword as a substring) |
| AiModel.QuestionMarkOnlyAsSuffix | modules/ai_model.py:59-60 | with only `?` as a keyword, a message is a question iff it ends with `?` |
| AiModel.QuestionMarkInsideIgnored | modules/ai_model.py:59-62 | a `?` inside `a?b` does not make it a question |
| AiModel.CapitalKeywordNeverHits | modules/ai_model.py:56-62 | a keyword with an ASCII capital never hits the lowered message |
| AiModel.TrimHistoryAsWritten | modules/ai_model.py:103-106 | the window as written keeps a suffix of the history, of at most `2 * context_length` items when that is positive |
| AiModel.TrimAsWrittenKeepsAllAtZero | modules/ai_model.py:103-106 | as written, `context_length` 0 keeps the whole history |
| AiModel.TrimAsWrittenCounterexample | modules/ai_model.py:103-106 | a two-item history survives trimming to zero exchanges |
| AiModel.ExchangeKeepsPairedAsWritten | modules/ai_model.py:96-107 | with the window as written too, an update keeps a history of whole user/assistant exchanges |
| AiModel.MaxHistoryItems | modules/ai_model.py:103 | the window holds `2 * context_length` items, and none for a non-positive length |
| AiModel.TrimHistory | modules/ai_model.py:103-106 | the kept history is the most recent `min(len, MaxHistoryItems)` items |
| AiModel.TrimAgreesWhenPositive | modules/ai_model.py:103-106 | for every positive `context_length` the written and the intended window agree |
| AiModel.RoleAt | modules/ai_model.py:100-101 | even positions of a paired history are user turns, odd ones assistant turns |
| AiModel.AppendExchangePaired | modules/ai_model.py:100-101 | appending a user turn and an assistant turn keeps the history paired |
| AiModel.EvenSuffixPaired | modules/ai_model.py:104-106 | dropping an even number of the oldest entries keeps the history paired |
| AiModel.ExchangeKeepsPaired | modules/ai_model.py:96-107 | an update keeps every history a sequence of whole user/assistant exchanges |
| AiModel.ApiReply | modules/ai_model.py:116-162 | a missing key or URL gives `抱歉，API 配置不完整。` without any exchange; a response with choices gives its stripped content |
| AiModel.FailureRepliesApologise | modules/ai_model.py:118-162 | every reply that is not a model answer is non-empty and contains `抱歉` |
| AiModel.ChooseApiKey | modules/ai_model.py:17-24 | a non-empty `AI_API_KEY` environment value wins; otherwise the configured key, or empty |
| AiModel.AIModel.constructor | modules/ai_model.py:7-36 | a configuration that is not a dict counts as empty; every setting takes its configured value or its default; the history starts empty |
| AiModel.AIModel.IsQuestion | modules/ai_model.py:52-63 | no keywords means no question; otherwise a question iff some keyword hits the lowered message |
| AiModel.AIModel.ModelFor | modules/ai_model.py:70-75 | the question model exactly when it is set and the message is a question; the default model in every other case (a question with no question model included) |
| AiModel.AIModel.SystemPrompt | modules/ai_model.py:82 | the contact's own prompt if configured, else the default prompt |
| AiModel.AIModel.History | modules/ai_model.py:83 | the stored history of the contact, or empty |
| AiModel.AIModel.ApiMessages | modules/ai_model.py:86-90 | the message list is the system prompt, then the history, then the user message |
| AiModel.AIModel.GenerateReply | modules/ai_model.py:65-110 | no model name gives the fixed error, posts nothing and keeps the history; a request is posted iff model, key and URL are all set, with the assembled message list; a non-empty reply for a named contact appends the exchange and trims with the window as written (so `context_length` 0 keeps everything); otherwise the history is unchanged; every history stays whole user/assistant exchanges, within `2 * context_length` items when that is positive |
| ExportLogs.Category.Label | export_logs.py:35-45 | each category has a non-empty label |
| ExportLogs.Category.Priority | export_logs.py:33-45 | the four tests have four positions in the test order |
| ExportLogs.LabelInjective | export_logs.py:51-56 | the four labels are distinct |
| ExportLogs.Categorize | export_logs.py:25-45 | the category's test holds on the lowered message, and no category checked earlier holds |
| ExportLogs.CategorizeUnique | export_logs.py:25-45 | that description has exactly one solution |
| ExportLogs.OtherIffNoHit | export_logs.py:34-45 | 其他 exactly when there is no link and no keyword of any list |
| ExportLogs.RoadshowKeywordWins | export_logs.py:38-39 | a roadshow keyword gives 路演信息 whatever the other lists hold |
| ExportLogs.AppointmentBeforeOpinion | export_logs.py:40-41 | with no roadshow hit, an appointment keyword wins over every opinion keyword |
| ExportLogs.MeetingLinkIsRoadshow | export_logs.py:34-35 | the link prefix followed by a non-space, in any letter case, gives 路演信息 regardless of keywords |
| ExportLogs.DotsAreWildcards | export_logs.py:34 | the two unescaped dots of the pattern match any character but a newline |
| ExportLogs.CapitalKeywordIgnored | export_logs.py:27 | adding a keyword with an ASCII capital to any list changes no category |
| ExportLogs.AnyKeywordSnocAbsent | export_logs.py:38-43 | a keyword that does not occur adds no hit |
| ExportLogs.EntryRow | export_logs.py:74-82 | a row carries the entry's message and its category |
| ExportLogs.ScanEntries | export_logs.py:72-93 | a file yields no more rows than entries |
| ExportLogs.ValidEntries | export_logs.py:73 | only dict entries with all three keys are kept, in order |
| ExportLogs.ScanKeepsValidEntries | export_logs.py:72-88 | with string messages, the rows are exactly the valid entries, one each, in input order |
| ExportLogs.ScanStopsAtBadMessage | export_logs.py:72-93 | a valid entry whose message is not a string ends the file; the rows before it are kept |
| ExportLogs.MessagesOf | export_logs.py:85-86 | a category list holds no more messages than rows |
| ExportLogs.MessagesPartitionRows | export_logs.py:72-86 | the four per-category message lists together are exactly as long as the row list, so every row lands in exactly one category |
| ExportLogs.MessagesOfMembers | export_logs.py:85-86 | a message is in a category's list iff a row of that category carries it |
| ExportLogs.CategoryList | export_logs.py:85-86 | 其他 never collects messages |
| ExportLogs.CategoryListSnoc | export_logs.py:85-86 | a row adds its message to its own category's list only |
| ExportLogs.ScanFile | export_logs.py:72-93 | the entry loop of one file appends that file's scanned rows and keeps every category list in step with the rows |
| ExportLogs.ProcessLogFiles | export_logs.py:48-95 | the rows are those of all files in order, skipped files contributing none, and each category list holds its rows' messages |
| ExportLogs.VisitedAmong | export_logs.py:104-106 | only non-其他 categories with non-empty lists are summarised, in key order |
| ExportLogs.VisitedAmongMembers | export_logs.py:104-106 | a qualifying category in the key order is summarised |
| ExportLogs.CategoryOrderKeys | export_logs.py:51-56 | the key order lists each of the four categories exactly once |
| ExportLogs.CategoryOrderSummarisesEachOnce | export_logs.py:104-106 | each category is summarised at most once, and exactly when it is not 其他 and its list is non-empty |
| ExportLogs.SummaryInput | export_logs.py:111 | the most recent `max_messages` messages, or all of them if fewer |
| ExportLogs.SummaryInputZeroTakesAll | export_logs.py:111 | a limit of 0 summarises every message |
| ExportLogs.Bullets | export_logs.py:112 | each message becomes one line `- message` |
| ExportLogs.FormatPrompt | export_logs.py:112-114 | the template with `{category}` replaced by the label and `{messages}` by the bullet lines joined with `\n` |
| ExportLogs.AcceptSummary | export_logs.py:120-125 | an empty answer or one containing 抱歉 is stored as `Failed to generate summary.`; any other is stored as is |
| ExportLogs.AcceptedSummaryClean | export_logs.py:120-125 | a stored summary is never empty and never contains 抱歉 |
| ExportLogs.FailedCallGivesFailedSummary | export_logs.py:118-125 | every failure of the chat API is stored as the failure summary |
| ExportLogs.VisitedDistinct | export_logs.py:104 | each category is summarised at most once |
| ExportLogs.SummarizeOne | export_logs.py:104-125 | one loop pass: a qualifying category appends exactly its accepted next answer to the summaries and its filled-in prompt to the prompts; any other category changes neither |
| ExportLogs.SummarizeCategories | export_logs.py:98-127 | the `k`-th summary is the `k`-th qualifying category with its accepted answer, and the `k`-th prompt is the template filled with that category and its recent messages |
| PyStr.Strip | modules/web_monitor.py:384 | `strip()` removes exactly the leading and trailing whitespace: the result is the text after its leading whitespace, and only whitespace follows it in the text; it is empty iff the text is all whitespace, and never starts or ends with whitespace |
| PyStr.SliceFrom | export_logs.py:111 | `s[start:]` is a suffix of `s` of the length Python gives, negative starts counting from the end |
| PyStr.CapitalNeverInLower | export_logs.py:27 | a pattern with an ASCII capital is never found in lowered text |
| PyStr.Lower | modules/web_monitor.py:399 | `lower()` keeps the length and lowers each ASCII capital, leaving every other character |
| PyStr.IsSpace | modules/web_monitor.py:384 | Python's whitespace set; no letter or digit is in it |
| PyStr.Contains | modules/ai_model.py:61 | `sub in s`: the empty string is in every string, and a contained string is no longer than its container |
| PyStr.ContainsPrefix | modules/ai_model.py:61 | a string containing `sub` contains every prefix of it |
| PyStr.Join | export_logs.py:112 | `sep.join(parts)`: one part is returned as is |
| PyStr.ReplaceAll | export_logs.py:114 | replacing a pattern by itself changes nothing |

## Left out

- Selenium and the page: logging in, clicking chats, typing, the element
  queries, `is_browser_alive`, alert dismissal and group detection. What
  they would report are parameters (`initialized`, `typed`, `chatOpened`,
  `lastMessageText`, `isGroup`, the page's message elements, the signatures
  the acknowledgement polls see, `monitorSaysGroup`).
- Threads and locks: each thread runs one step per call. The merge timer is
  an explicit `FlushMerge`, and a timer is only an id (`nextTimerId`).
  Cancelling it is replacing the id.
- Runtime.WeChatAutoRuntime.StopAutomation: the two-second `join` that lets
  the worker drain the queue is not modelled. Pending jobs are failed in
  the same step. Worker steps called before or after it cover the drain.
  A stop that lands during a job's backoff sleep is a failing entry of
  `laterChecks`. When the stop fails a job that the worker is still
  sending, and the worker later overwrites its outcome, only the worker's
  final write is modelled.
- Time and randomness: the clock is a `now` parameter. The deadline of
  `_wait_for_outgoing_ack` is the list of polls made before it. Sleeps are
  returned as a list of delays. The `random.uniform(0, 0.2)` jitter is left
  out.
- Backoff uses Dafny reals, with `1.8 ** n` as repeated multiplication.
  IEEE float rounding is not modelled.
- PyStr.Lower: `str.lower()` is modelled for ASCII letters only. Other
  scripts' case mappings are not modelled.
- `merge.window_sec` is carried but unused, because timers are explicit
  calls.
- `send_text` (waiting on `done` with a timeout), `enqueue_test_payload`
  and the `_wechat08_ok`/`_wechat08_err` response helpers are outside the
  core.
- A send that raises replaces the job's error with the exception message.
  What the exception says is an input (`Raised(message)`).
- JSON serialisation and the websocket send: a broadcast step receives the
  set of connections whose send fails.
- `set.pop()` in the signature cache removes an arbitrary element. The
  model removes some element and states only the size facts, not which
  element goes.
- `check_new_messages` and `get_last_received_message` use the page and
  are not part of this model.
- The HTTP exchange of `_call_openai_api` is the `ApiOutcome` parameter.
  The payload's `max_tokens` and `temperature` and `prepare_headers` are
  not modelled.
- The catch-all of `generate_reply` (`抱歉，处理回复时遇到内部错误。`) is
  not modelled, because nothing in the modelled body raises.
- AiModel.AIModel: a missing model name (`None`) is the empty string. The
  code tests both only for truthiness.
- ExportLogs.FormatPrompt: `str.format` is modelled as replacing
  `{category}` and `{messages}`. Brace escapes and other fields are not
  modelled.
- `glob`, `sorted` and file reading: the decoded files arrive as a list
  in the order they are read. JSON decoding is the `LogFile` value, where
  `Undecodable` is a decode error and `NotAList` is a wrong top-level
  value.
- The Excel export, `load_configuration` and `main` are outside the core.
- ExportLogs.SummarizeCategories: the summaries dict is given as its items
  in insertion order. The model's answers are inputs.
- Logging everywhere, and the `stats["started_at"]` time, are not
  modelled.

## Findings

| source | as written | input that shows it | evidently intended | confidence | as-written member | corrected member |
|---|---|---|---|---|---|---|
| modules/web_monitor.py:401 | `" me" in f" {cls} "` matches every class word that starts with `me` | the default message class `message ng-scope` (modules/web_monitor.py:44) counts as outgoing, so incoming messages are taken for the bot's own | `me` must be a whole class word (`" me "`) | not executed | WebMonitor.IsOutgoingClassAsWritten, shown by WebMonitor.AsWrittenMatchesMessageClass and WebMonitor.SignatureCounterexample; WebMonitor.WebMonitor.SendMessageWithAck uses it through WebMonitor.LastOutgoingSignature, as the code does | WebMonitor.IsOutgoingClass, with WebMonitor.DefaultClassNotOutgoing and WebMonitor.MeTokenMakesOutgoing and WebMonitor.IntendedSignatureSkipsEmptyLast |
| modules/ai_model.py:103-106 | `current_history[-max_history_items:]` with `max_history_items = context_length * 2` | `context_length` 0 with any history: `[-0:]` is the whole list, so the history grows without bound; a negative length drops the oldest entries instead of keeping none | keep the most recent `2 * context_length` items, and none for 0 or below | not executed | AiModel.TrimHistoryAsWritten, shown by AiModel.TrimAsWrittenCounterexample; AiModel.AIModel.GenerateReply uses it, as the code does | AiModel.TrimHistory, with AiModel.TrimAgreesWhenPositive and AiModel.ExchangeKeepsPaired |
