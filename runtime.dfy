/** The automation runtime: the send pipeline with its job registry and
    worker, the merge buffer for incoming messages, and the subscriber hub.
    Threads run one step at a time here: a worker step processes the head of
    the send queue, a timer firing is a call to `FlushMerge`, and a broadcast
    step delivers the head of the outbox. The browser automation is the
    `initialized`, `monitorSaysGroup`, `outcomes` and `laterChecks`
    parameters. */
module Runtime {
  import opened PyStr
  import opened RuntimeModel

  /** The optional `send` section of the configuration. */
  datatype SendConfig = SendConfig(
    requireAck: Option<bool>,
    ackTimeoutSec: Option<real>,
    maxAttempts: Option<int>,
    backoffBaseSec: Option<real>,
    backoffMaxSec: Option<real>)

  /** The optional `merge` section of the configuration. */
  datatype MergeConfig = MergeConfig(
    enabled: Option<bool>,
    windowSec: Option<real>,
    maxMessages: Option<int>,
    maxChars: Option<int>)

  datatype RuntimeConfig = RuntimeConfig(botWxid: Option<string>, send: SendConfig, merge: MergeConfig)

  /** Python's `value or default` on an optional string: an empty string counts as absent. */
  function OrElse(o: Option<string>, default: string): (r: string)
    ensures o.Some? && o.value != "" ==> r == o.value
    ensures o.None? || o.value == "" ==> r == default
  {
    if o.Some? && o.value != "" then o.value else default
  }

  /** What the web monitor hands to the runtime for one incoming message. */
  datatype IncomingEvent = IncomingEvent(
    from: Option<string>,
    sender: Option<string>,
    content: Option<string>,
    timestamp: Option<real>,
    isGroup: Option<bool>)

  function EventContact(e: IncomingEvent): (r: string)
    ensures r != ""
    ensures e.from.Some? && e.from.value != "" ==> r == e.from.value
    ensures !(e.from.Some? && e.from.value != "") && e.sender.Some? && e.sender.value != "" ==> r == e.sender.value
    ensures !(e.from.Some? && e.from.value != "") && !(e.sender.Some? && e.sender.value != "") ==> r == "Unknown"
  {
    OrElse(e.from, OrElse(e.sender, "Unknown"))
  }

  function EventContent(e: IncomingEvent): (r: string)
    ensures e.content.Some? ==> r == e.content.value
    ensures e.content.None? ==> r == ""
  {
    OrElse(e.content, "")
  }

  /** `timestamp or time.time()`: a zero timestamp counts as absent. */
  function EventTimestamp(e: IncomingEvent, now: real): (r: real)
    ensures r == now || (e.timestamp == Some(r) && r != 0.0)
    ensures now != 0.0 ==> r != 0.0
    ensures e.timestamp.Some? && e.timestamp.value != 0.0 ==> r == e.timestamp.value
    ensures !(e.timestamp.Some? && e.timestamp.value != 0.0) ==> r == now
  {
    if e.timestamp.Some? && e.timestamp.value != 0.0 then e.timestamp.value else now
  }

  /** The group flag of the event, or else the monitor's guess when there is a monitor. */
  function EventIsGroup(e: IncomingEvent, monitorPresent: bool, monitorSaysGroup: bool): (r: bool)
    ensures e.isGroup == Some(true) ==> r
    ensures !monitorPresent ==> (r <==> e.isGroup == Some(true))
  {
    e.isGroup.GetOr(false) || (monitorPresent && monitorSaysGroup)
  }

  /** The dictionary `get_send_job` returns. */
  datatype JobView = JobView(jobId: nat, toWxid: string, createdAt: real, done: bool, ok: bool, error: string)

  /** One queued send request; the worker fills in `done`, `ok` and `error`. */
  class SendJob {
    const jobId: nat
    const toWxid: string
    const content: string
    const createdAt: real
    const maxAttempts: int
    const requireAck: bool
    const ackTimeoutSec: real
    var done: bool
    var ok: bool
    var error: string

    constructor (jobId: nat, toWxid: string, content: string, createdAt: real,
                 maxAttempts: int, requireAck: bool, ackTimeoutSec: real)
      ensures this.jobId == jobId && this.toWxid == toWxid && this.content == content
      ensures this.createdAt == createdAt && this.maxAttempts == maxAttempts
      ensures this.requireAck == requireAck && this.ackTimeoutSec == ackTimeoutSec
      ensures !done && !ok && error == ""
    {
      this.jobId := jobId;
      this.toWxid := toWxid;
      this.content := content;
      this.createdAt := createdAt;
      this.maxAttempts := maxAttempts;
      this.requireAck := requireAck;
      this.ackTimeoutSec := ackTimeoutSec;
      done := false;
      ok := false;
      error := "";
    }

    /** The deduplication key `(to_wxid, content)`. */
    function Key(): (string, string) {
      (toWxid, content)
    }
  }

  class WeChatAutoRuntime {
    const botWxid: string
    const sendRequireAck: bool
    const sendAckTimeoutSec: real
    const sendMaxAttempts: int
    const backoffBaseSec: real
    const backoffMaxSec: real
    const mergeEnabled: bool
    const mergeWindowSec: real
    const mergeMaxMessages: int
    const mergeMaxChars: int

    var automationRunning: bool
    var monitorPresent: bool
    /** Whether a send worker is running. */
    var workerAlive: bool

    /** The next id of a published message (`_msg_id`). */
    var nextMsgId: nat
    /** The next job id (`_send_job_id`). */
    var nextJobId: nat
    var outbox: seq<PublishItem>
    /** The send queue; `None` is the worker's stop sentinel. */
    var sendQueue: seq<Option<SendJob>>
    var pending: map<(string, string), SendJob>
    var byId: map<nat, SendJob>

    var mergeBuffers: map<(string, bool), MergeBuffer>
    /** Id for the next merge timer, so each armed timer is a fresh one. */
    var nextTimerId: nat

    var wsClients: map<string, set<nat>>
    var received: nat
    var sent: nat
    var wsConnections: nat

    /** The job registry: ids are issued in order, every pending job is
        registered, undone and still queued, and every queued job is registered. */
    ghost predicate JobsValid()
      reads this`nextJobId, this`byId, this`pending, this`sendQueue, pending.Values`done
    {
      Registry(None)
    }

    /** `JobsValid` while the worker holds `taken`, a job just taken off the queue. */
    ghost predicate Registry(taken: Option<SendJob>)
      reads this`nextJobId, this`byId, this`pending, this`sendQueue, pending.Values`done
    {
      && nextJobId >= 1
      && (forall id :: id in byId ==> 1 <= id < nextJobId && byId[id].jobId == id)
      && (forall k :: k in pending ==>
            && pending[k].jobId in byId && byId[pending[k].jobId] == pending[k]
            && pending[k].Key() == k && !pending[k].done
            && (taken == Some(pending[k]) || Some(pending[k]) in sendQueue))
      && (forall i :: 0 <= i < |sendQueue| && sendQueue[i].Some? ==>
            sendQueue[i].value.jobId in byId && byId[sendQueue[i].value.jobId] == sendQueue[i].value)
    }

    /** Every merge buffer holds at least one part, and its timer is one already issued. */
    ghost predicate MergeValid()
      reads this`mergeBuffers, this`nextTimerId
    {
      forall key :: key in mergeBuffers ==>
        mergeBuffers[key].parts != [] &&
        (mergeBuffers[key].timer.Some? ==> mergeBuffers[key].timer.value < nextTimerId)
    }

    /** No account is kept with an empty set, and the connection count is the sum of the set sizes. */
    ghost predicate HubValid()
      reads this`wsClients, this`wsConnections
    {
      && (forall a :: a in wsClients ==> wsClients[a] != {})
      && wsConnections == ConnectionCount(wsClients)
    }

    /** The runtime's invariant. Each method below requires and ensures the
        part of it over the fields it modifies; the field-level reads clauses
        carry the other parts over unchanged. */
    ghost predicate Valid()
      reads this`nextJobId, this`byId, this`pending, this`sendQueue, pending.Values`done
      reads this`mergeBuffers, this`nextTimerId, this`wsClients, this`wsConnections
    {
      JobsValid() && MergeValid() && HubValid()
    }

    constructor (cfg: RuntimeConfig)
      ensures Valid()
      ensures botWxid == OrElse(cfg.botWxid, "wxid_unknown")
      ensures sendRequireAck == cfg.send.requireAck.GetOr(true)
      ensures sendAckTimeoutSec == cfg.send.ackTimeoutSec.GetOr(3.0)
      ensures sendMaxAttempts == cfg.send.maxAttempts.GetOr(3)
      ensures backoffBaseSec == cfg.send.backoffBaseSec.GetOr(0.6)
      ensures backoffMaxSec == cfg.send.backoffMaxSec.GetOr(4.0)
      ensures mergeEnabled == cfg.merge.enabled.GetOr(true)
      ensures mergeWindowSec == cfg.merge.windowSec.GetOr(0.8)
      ensures mergeMaxMessages == cfg.merge.maxMessages.GetOr(5)
      ensures mergeMaxChars == cfg.merge.maxChars.GetOr(2000)
      ensures !automationRunning && !monitorPresent && !workerAlive
      ensures nextMsgId == 1 && nextJobId == 1 && outbox == [] && sendQueue == []
      ensures pending == map[] && byId == map[] && mergeBuffers == map[] && wsClients == map[]
      ensures received == 0 && sent == 0 && wsConnections == 0
    {
      botWxid := OrElse(cfg.botWxid, "wxid_unknown");
      sendRequireAck := cfg.send.requireAck.GetOr(true);
      sendAckTimeoutSec := cfg.send.ackTimeoutSec.GetOr(3.0);
      sendMaxAttempts := cfg.send.maxAttempts.GetOr(3);
      backoffBaseSec := cfg.send.backoffBaseSec.GetOr(0.6);
      backoffMaxSec := cfg.send.backoffMaxSec.GetOr(4.0);
      mergeEnabled := cfg.merge.enabled.GetOr(true);
      mergeWindowSec := cfg.merge.windowSec.GetOr(0.8);
      mergeMaxMessages := cfg.merge.maxMessages.GetOr(5);
      mergeMaxChars := cfg.merge.maxChars.GetOr(2000);
      automationRunning := false;
      monitorPresent := false;
      workerAlive := false;
      nextMsgId := 1;
      nextJobId := 1;
      outbox := [];
      sendQueue := [];
      pending := map[];
      byId := map[];
      mergeBuffers := map[];
      nextTimerId := 0;
      wsClients := map[];
      received := 0;
      sent := 0;
      wsConnections := 0;
    }

    // -------------------------------------------------------------------
    // Automation on and off
    // -------------------------------------------------------------------

    /** `start_automation`; `initialized` is what the monitor's login reported. */
    method StartAutomation(initialized: bool) returns (ok: bool)
      modifies this`automationRunning, this`monitorPresent, this`workerAlive
      ensures old(automationRunning) ==> ok && unchanged(this)
      ensures !old(automationRunning) ==>
        && ok == initialized && automationRunning == initialized && monitorPresent == initialized
        && workerAlive == (initialized || old(workerAlive))
    {
      if automationRunning {
        return true;
      }
      if !initialized {
        monitorPresent := false;
        return false;
      }
      automationRunning := true;
      monitorPresent := true;
      workerAlive := true;
      ok := true;
    }

    /** Marks each of `jobs` finished and failed with `error`. */
    static method FailJobs(jobs: set<SendJob>, error: string)
      modifies jobs`ok, jobs`error, jobs`done
      ensures forall j :: j in jobs ==> j.done && !j.ok && j.error == error
    {
      forall j | j in jobs {
        j.ok := false;
      }
      forall j | j in jobs {
        j.error := error;
      }
      forall j | j in jobs {
        j.done := true;
      }
    }

    /** `stop_automation`: fails every pending job, queues the stop sentinel
        and drops the merge buffers without emitting them. */
    method StopAutomation()
      requires JobsValid()
      modifies this`automationRunning, this`monitorPresent, this`workerAlive
      modifies this`sendQueue, this`pending, this`mergeBuffers, pending.Values`ok, pending.Values`error, pending.Values`done
      ensures JobsValid() && MergeValid()
      ensures !automationRunning && !monitorPresent && !workerAlive
      ensures sendQueue == old(sendQueue) + [None]
      ensures pending == map[] && mergeBuffers == map[]
      ensures forall j :: j in old(pending).Values ==> j.done && !j.ok && j.error == "automation stopped"
    {
      automationRunning := false;
      monitorPresent := false;
      sendQueue := sendQueue + [None];
      workerAlive := false;
      var jobs := pending.Values;
      pending := map[];
      mergeBuffers := map[];
      FailJobs(jobs, "automation stopped");
    }

    // -------------------------------------------------------------------
    // Send pipeline
    // -------------------------------------------------------------------

    /** `enqueue_text`: returns `(accepted, job_id)`. */
    method EnqueueText(toWxid: string, content: string, now: real) returns (accepted: bool, jobId: nat)
      requires JobsValid()
      modifies this`workerAlive, this`nextJobId, this`pending, this`byId, this`sendQueue
      ensures JobsValid()
      ensures IsBlank(content) || !old(automationRunning && monitorPresent) ==>
        && !accepted && jobId == 0
        && pending == old(pending) && byId == old(byId) && sendQueue == old(sendQueue)
        && nextJobId == old(nextJobId) && workerAlive == old(workerAlive)
      ensures !IsBlank(content) && old(automationRunning && monitorPresent) ==> accepted && workerAlive
      ensures !IsBlank(content) && old(automationRunning && monitorPresent) && (toWxid, content) in old(pending) ==>
        && jobId == old(pending)[(toWxid, content)].jobId
        && pending == old(pending) && byId == old(byId) && sendQueue == old(sendQueue)
        && nextJobId == old(nextJobId)
      ensures !IsBlank(content) && old(automationRunning && monitorPresent) && (toWxid, content) !in old(pending) ==>
        && jobId == old(nextJobId) && nextJobId == old(nextJobId) + 1
        && (forall id :: id in old(byId) ==> id < jobId)
        && jobId in byId && fresh(byId[jobId])
        && byId == old(byId)[jobId := byId[jobId]]
        && pending == old(pending)[(toWxid, content) := byId[jobId]]
        && sendQueue == old(sendQueue) + [Some(byId[jobId])]
        && byId[jobId].jobId == jobId && byId[jobId].toWxid == toWxid && byId[jobId].content == content
        && byId[jobId].createdAt == now && byId[jobId].maxAttempts == sendMaxAttempts
        && byId[jobId].requireAck == sendRequireAck && byId[jobId].ackTimeoutSec == sendAckTimeoutSec
        && !byId[jobId].done && !byId[jobId].ok && byId[jobId].error == ""
    {
      if IsBlank(content) {
        return false, 0;
      }
      if !automationRunning || !monitorPresent {
        return false, 0;
      }
      workerAlive := true;
      var key := (toWxid, content);
      if key in pending {
        return true, pending[key].jobId;
      }
      jobId := CreateJob(toWxid, content, now);
      accepted := true;
    }

    /** The new-job branch of `enqueue_text`: issue the next id, register
        the job under its id and its key, and queue it. */
    method CreateJob(toWxid: string, content: string, now: real) returns (jobId: nat)
      requires JobsValid() && (toWxid, content) !in pending
      modifies this`nextJobId, this`pending, this`byId, this`sendQueue
      ensures JobsValid()
      ensures jobId == old(nextJobId) && nextJobId == old(nextJobId) + 1
      ensures (forall id :: id in old(byId) ==> id < jobId)
      ensures jobId in byId && fresh(byId[jobId])
      ensures byId == old(byId)[jobId := byId[jobId]]
      ensures pending == old(pending)[(toWxid, content) := byId[jobId]]
      ensures sendQueue == old(sendQueue) + [Some(byId[jobId])]
      ensures byId[jobId].jobId == jobId && byId[jobId].toWxid == toWxid && byId[jobId].content == content
      ensures byId[jobId].createdAt == now && byId[jobId].maxAttempts == sendMaxAttempts
      ensures byId[jobId].requireAck == sendRequireAck && byId[jobId].ackTimeoutSec == sendAckTimeoutSec
      ensures !byId[jobId].done && !byId[jobId].ok && byId[jobId].error == ""
    {
      jobId := nextJobId;
      nextJobId := nextJobId + 1;
      var job := new SendJob(jobId, toWxid, content, now, sendMaxAttempts, sendRequireAck, sendAckTimeoutSec);
      pending := pending[(toWxid, content) := job];
      byId := byId[jobId := job];
      sendQueue := sendQueue + [Some(job)];
    }

    /** `get_send_job`: a snapshot of a job, or `None` for an id never issued. */
    method GetSendJob(id: int) returns (r: Option<JobView>)
      requires JobsValid()
      ensures r.None? <==> !(id >= 0 && id in byId)
      ensures id < 1 || id >= nextJobId ==> r.None?
      ensures r.Some? ==>
        && r.value.jobId == id && r.value.toWxid == byId[id].toWxid
        && r.value.createdAt == byId[id].createdAt && r.value.done == byId[id].done
        && r.value.ok == byId[id].ok && r.value.error == byId[id].error
    {
      if id < 0 || id !in byId {
        return None;
      }
      var job := byId[id];
      r := Some(JobView(job.jobId, job.toWxid, job.createdAt, job.done, job.ok, job.error));
    }

    /** `_publish_self_send`: the echo of a message the bot sent. */
    method PublishSelfSend(toWxid: string, content: string, now: real)
      modifies this`outbox, this`nextMsgId
      ensures outbox == old(outbox) + [SelfSendItem(botWxid, toWxid, content, old(nextMsgId), TruncateReal(now))]
      ensures nextMsgId == old(nextMsgId) + 1
    {
      outbox := outbox + [SelfSendItem(botWxid, toWxid, content, nextMsgId, TruncateReal(now))];
      nextMsgId := nextMsgId + 1;
    }

    /** `_perform_send_job`. `outcomes[k]` is what the monitor's send did on
        attempt `k + 1`; `laterChecks[k]` is whether automation was still
        running with a monitor when attempt `k + 2` began (a stop from
        another thread during the backoff sleep makes it false), while the
        check before attempt 1 reads the current state. The result lists the
        calls made and the sleeps taken. A successful attempt counts the
        message as sent and publishes its echo. */
    method PerformSendJob(job: SendJob, outcomes: seq<SendOutcome>, laterChecks: seq<bool>, now: real)
      returns (ok: bool, calls: seq<MonitorCall>, delays: seq<real>)
      requires AttemptLimit(job.maxAttempts) <= |outcomes|
      requires AttemptLimit(job.maxAttempts) <= |laterChecks| + 1
      modifies this`sent, this`outbox, this`nextMsgId, job`error
      ensures var limit := AttemptLimit(job.maxAttempts);
        var checks := [old(automationRunning && monitorPresent)] + laterChecks;
        && ok == SendSucceeded(checks, outcomes, limit)
        && job.error == ErrorAfterSend(checks, outcomes, limit, old(job.error))
        && calls == Repeat(MonitorCall(StripChatroomSuffix(job.toWxid), job.content, job.requireAck, job.ackTimeoutSec),
                           CallsMade(checks, outcomes, limit))
        && delays == RetryDelays(backoffBaseSec, backoffMaxSec, SleepsMade(checks, outcomes, limit))
      ensures sent == old(sent) + (if ok then 1 else 0)
      ensures nextMsgId == old(nextMsgId) + (if ok then 1 else 0)
      ensures outbox == old(outbox) +
        (if ok then [SelfSendItem(botWxid, job.toWxid, job.content, old(nextMsgId), TruncateReal(now))] else [])
    {
      ok, calls, delays := AttemptSends(job, outcomes, laterChecks);
      if ok {
        sent := sent + 1;
        PublishSelfSend(job.toWxid, job.content, now);
      }
    }

    /** The retry loop of `_perform_send_job`, up to the attempt that
        succeeds: checks that automation runs before each attempt (the
        current state, then `laterChecks`), keeps the message of the last
        exception, and sleeps between attempts. The loop itself is
        `RetryAttempts`; the job's error is the one it ends with. */
    method AttemptSends(job: SendJob, outcomes: seq<SendOutcome>, laterChecks: seq<bool>)
      returns (ok: bool, calls: seq<MonitorCall>, delays: seq<real>)
      requires AttemptLimit(job.maxAttempts) <= |outcomes|
      requires AttemptLimit(job.maxAttempts) <= |laterChecks| + 1
      modifies job`error
      ensures var limit := AttemptLimit(job.maxAttempts);
        var checks := [automationRunning && monitorPresent] + laterChecks;
        && ok == SendSucceeded(checks, outcomes, limit)
        && job.error == ErrorAfterSend(checks, outcomes, limit, old(job.error))
        && calls == Repeat(MonitorCall(StripChatroomSuffix(job.toWxid), job.content, job.requireAck, job.ackTimeoutSec),
                           CallsMade(checks, outcomes, limit))
        && delays == RetryDelays(backoffBaseSec, backoffMaxSec, SleepsMade(checks, outcomes, limit))
    {
      var limit := AttemptLimit(job.maxAttempts);
      var checks := [automationRunning && monitorPresent] + laterChecks;
      var call := MonitorCall(StripChatroomSuffix(job.toWxid), job.content, job.requireAck, job.ackTimeoutSec);
      var error;
      ok, calls, delays, error := RetryAttempts(checks, outcomes, limit, call, backoffBaseSec, backoffMaxSec, job.error);
      job.error := error;
    }

    /** The jobs a worker step may update: the one at the head of the queue. */
    function QueueHead(): set<SendJob>
      reads this
    {
      if sendQueue != [] && sendQueue[0].Some? then {sendQueue[0].value} else {}
    }

    /** One turn of the send worker's `_loop`: take the head of the queue;
        stop on the sentinel; otherwise perform the job, record its outcome,
        mark it done and drop its key from the pending map. An empty queue
        blocks, which here changes nothing. */
    method WorkerStep(outcomes: seq<SendOutcome>, laterChecks: seq<bool>, now: real)
      returns (exited: bool, job: Option<SendJob>)
      requires JobsValid()
      requires sendQueue != [] && sendQueue[0].Some? ==>
        AttemptLimit(sendQueue[0].value.maxAttempts) <= |outcomes|
        && AttemptLimit(sendQueue[0].value.maxAttempts) <= |laterChecks| + 1
      modifies this`sendQueue, this`workerAlive, this`pending, this`sent, this`outbox, this`nextMsgId, QueueHead()
      ensures JobsValid()
      ensures old(sendQueue) == [] ==> !exited && job.None? && unchanged(this)
      ensures old(sendQueue) != [] ==> sendQueue == old(sendQueue)[1..] && job == old(sendQueue)[0]
      ensures old(sendQueue) != [] && old(sendQueue)[0].None? ==>
        && exited && !workerAlive && pending == old(pending) && byId == old(byId)
        && outbox == old(outbox) && sent == old(sent)
      ensures old(sendQueue) != [] && job.Some? ==>
        var j := job.value;
        var limit := AttemptLimit(j.maxAttempts);
        var checks := [automationRunning && monitorPresent] + laterChecks;
        && !exited && j.done
        && j.ok == SendSucceeded(checks, outcomes, limit)
        && j.error == WorkerError(j.ok, ErrorAfterSend(checks, outcomes, limit, old(j.error)))
        && pending == old(pending) - {j.Key()} && byId == old(byId)
        && sent == old(sent) + (if j.ok then 1 else 0)
        && outbox == old(outbox) +
             (if j.ok then [SelfSendItem(botWxid, j.toWxid, j.content, old(nextMsgId), TruncateReal(now))] else [])
    {
      exited, job := false, None;
      if sendQueue == [] {
        return;
      }
      job := TakeHead();
      if job.None? {
        workerAlive := false;
        exited := true;
        return;
      }
      RunJob(job.value, outcomes, laterChecks, now);
    }

    /** The body of a worker turn for the job `j` just taken off the queue. */
    method RunJob(j: SendJob, outcomes: seq<SendOutcome>, laterChecks: seq<bool>, now: real)
      requires Registry(Some(j)) && j.jobId in byId && byId[j.jobId] == j
      requires AttemptLimit(j.maxAttempts) <= |outcomes| && AttemptLimit(j.maxAttempts) <= |laterChecks| + 1
      modifies this`pending, this`sent, this`outbox, this`nextMsgId, j`ok, j`error, j`done
      ensures JobsValid()
      ensures var limit := AttemptLimit(j.maxAttempts);
        var checks := [automationRunning && monitorPresent] + laterChecks;
        && j.done
        && j.ok == SendSucceeded(checks, outcomes, limit)
        && j.error == WorkerError(j.ok, ErrorAfterSend(checks, outcomes, limit, old(j.error)))
        && pending == old(pending) - {j.Key()}
        && sent == old(sent) + (if j.ok then 1 else 0)
        && outbox == old(outbox) +
             (if j.ok then [SelfSendItem(botWxid, j.toWxid, j.content, old(nextMsgId), TruncateReal(now))] else [])
    {
      var ok, _, _ := PerformSendJob(j, outcomes, laterChecks, now);
      CompleteJob(j, ok);
    }

    /** `self._send_queue.get()` on a non-empty queue. */
    method TakeHead() returns (job: Option<SendJob>)
      requires JobsValid() && sendQueue != []
      modifies this`sendQueue
      ensures job == old(sendQueue)[0] && sendQueue == old(sendQueue)[1..]
      ensures job.None? ==> JobsValid()
      ensures job.Some? ==> Registry(job) && job.value.jobId in byId && byId[job.value.jobId] == job.value
    {
      var q := sendQueue;
      job := sendQueue[0];
      sendQueue := sendQueue[1..];
      forall k | k in pending
        ensures job == Some(pending[k]) || Some(pending[k]) in sendQueue
      {
        if job != Some(pending[k]) {
          QueuedBehindHead(q, pending[k], job);
        }
      }
    }

    /** A job queued behind the head is still queued once the head is taken. */
    static lemma QueuedBehindHead(q: seq<Option<SendJob>>, x: SendJob, head: Option<SendJob>)
      requires q != [] && q[0] == head && Some(x) in q && head != Some(x)
      ensures Some(x) in q[1..]
    {
      var i :| 0 <= i < |q| && q[i] == Some(x);
      assert q[1..][i - 1] == q[i];
    }

    /** The end of a worker turn: record the outcome of the held job `j`,
        mark it done and drop its key from the pending map. */
    method CompleteJob(j: SendJob, ok: bool)
      requires Registry(Some(j))
      requires j.jobId in byId && byId[j.jobId] == j
      modifies j`ok, j`error, j`done, this`pending
      ensures JobsValid()
      ensures j.ok == ok && j.error == WorkerError(ok, old(j.error)) && j.done
      ensures pending == old(pending) - {j.Key()}
    {
      pending := pending - {j.Key()};
      j.ok := ok;
      j.error := WorkerError(ok, j.error);
      j.done := true;
    }

    // -------------------------------------------------------------------
    // Incoming messages and the merge buffer
    // -------------------------------------------------------------------

    /** `_emit_incoming_message`. */
    method EmitIncoming(contact: string, content: string, ts: real, isGroup: bool, now: real)
      modifies this`outbox, this`nextMsgId, this`received
      ensures outbox == old(outbox) + [IncomingItem(botWxid, contact, content, ts, isGroup, old(nextMsgId), TruncateReal(now))]
      ensures nextMsgId == old(nextMsgId) + 1 && received == old(received) + 1
    {
      outbox := outbox + [IncomingItem(botWxid, contact, content, ts, isGroup, nextMsgId, TruncateReal(now))];
      nextMsgId := nextMsgId + 1;
      received := received + 1;
    }

    /** What flushing buffer `buf` of `key` publishes. */
    function FlushOutput(key: (string, bool), buf: MergeBuffer, msgId: nat, now: real): (items: seq<PublishItem>)
      ensures MergedContent(buf.parts).None? ==> items == []
      ensures MergedContent(buf.parts).Some? ==>
        items == [IncomingItem(botWxid, key.0, MergedContent(buf.parts).value,
                               FlushTimestamp(buf.lastTs, now), key.1, msgId, TruncateReal(now))]
    {
      match MergedContent(buf.parts)
      case None => []
      case Some(text) =>
        [IncomingItem(botWxid, key.0, text, FlushTimestamp(buf.lastTs, now), key.1, msgId, TruncateReal(now))]
    }

    /** `_flush_merge`: pop the buffer of `key` and publish its non-blank parts. */
    method FlushMerge(key: (string, bool), now: real)
      requires MergeValid()
      modifies this`mergeBuffers, this`outbox, this`nextMsgId, this`received
      ensures MergeValid()
      ensures mergeBuffers == old(mergeBuffers) - {key}
      ensures key !in old(mergeBuffers) ==>
        outbox == old(outbox) && nextMsgId == old(nextMsgId) && received == old(received)
      ensures key in old(mergeBuffers) ==>
        var items := FlushOutput(key, old(mergeBuffers)[key], old(nextMsgId), now);
        && outbox == old(outbox) + items
        && nextMsgId == old(nextMsgId) + |items| && received == old(received) + |items|
    {
      if key !in mergeBuffers {
        return;
      }
      var buf := mergeBuffers[key];
      mergeBuffers := mergeBuffers - {key};
      var merged := MergedContent(buf.parts);
      if merged.None? {
        return;
      }
      EmitIncoming(key.0, merged.value, FlushTimestamp(buf.lastTs, now), key.1, now);
    }

    /** `_handle_incoming_from_web_monitor`. `monitorSaysGroup` is what the
        monitor's group heuristic answers. */
    method HandleIncoming(e: IncomingEvent, monitorSaysGroup: bool, now: real)
      requires MergeValid()
      modifies this`mergeBuffers, this`nextTimerId, this`outbox, this`nextMsgId, this`received
      ensures MergeValid()
      ensures
        var contact := EventContact(e);
        var content := EventContent(e);
        var ts := EventTimestamp(e, now);
        var isGroup := EventIsGroup(e, monitorPresent, monitorSaysGroup);
        var key := (contact, isGroup);
        var parts := (if key in old(mergeBuffers) then old(mergeBuffers)[key].parts else []) + [content];
        if !mergeEnabled then
          && mergeBuffers == old(mergeBuffers) && nextTimerId == old(nextTimerId)
          && outbox == old(outbox) + [IncomingItem(botWxid, contact, content, ts, isGroup, old(nextMsgId), TruncateReal(now))]
          && nextMsgId == old(nextMsgId) + 1 && received == old(received) + 1
        else if FlushThresholdReached(parts, mergeMaxMessages, mergeMaxChars) then
          var items := FlushOutput(key, MergeBuffer(parts, ts, None), old(nextMsgId), now);
          && mergeBuffers == old(mergeBuffers) - {key} && nextTimerId == old(nextTimerId)
          && outbox == old(outbox) + items
          && nextMsgId == old(nextMsgId) + |items| && received == old(received) + |items|
        else
          && mergeBuffers == old(mergeBuffers)[key := MergeBuffer(parts, ts, Some(old(nextTimerId)))]
          && nextTimerId == old(nextTimerId) + 1
          && outbox == old(outbox) && nextMsgId == old(nextMsgId) && received == old(received)
    {
      var contact := EventContact(e);
      var content := EventContent(e);
      var ts := EventTimestamp(e, now);
      var isGroup := EventIsGroup(e, monitorPresent, monitorSaysGroup);
      if !mergeEnabled {
        EmitIncoming(contact, content, ts, isGroup, now);
        return;
      }
      var key := (contact, isGroup);
      var parts := (if key in mergeBuffers then mergeBuffers[key].parts else []) + [content];
      var flushNow := FlushThresholdReached(parts, mergeMaxMessages, mergeMaxChars);
      if flushNow {
        // the source leaves the cancelled timer in the buffer; here a
        // cancelled timer is simply no timer, and the flush pops the buffer
        mergeBuffers := mergeBuffers[key := MergeBuffer(parts, ts, None)];
        FlushMerge(key, now);
        assert mergeBuffers == old(mergeBuffers) - {key};
      } else {
        mergeBuffers := mergeBuffers[key := MergeBuffer(parts, ts, Some(nextTimerId))];
        nextTimerId := nextTimerId + 1;
      }
    }

    // -------------------------------------------------------------------
    // Subscriber hub
    // -------------------------------------------------------------------

    /** `ws_register`. */
    method WsRegister(account: string, ws: nat)
      requires HubValid()
      modifies this`wsClients, this`wsConnections
      ensures HubValid()
      ensures wsClients == old(wsClients)[account := (if account in old(wsClients) then old(wsClients)[account] else {}) + {ws}]
    {
      var conns := if account in wsClients then wsClients[account] else {};
      wsClients := wsClients[account := conns + {ws}];
      wsConnections := CountConnections(wsClients);
    }

    /** `ws_unregister`: remove one connection, and the account once it has none. */
    method WsUnregister(account: string, ws: nat)
      requires HubValid()
      modifies this`wsClients, this`wsConnections
      ensures HubValid()
      ensures wsClients == Evict(old(wsClients), account, {ws})
    {
      if account in wsClients && ws in wsClients[account] {
        if wsClients[account] - {ws} == {} {
          wsClients := wsClients - {account};
        } else {
          wsClients := wsClients[account := wsClients[account] - {ws}];
        }
      }
      wsConnections := CountConnections(wsClients);
      if account in old(wsClients) && ws !in old(wsClients)[account] {
        assert old(wsClients)[account] - {ws} == old(wsClients)[account];
        assert old(wsClients)[account := old(wsClients)[account]] == old(wsClients);
      }
    }

    /** One turn of `ws_broadcast_loop`: deliver the head of the outbox to the
        account's connections; those in `failed` raise on send and are evicted. */
    method BroadcastStep(failed: set<nat>) returns (item: Option<PublishItem>, delivered: set<nat>)
      requires HubValid()
      modifies this`outbox, this`wsClients, this`wsConnections
      ensures HubValid()
      ensures old(outbox) == [] ==> item.None? && delivered == {} && unchanged(this)
      ensures old(outbox) != [] ==>
        var a := old(outbox)[0].accountWxid;
        var clients := if a in old(wsClients) then old(wsClients)[a] else {};
        && item == Some(old(outbox)[0]) && outbox == old(outbox)[1..]
        && delivered == clients - failed
        && wsClients == Evict(old(wsClients), a, clients * failed)
    {
      item, delivered := None, {};
      if outbox == [] {
        return;
      }
      var it := outbox[0];
      item := Some(it);
      outbox := outbox[1..];
      var a := it.accountWxid;
      var clients := if a in wsClients then wsClients[a] else {};
      if clients == {} {
        return;
      }
      var stale := clients * failed;
      delivered := clients - failed;
      if stale != {} {
        if clients - stale == {} {
          wsClients := wsClients - {a};
        } else {
          wsClients := wsClients[a := clients - stale];
        }
        wsConnections := CountConnections(wsClients);
      } else {
        assert a in wsClients && clients - stale == clients;
        assert wsClients[a := clients] == wsClients;
      }
    }
  }
}
