/** The per-task job engine of server.js: a `Task` whose fields the source
    updates in place. Every timer or library callback of the source is one
    method here, fired explicitly; the wall clock is the `now` parameter
    (milliseconds). */
module TaskEngine {
  import opened Base
  import opened Lines

  const MaxLogs := 100            // addLog keeps at most this many entries
  const StaleWindowMs := 300000   // healthCheck: five minutes without a log entry
  const MaxLoginRetries := 50     // this.maxRetries
  const MaxSendRetries := 10      // maxSendRetries in sendMessageWithRetry
  const DefaultMaxRestarts := 1000
  const DefaultDelay := 5

  // ------------------------------------------------------------------ data

  /** What the control panel sent when the task was created. `prefix` and
      `suffix` are the source's `hatersName` and `lastHereName`; `delay` is
      the number the panel sends, None when the field is absent (the panel
      itself sends `parseInt(...) || 5`). */
  datatype UserData = UserData(
    credential: string,
    messageContent: string,
    prefix: string,
    threadID: string,
    suffix: string,
    delay: Option<int>)

  /** `task.config`. */
  datatype Config = Config(
    prefix: string,
    delay: int,
    running: bool,
    api: Option<Handle>,
    repeat: bool,
    lastActivity: int,
    restartCount: nat,
    maxRestarts: int)

  /** `task.messageData`: the send queue and its cursor. */
  datatype MessageData = MessageData(
    threadID: string,
    messages: seq<string>,
    currentIndex: nat,
    loopCount: nat)

  /** `task.stats`. */
  datatype Stats = Stats(
    sent: nat,
    failed: nat,
    activeCookies: nat,
    loops: nat,
    restarts: nat,
    lastSuccess: Option<int>)

  datatype Severity = Info | Success | Error

  /** The log lines the task emits, by kind (their wording and the formatted
      clock time are not modelled). Indices are the 0-based cursor positions. */
  datatype LogEvent =
    | LoadedMessages(count: nat)
    | AlreadyRunning
    | CredentialSaved
    | CredentialSaveFailed
    | NoMessages
    | Starting(count: nat)
    | LoginFailed
    | LoginRetryScheduled(attempt: nat)
    | LoginRetriesExhausted
    | LoggedIn
    | LoopCompleted(loop: nat)
    | SendRetry(attempt: nat, index: nat)
    | SendAbandoned(index: nat)
    | Sent(index: nat)
    | SendCrashed
    | Restarting
    | RestartsExhausted
    | StoppedByUser
    | SessionKept

  datatype LogEntry = LogEntry(event: LogEvent, severity: Severity)

  /** One message handed to the send call: the handle the sending chain
      carries, the text (None when the queue is empty and the source reads
      `undefined`), its cursor position, the queue length, and how many
      retries preceded it. */
  datatype Attempt = Attempt(api: Handle, message: Option<string>, index: nat, total: nat, retry: nat)

  /** The value `start()` resolves to: true/false at once, or the outcome of
      the login it has just requested. */
  datatype StartResult = Finished(ok: bool) | LoginRequested

  /** How the login call ends: its callback receives an error or no handle,
      or a handle; or the call itself throws inside the Promise executor, so
      that no callback runs and the Promise rejects. */
  datatype LoginOutcome = LoginFailure | LoginSuccess(api: Handle) | LoginThrew

  /** What happens after the login call. `LoginStalled`: nothing is
      scheduled and the task stays as it was (only the stuck-task sweep
      recovers it). */
  datatype LoginNext = RetryLoginLater | LoginAbandoned | BeginSending(api: Handle) | LoginStalled

  /** What the send callback schedules: the same attempt again after the
      retry pause, the next message after `delay` seconds, or nothing. */
  datatype SendNext = RetryAfterPause(attempt: Attempt) | NextAfterDelay(api: Handle) | Idle

  /** What `getDetails()` reports. */
  datatype Details = Details(
    taskId: string, sent: nat, failed: nat, activeCookies: nat, loops: nat,
    restarts: nat, logs: seq<LogEntry>, running: bool, uptime: int)

  // ------------------------------------------------------------------ pure parts

  /** `userData.delay || 5`: an absent or zero delay becomes 5, any other
      value (negative ones included) is kept. */
  function EffectiveDelay(d: Option<int>): (r: int)
    ensures r != 0
    ensures d.Some? && d.value != 0 ==> r == d.value
    ensures d.None? || d.value == 0 ==> r == DefaultDelay
  {
    match d
    case None => DefaultDelay
    case Some(x) => if x == 0 then DefaultDelay else x
  }

  /** One raw line as initializeMessages cleans it. */
  function CleanLine(line: string): string {
    Trim(RemoveCR(line))
  }

  function CleanLines(lines: seq<string>): (r: seq<string>)
    ensures |r| == |lines|
  {
    seq(|lines|, k requires 0 <= k < |lines| => CleanLine(lines[k]))
  }

  /** initializeMessages: split on newlines, drop `\r`, trim, keep the
      non-empty lines, wrap each as `prefix line suffix`. */
  function ExpandMessages(content: string, prefix: string, suffix: string): seq<string> {
    var kept := KeepNonEmpty(CleanLines(SplitLines(content)));
    seq(|kept|, k requires 0 <= k < |kept| => prefix + " " + kept[k] + " " + suffix)
  }

  /** The queue holds exactly the non-blank lines of the text, in order, each
      cleaned and wrapped: entry k is line `p[k]` of the text for strictly
      increasing positions `p`, and every line that is not blank after `\r`
      removal and trimming has its position in `p`. */
  lemma ExpandMessagesExact(content: string, prefix: string, suffix: string)
    ensures var lines := SplitLines(content);
            var q := ExpandMessages(content, prefix, suffix);
            var p := NonEmptyPositions(CleanLines(lines));
            JoinLines(lines) == content
            && |q| == |p|
            && (forall k :: 0 <= k < |q| ==>
                  p[k] < |lines|
                  && CleanLine(lines[p[k]]) != ""
                  && IsTrimmed(CleanLine(lines[p[k]]))
                  && q[k] == prefix + " " + CleanLine(lines[p[k]]) + " " + suffix)
            && (forall k, l :: 0 <= k < l < |p| ==> p[k] < p[l])
            && (forall j :: 0 <= j < |lines| && CleanLine(lines[j]) != "" ==> j in p)
  {
    var lines := SplitLines(content);
    SplitJoin(content);
    var cleaned := CleanLines(lines);
    KeepNonEmptyExact(cleaned);
    var p := NonEmptyPositions(cleaned);
    forall k | 0 <= k < |p| ensures IsTrimmed(CleanLine(lines[p[k]])) {
      TrimExact(RemoveCR(lines[p[k]]));
    }
    forall j | 0 <= j < |lines| && CleanLine(lines[j]) != "" ensures j in p {
      assert cleaned[j] == CleanLine(lines[j]);
    }
  }

  /** addLog's buffer update: `unshift` the entry, then keep the first 100. */
  function PushLog(logs: seq<LogEntry>, e: LogEntry): (r: seq<LogEntry>)
    ensures |r| <= MaxLogs
    ensures |r| == if |logs| < MaxLogs then |logs| + 1 else MaxLogs
    ensures r[0] == e
    ensures r[1..] == logs[..|r| - 1]
  {
    var l := [e] + logs;
    if |l| > MaxLogs then l[..MaxLogs] else l
  }

  /** The cursor of the message loop: `(currentIndex, loopCount)`. */
  datatype Cursor = Cursor(index: nat, loops: nat)

  /** The wrap check at the top of sendNextMessage. */
  function WrapCursor(c: Cursor, total: nat): Cursor {
    if c.index >= total then Cursor(0, c.loops + 1) else c
  }

  /** The cursor after `n` resolved sends (sent, or abandoned after the last
      retry) from a fresh task: each one wraps, then advances by one. */
  function CursorAfter(n: nat, total: nat): Cursor {
    if n == 0 then Cursor(0, 0)
    else
      var c := WrapCursor(CursorAfter(n - 1, total), total);
      c.(index := c.index + 1)
  }

  /** After n >= 1 resolved sends on a queue of length L, the cursor has
      covered exactly n positions, `loopCount * L + currentIndex == n`, with
      `1 <= currentIndex <= L`: that is `loopCount == (n - 1) / L` and
      `currentIndex == (n - 1) % L + 1` (the wrap happens lazily, at the
      next send). */
  lemma {:induction false} CursorAfterCovers(n: nat, total: nat)
    requires n >= 1 && total >= 1
    ensures var c := CursorAfter(n, total);
            c.loops * total + c.index == n && 1 <= c.index <= total
  {
    if n > 1 {
      CursorAfterCovers(n - 1, total);
      var c := CursorAfter(n - 1, total);
      if c.index >= total {
        assert c.index == total;
        assert (c.loops + 1) * total == c.loops * total + total;
      }
    }
  }

  /** The same in quotient/remainder form: after n >= 1 resolved sends,
      `loopCount == (n - 1) / L` and `currentIndex == (n - 1) % L + 1`. */
  lemma CursorAfterDivMod(n: nat, total: nat)
    requires n >= 1 && total >= 1
    ensures CursorAfter(n, total).loops == (n - 1) / total
    ensures CursorAfter(n, total).index == (n - 1) % total + 1
  {
    CursorAfterCovers(n, total);
    var c := CursorAfter(n, total);
    DivModUnique(n - 1, total, c.loops, c.index - 1);
  }

  // ------------------------------------------------------------------ the task

  class Task {
    const taskId: string
    const userData: UserData
    var config: Config
    var messageData: MessageData
    var stats: Stats
    var logs: seq<LogEntry>
    var retryCount: nat
    const maxRetries: nat

    /** `new Task(taskId, userData)`: a stopped task whose queue is built by
        initializeMessages, which also writes the first log entry. */
    constructor (taskId: string, userData: UserData, now: int)
      ensures this.taskId == taskId && this.userData == userData
      ensures config == Config("", EffectiveDelay(userData.delay), false, None, true, now, 0, DefaultMaxRestarts)
      ensures messageData == MessageData(userData.threadID,
                ExpandMessages(userData.messageContent, userData.prefix, userData.suffix), 0, 0)
      ensures stats == Stats(0, 0, 0, 0, 0, None)
      ensures logs == [LogEntry(LoadedMessages(|messageData.messages|), Info)]
      ensures retryCount == 0 && maxRetries == MaxLoginRetries
    {
      var messages := ExpandMessages(userData.messageContent, userData.prefix, userData.suffix);
      this.taskId := taskId;
      this.userData := userData;
      config := Config("", EffectiveDelay(userData.delay), false, None, true, now, 0, DefaultMaxRestarts);
      messageData := MessageData(userData.threadID, messages, 0, 0);
      stats := Stats(0, 0, 0, 0, 0, None);
      logs := [LogEntry(LoadedMessages(|messages|), Info)];
      retryCount := 0;
      maxRetries := MaxLoginRetries;
    }

    /** loadTasks' `new Task(...)` followed by overwriting config,
        messageData, stats and logs from the saved record, with `running`
        forced to true. */
    constructor Restore(taskId: string, userData: UserData, config: Config,
                        messageData: MessageData, stats: Stats, logs: seq<LogEntry>)
      ensures this.taskId == taskId && this.userData == userData
      ensures this.config == config.(running := true)
      ensures this.messageData == messageData && this.stats == stats && this.logs == logs
      ensures retryCount == 0 && maxRetries == MaxLoginRetries
    {
      this.taskId := taskId;
      this.userData := userData;
      this.config := config.(running := true);
      this.messageData := messageData;
      this.stats := stats;
      this.logs := logs;
      retryCount := 0;
      maxRetries := MaxLoginRetries;
    }

    /** healthCheck: a task is healthy while its last log entry is less than
        five minutes old. */
    function HealthCheck(now: int): (healthy: bool)
      reads this
      ensures healthy <==> now < config.lastActivity + StaleWindowMs
    {
      now - config.lastActivity < StaleWindowMs
    }

    /** getDetails. `uptime` is the time since the last log entry, 0 when
        that time stamp is 0 (falsy). */
    function GetDetails(now: int): (d: Details)
      reads this
      ensures d.running == config.running && d.logs == logs && d.taskId == taskId
      ensures d.sent == stats.sent && d.failed == stats.failed && d.loops == stats.loops
      ensures d.restarts == stats.restarts && d.activeCookies == stats.activeCookies
      ensures d.uptime == if config.lastActivity == 0 then 0 else now - config.lastActivity
    {
      Details(taskId, stats.sent, stats.failed, stats.activeCookies, stats.loops, stats.restarts,
              logs, config.running, if config.lastActivity != 0 then now - config.lastActivity else 0)
    }

    /** addLog: newest entry first, at most 100 kept, and the task counts as
        active (healthy) at `now`. */
    method AddLog(event: LogEvent, severity: Severity, now: int)
      modifies this
      ensures logs == PushLog(old(logs), LogEntry(event, severity))
      ensures config == old(config).(lastActivity := now)
      ensures HealthCheck(now)
      ensures messageData == old(messageData) && stats == old(stats) && retryCount == old(retryCount)
    {
      var l := [LogEntry(event, severity)] + logs;
      if |l| > MaxLogs {
        l := l[..MaxLogs];
      }
      logs := l;
      config := config.(lastActivity := now);
    }

    /** start(). `credentialSaved` is whether writing the credential file
        succeeded; that write happens before the empty-queue check. */
    method Start(now: int, credentialSaved: bool) returns (r: StartResult)
      modifies this
      ensures messageData == old(messageData) && stats == old(stats)
      // already running: nothing but the log changes
      ensures old(config.running) ==>
                r == Finished(true) && config == old(config).(lastActivity := now)
                && retryCount == old(retryCount)
                && logs == PushLog(old(logs), LogEntry(AlreadyRunning, Info))
      // otherwise the login retry counter starts again from zero
      ensures !old(config.running) ==> retryCount == 0
      ensures !old(config.running) && !credentialSaved ==>
                r == Finished(false) && config == old(config).(lastActivity := now)
                && logs == PushLog(old(logs), LogEntry(CredentialSaveFailed, Error))
      ensures !old(config.running) && credentialSaved && |messageData.messages| == 0 ==>
                r == Finished(false) && config == old(config).(lastActivity := now)
                && logs == PushLog(PushLog(old(logs), LogEntry(CredentialSaved, Success)),
                                   LogEntry(NoMessages, Error))
      ensures !old(config.running) && credentialSaved && |messageData.messages| > 0 ==>
                r == LoginRequested && config == old(config).(running := true, lastActivity := now)
                && logs == PushLog(PushLog(old(logs), LogEntry(CredentialSaved, Success)),
                                   LogEntry(Starting(|messageData.messages|), Info))
    {
      if config.running {
        AddLog(AlreadyRunning, Info, now);
        return Finished(true);
      }
      config := config.(running := true);
      retryCount := 0;
      if !credentialSaved {
        AddLog(CredentialSaveFailed, Error, now);
        config := config.(running := false);
        return Finished(false);
      }
      AddLog(CredentialSaved, Success, now);
      if |messageData.messages| == 0 {
        AddLog(NoMessages, Error, now);
        config := config.(running := false);
        return Finished(false);
      }
      AddLog(Starting(|messageData.messages|), Info, now);
      r := LoginRequested;
    }

    /** The login callback of initializeBot. It does not look at `running`.
        On failure it schedules another login while fewer than 50 retries
        were made, else it pauses the task; on success it keeps the handle
        and the caller goes on with SendNextMessage(Some(api)), as the source
        does at once. A login call that throws changes nothing and leaves
        nothing scheduled. */
    method OnLoginResult(outcome: LoginOutcome, now: int) returns (next: LoginNext)
      modifies this
      ensures messageData == old(messageData)
      ensures config.restartCount == old(config.restartCount)
      ensures !outcome.LoginThrew? ==> |logs| <= MaxLogs
      ensures outcome.LoginFailure? && old(retryCount) < maxRetries ==>
                next == RetryLoginLater && retryCount == old(retryCount) + 1
                && config == old(config).(lastActivity := now) && stats == old(stats)
                && logs == PushLog(PushLog(old(logs), LogEntry(LoginFailed, Error)),
                                   LogEntry(LoginRetryScheduled(old(retryCount) + 1), Info))
      ensures outcome.LoginFailure? && old(retryCount) >= maxRetries ==>
                next == LoginAbandoned && retryCount == old(retryCount)
                && config == old(config).(lastActivity := now, running := false) && stats == old(stats)
                && logs == PushLog(PushLog(old(logs), LogEntry(LoginFailed, Error)),
                                   LogEntry(LoginRetriesExhausted, Error))
      ensures outcome.LoginThrew? ==>
                next == LoginStalled && retryCount == old(retryCount)
                && config == old(config) && stats == old(stats) && logs == old(logs)
      ensures outcome.LoginSuccess? ==>
                next == BeginSending(outcome.api) && retryCount == 0
                && config == old(config).(api := Some(outcome.api), lastActivity := now)
                && stats == old(stats).(activeCookies := 1)
                && logs == PushLog(old(logs), LogEntry(LoggedIn, Success))
    {
      match outcome
      case LoginFailure =>
        AddLog(LoginFailed, Error, now);
        if retryCount < maxRetries {
          retryCount := retryCount + 1;
          AddLog(LoginRetryScheduled(retryCount), Info, now);
          next := RetryLoginLater;
        } else {
          AddLog(LoginRetriesExhausted, Error, now);
          config := config.(running := false);
          next := LoginAbandoned;
        }
      case LoginThrew =>
        next := LoginStalled;
      case LoginSuccess(h) =>
        config := config.(api := Some(h));
        stats := stats.(activeCookies := 1);
        retryCount := 0;
        AddLog(LoggedIn, Success, now);
        next := BeginSending(h);
    }

    /** sendNextMessage(api), where `api` is the handle the calling chain
        carries (not `config.api`). Nothing happens unless the task is
        running and a handle is present; otherwise the cursor wraps to 0 and
        the loop count grows by one when it has run off the queue, and the
        message at the cursor is handed to the send call. */
    method SendNextMessage(api: Option<Handle>, now: int) returns (a: Option<Attempt>)
      modifies this
      ensures config.running == old(config.running) && config.api == old(config.api)
      ensures retryCount == old(retryCount)
      ensures !old(config.running) || api.None? ==>
                a.None? && config == old(config) && messageData == old(messageData)
                && stats == old(stats) && logs == old(logs)
      ensures old(config.running) && api.Some? ==>
                var total := |old(messageData.messages)|;
                var wrapped := old(messageData.currentIndex) >= total;
                var c := WrapCursor(Cursor(old(messageData.currentIndex), old(messageData.loopCount)), total);
                messageData == old(messageData).(currentIndex := c.index, loopCount := c.loops)
                && (wrapped ==> messageData.currentIndex == 0
                                && messageData.loopCount == old(messageData.loopCount) + 1
                                && config == old(config).(lastActivity := now)
                                && stats == old(stats).(loops := messageData.loopCount)
                                && logs == PushLog(old(logs), LogEntry(LoopCompleted(messageData.loopCount), Info)))
                && (!wrapped ==> stats == old(stats) && logs == old(logs) && config == old(config))
                && (total > 0 ==> messageData.currentIndex < total)
                && a == Some(Attempt(api.value,
                                     if total > 0 then Some(messageData.messages[messageData.currentIndex]) else None,
                                     messageData.currentIndex, total, 0))
    {
      if !config.running || api.None? {
        return None;
      }
      if messageData.currentIndex >= |messageData.messages| {
        messageData := messageData.(loopCount := messageData.loopCount + 1);
        stats := stats.(loops := messageData.loopCount);
        AddLog(LoopCompleted(messageData.loopCount), Info, now);
        messageData := messageData.(currentIndex := 0);
      }
      var i := messageData.currentIndex;
      var total := |messageData.messages|;
      var message := if i < total then Some(messageData.messages[i]) else None;
      a := Some(Attempt(api.value, message, i, total, 0));
    }

    /** The guard of sendMessageWithRetry, run again when a retry pause
        ends: the attempt goes to the send call only while running. */
    method SendMessageWithRetry(a: Attempt) returns (issued: bool)
      ensures issued <==> config.running
    {
      issued := config.running;
    }

    /** The send callback. It does not look at `running` (a reply that
        arrives after stop still counts). A failure is counted and retried
        with the cursor left alone while fewer than 10 retries were made,
        then abandoned with the cursor moved on; a success is counted,
        resets the login retry counter and moves the cursor on. The next
        send is scheduled only while running. */
    method OnSendResult(a: Attempt, ok: bool, now: int) returns (next: SendNext)
      modifies this
      ensures config == old(config).(lastActivity := now)
      ensures !ok ==> stats == old(stats).(failed := old(stats.failed) + 1)
                      && retryCount == old(retryCount)
      ensures !ok && a.retry < MaxSendRetries ==>
                messageData == old(messageData)
                && logs == PushLog(old(logs), LogEntry(SendRetry(a.retry + 1, a.index), Info))
                && next == RetryAfterPause(a.(retry := a.retry + 1))
      ensures !ok && a.retry >= MaxSendRetries ==>
                messageData == old(messageData).(currentIndex := old(messageData.currentIndex) + 1)
                && logs == PushLog(old(logs), LogEntry(SendAbandoned(a.index), Error))
                && next == (if config.running then NextAfterDelay(a.api) else Idle)
      ensures ok ==> stats == old(stats).(sent := old(stats.sent) + 1, lastSuccess := Some(now))
                     && retryCount == 0
                     && messageData == old(messageData).(currentIndex := old(messageData.currentIndex) + 1)
                     && logs == PushLog(old(logs), LogEntry(Sent(a.index), Success))
                     && next == (if config.running then NextAfterDelay(a.api) else Idle)
    {
      if !ok {
        stats := stats.(failed := stats.failed + 1);
        if a.retry < MaxSendRetries {
          AddLog(SendRetry(a.retry + 1, a.index), Info, now);
          next := RetryAfterPause(a.(retry := a.retry + 1));
        } else {
          AddLog(SendAbandoned(a.index), Error, now);
          messageData := messageData.(currentIndex := messageData.currentIndex + 1);
          next := if config.running then NextAfterDelay(a.api) else Idle;
        }
      } else {
        stats := stats.(sent := stats.sent + 1, lastSuccess := Some(now));
        retryCount := 0;
        AddLog(Sent(a.index), Success, now);
        messageData := messageData.(currentIndex := messageData.currentIndex + 1);
        next := if config.running then NextAfterDelay(a.api) else Idle;
      }
    }

    /** restart(): drop the handle (without logging it out), clear the active
        flag and count the restart; the follow-up is OnRestartTimer. */
    method Restart(now: int)
      modifies this
      ensures stats == old(stats).(restarts := old(stats.restarts) + 1, activeCookies := 0)
      ensures config == old(config).(restartCount := old(config.restartCount) + 1,
                                     api := None, lastActivity := now)
      ensures messageData == old(messageData) && retryCount == old(retryCount)
      ensures logs == PushLog(old(logs), LogEntry(Restarting, Info))
    {
      AddLog(Restarting, Info, now);
      stats := stats.(restarts := stats.restarts + 1);
      config := config.(restartCount := config.restartCount + 1);
      if config.api.Some? {
        config := config.(api := None);
      }
      stats := stats.(activeCookies := 0);
    }

    /** The catch around the send call: a thrown error restarts the task. */
    method OnSendThrew(now: int)
      modifies this
      ensures stats == old(stats).(restarts := old(stats.restarts) + 1, activeCookies := 0)
      ensures config == old(config).(restartCount := old(config.restartCount) + 1,
                                     api := None, lastActivity := now)
      ensures messageData == old(messageData) && retryCount == old(retryCount)
      ensures logs == PushLog(PushLog(old(logs), LogEntry(SendCrashed, Error)), LogEntry(Restarting, Info))
    {
      AddLog(SendCrashed, Error, now);
      Restart(now);
    }

    /** The delayed follow-up of restart(): log in again only while running
        and within the restart cap; past the cap the task stops. */
    method OnRestartTimer(now: int) returns (relogin: bool)
      modifies this
      ensures relogin <==> old(config.running) && old(config.restartCount) <= old(config.maxRestarts)
      ensures old(config.restartCount) > old(config.maxRestarts) ==>
                config == old(config).(running := false, lastActivity := now)
                && logs == PushLog(old(logs), LogEntry(RestartsExhausted, Error))
      ensures old(config.restartCount) <= old(config.maxRestarts) ==>
                config == old(config) && logs == old(logs)
      ensures messageData == old(messageData) && stats == old(stats) && retryCount == old(retryCount)
    {
      if config.running && config.restartCount <= config.maxRestarts {
        relogin := true;
      } else if config.restartCount > config.maxRestarts {
        AddLog(RestartsExhausted, Error, now);
        config := config.(running := false);
        relogin := false;
      } else {
        relogin := false;
      }
    }

    /** stop(): clear `running` and the active flag and report success. The
        handle in `config.api` is deliberately kept. */
    method Stop(now: int) returns (r: bool)
      modifies this
      ensures r
      ensures config == old(config).(running := false, lastActivity := now)
      ensures stats == old(stats).(activeCookies := 0)
      ensures messageData == old(messageData) && retryCount == old(retryCount)
      ensures logs == PushLog(PushLog(old(logs), LogEntry(StoppedByUser, Info)), LogEntry(SessionKept, Info))
    {
      config := config.(running := false);
      stats := stats.(activeCookies := 0);
      AddLog(StoppedByUser, Info, now);
      AddLog(SessionKept, Info, now);
      r := true;
    }

    /** One send on a running task whose cursor stands where `n` resolved
        sends leave it, answered with success: the cursor then stands where
        `n + 1` resolved sends leave it. So CursorAfter, and with it
        CursorAfterCovers, describes the task itself. */
    method SendAndConfirm(api: Handle, now: int, ghost n: nat) returns (next: SendNext)
      requires config.running && |messageData.messages| > 0
      requires Cursor(messageData.currentIndex, messageData.loopCount)
               == CursorAfter(n, |messageData.messages|)
      modifies this
      ensures messageData.messages == old(messageData.messages)
      ensures Cursor(messageData.currentIndex, messageData.loopCount)
              == CursorAfter(n + 1, |messageData.messages|)
      ensures stats.sent == old(stats.sent) + 1 && config.running
      ensures next == NextAfterDelay(api)
    {
      var a := SendNextMessage(Some(api), now);
      next := OnSendResult(a.value, true, now);
    }

    /** stop() cancels what is in flight: a retry that fires afterwards is
        refused by the guard of sendMessageWithRetry, and a reply that
        arrives afterwards schedules no next message. */
    method StopCancelsPending(pending: Attempt, reply: Attempt, ok: bool, now: int)
      returns (issued: bool, next: SendNext)
      modifies this
      ensures !issued && !config.running
      ensures !next.NextAfterDelay?
      ensures ok ==> next == Idle
    {
      var _ := Stop(now);
      issued := SendMessageWithRetry(pending);
      next := OnSendResult(reply, ok, now);
    }
  }
}
