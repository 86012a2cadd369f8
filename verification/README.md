# Task engine and credential rotation, modelled in Dafny

This project models the job engine of two Node.js servers that run long-lived
message-sending jobs against an external messaging library.

- `server.js` runs one job per `Task`. A task builds a message queue from
  raw text, logs in through the library, and walks the queue with a cursor
  that wraps around and counts loops. It retries a failed send up to 10
  times, retries a failed login up to 50 times, and restarts itself up to
  1000 times. It keeps a most-recent-first log of at most 100 entries. It is
  persisted as a snapshot of running tasks (`saveTasks` / `loadTasks`) and
  watched by a stuck-task sweep built on `healthCheck`.
- `index.js` runs one job per session. A session parses several credential
  lines into slots and logs each slot in, one after another. It then sends
  one message per tick through the current active slot, disables a slot
  whose send fails, and rotates to the next active slot with bounded modular
  scans. Sessions live in a table keyed by session id.

The model keeps to counters, indices, flags and sequences. The library's
login and send calls are outside it. Each call's outcome is a parameter, or
an explicit "callback fired" method. Timers are explicit method calls, and
the clock is an integer `now` in milliseconds.

Files:

- `base.dfy` (module `Base`): `Option`, the opaque `Handle` type, and one
  div/mod uniqueness fact.
- `lines.dfy` (module `Lines`): the text pipeline `split('\n')`,
  `replace(/\r/g, '')`, `trim()` and `filter(non-empty)`, with exactness
  lemmas.
- `task.dfy` (module `TaskEngine`): the `Task` class of server.js. Its
  fields `config`, `messageData` and `stats` are datatype values that the
  methods reassign, as the source reassigns `this.config.running` and the
  like. It also holds the pure parts: `ExpandMessages`, `PushLog` and the
  cursor functions.
- `task_store.dfy` (module `TaskStore`): `saveTasks` / `loadTasks` as a
  filter and projection over the task map, the resume timer of `loadTasks`,
  and the stuck-task sweep of `setupAutoRestart`.
- `rotation.dfy` (module `Rotation`): index.js. It has the parsing, the slot
  scans, the `Session` class and the `SessionTable` class (the `sessions`
  map).

How the callbacks are split into methods:

- A login or send callback that the source runs at once, inside the same
  call, is a separate method here. The caller runs it straight after, with
  nothing in between.
- `Task.OnLoginResult` returns `BeginSending(h)`. The source then calls
  `sendNextMessage(api)` at once (server.js:234).
- `Task.SendNextMessage` returns the `Attempt` handed to the send call. Its
  outcome then arrives through `OnSendResult` or `OnSendThrew`.
- `SessionTable.StartSending` is followed at once by `InitializeStep(sid, 0)`.

`Task.SendNextMessage` takes the handle that the calling chain carries, as
the source does (`sendNextMessage(api)` tests its own argument, not
`config.api`). So a send chain that was scheduled before `Restart` keeps
sending with the old handle while the task is running.

Points where the code behaves otherwise than a reader might expect; the
model follows the code:

- The delay is `userData.delay || 5` (server.js:105). A zero or missing
  delay becomes 5 and a negative one is kept. It is not raised to a minimum
  of 1.
- `stop()` keeps `config.api` (the logout at server.js:379-389 is commented
  out) while it sets `activeCookies` to 0 (server.js:391). So the handle and
  the active flag do not always change together.
- The start handler registers the task whatever `start()` resolves to
  (server.js:1227 tests a Promise, which is always truthy).
- `loadTasks` runs at server.js:96, before `class Task` (server.js:99) and
  the `wss` server that `addLog` broadcasts through (server.js:1205) are
  initialized, so no task is ever restored at process start (see Findings).
- Even when loading does restore a task, its resume timer does not log it in
  again (server.js:38 with server.js:168-171; see Findings).

## Model

| member | source | states |
|---|---|---|
| `Lines.SplitLines` | server.js:135 | `split('\n')` always yields at least one piece |
| `Lines.SplitJoin` | server.js:135 | joining the pieces with newlines gives back the text, and no piece holds a newline |
| `Lines.TrimExact` | server.js:136 | `Trim` (`trim()`) yields the slice of the input between its leading and trailing whitespace, and neither end of the result is whitespace |
| `Lines.RemoveCR` | server.js:136 | the result holds no `\r`, is no longer than the input, and equals the input when it holds no `\r` |
| `Lines.RemoveCRAppend` | server.js:136 | removal distributes over concatenation and deletes a lone `\r`, so exactly the `\r` characters are dropped and the rest is kept in order |
| `Lines.KeepNonEmptyExact` | server.js:137 | `KeepNonEmpty` (`filter(line => line.length > 0)`) keeps exactly the non-empty entries, in order, at strictly increasing positions, and misses none |
| `TaskEngine.EffectiveDelay` | server.js:105 | an absent or zero delay becomes 5 and any other value is kept, so the delay is never 0 |
| `TaskEngine.ExpandMessagesExact` | server.js:133-138 | `ExpandMessages` (initializeMessages): the queue is exactly the lines that are non-blank after `\r` removal and trim, in original order, each trimmed and wrapped as `prefix + " " + line + " " + suffix`; its length is the number of such lines |
| `TaskEngine.PushLog` | server.js:149-153 | the new entry is at index 0, the previous entries follow in order, and the buffer never exceeds 100 entries |
| `TaskEngine.CursorAfterCovers` | server.js:276-283 | after n >= 1 resolved sends on a queue of length L, `loopCount * L + currentIndex == n` with `1 <= currentIndex <= L` |
| `TaskEngine.CursorAfterDivMod` | server.js:276-283 | after n >= 1 resolved sends, `loopCount == (n-1)/L` and `currentIndex == (n-1)%L + 1` |
| `TaskEngine.Task.constructor` | server.js:100-131 | a new task is stopped, has no handle and zeroed counters, holds the expanded queue, and holds one log entry stamped `now` |
| `TaskEngine.Task.Restore` | server.js:32-38 | a restored task takes config, queue, stats and logs from the record, with `running` forced true and the login retry count 0 |
| `TaskEngine.Task.HealthCheck` | server.js:162-165 | healthy exactly when `now` is less than 300000 ms after `lastActivity` |
| `TaskEngine.Task.GetDetails` | server.js:410-422 | reports the counters, logs and running flag; uptime is `now - lastActivity`, or 0 when `lastActivity` is 0 |
| `TaskEngine.Task.AddLog` | server.js:143-160 | the log becomes `PushLog(old log, entry)`, `lastActivity` becomes `now` (so the task is healthy at `now`), and nothing else changes |
| `TaskEngine.Task.Start` | server.js:167-195 | already running: returns true and only the log and `lastActivity` change; failed credential write or empty queue: returns false, the config unchanged but for `lastActivity` (so `running` stays false) and the log holds exactly the entries written; else requests a login with only `running` and `lastActivity` changed in the config, the two log entries pushed and the login retry count 0; queue and stats never change |
| `TaskEngine.Task.OnLoginResult` | server.js:198-235 | failure below 50 retries: count one more retry, log the failure and the scheduled retry, and retry later; at 50: log the failure and the exhaustion and set `running` false; success: store the handle, set `activeCookies` to 1, the retry count to 0 and log it; a login call that throws changes nothing and schedules nothing; queue and restart count never change |
| `TaskEngine.Task.SendNextMessage` | server.js:270-289 | no-op unless running with a handle; a cursor past the end wraps to 0 with `loopCount` + 1, `stats.loops == loopCount`, one log entry and only `lastActivity` changed in the config; otherwise nothing changes; the attempt carries the message at the cursor, which is in range |
| `TaskEngine.Task.SendMessageWithRetry` | server.js:291-292 | an attempt reaches the send call exactly while the task is running |
| `TaskEngine.Task.OnSendResult` | server.js:297-323 | failure: `failed` + 1, then below 10 retries the same attempt is retried with its count + 1 and the queue data unchanged, else only the cursor + 1; success: `sent` + 1, the retry count 0 and only the cursor + 1 in the queue data; each branch pushes exactly its one log entry and changes only `lastActivity` in the config; the next send is scheduled only while running |
| `TaskEngine.Task.OnSendThrew` | server.js:324-328 | a send call that throws logs the error and restarts the task |
| `TaskEngine.Task.Restart` | server.js:344-362 | `stats.restarts` and `restartCount` each + 1, handle dropped, `activeCookies` 0, `running` and the cursor unchanged |
| `TaskEngine.Task.OnRestartTimer` | server.js:365-372 | logs in again exactly when running and `restartCount <= maxRestarts`; past the cap it sets `running` false |
| `TaskEngine.Task.Stop` | server.js:375-408 | returns true, sets `running` false and `activeCookies` 0, and leaves the handle, the cursor and the other counters alone |
| `TaskEngine.Task.SendAndConfirm` | server.js:270-322 | one send answered with success moves the task's cursor from `CursorAfter(n, L)` to `CursorAfter(n + 1, L)` and schedules the next send, so `CursorAfterCovers` holds of the task |
| `TaskEngine.Task.StopCancelsPending` | server.js:291-322 | after `stop()`, a pending retry is refused by the send guard and a late reply schedules no next message (`Idle` on success) |
| `TaskStore.Saved` | server.js:63-69 | a saved record has the task's config without the handle, its queue and stats, and its 50 most recent log entries |
| `TaskStore.SaveTasks` | server.js:60-77 | the snapshot holds exactly the running tasks, each as `Saved` projects it |
| `TaskStore.LoadTasks` | server.js:25-57 | with `class Task` and `wss` initialized, one fresh, distinct task per record, restored from it with `running` forced true, the login retry count 0 and the constructor's retry cap of 50; otherwise the first `new Task` throws and the result is empty |
| `TaskStore.StartupLoadThenSave` | server.js:25-57 | at process start (server.js:96, before server.js:99) nothing is restored and the next autosave writes an empty snapshot, which differs from any non-empty one |
| `TaskStore.ReloadThenSave` | server.js:25-77 | with loading run after `class Task` and `wss` are initialized, a snapshot written by `saveTasks` is reproduced exactly by the next autosave |
| `TaskStore.SaveThenLoad` | server.js:25-77 | with loading run once `class Task` and `wss` are initialized (see Findings; as written nothing is restored), saving and loading returns every running task with the same queue, cursor, stats and config, the handle cleared and at most 50 log entries, and saving again gives the same record |
| `TaskStore.ResumeAfterLoad` | server.js:43-48 | the resume timer on a task marked running gets `start()`'s already-running answer, true: only the `AlreadyRunning` log entry and `lastActivity` change, the login retry count stays, and no login is requested |
| `TaskStore.RestoredTaskStaysIdle` | server.js:32-48 | for every record, once loading runs after `class Task` and `wss` are initialized, the restored task's resume timer gets the already-running answer |
| `TaskStore.ResumeAfterLoadIntended` | server.js:43-48 | a resumed task with a saved credential and a non-empty queue requests a login |
| `TaskStore.HealthSweep` | server.js:84-94 | exactly the running tasks that fail the health check are restarted, each with `Restart`'s full state change (one `Restarting` log entry, login retry count kept); every other task is unchanged |
| `Rotation.NonBlankLinesExact` | index.js:479-501 | `NonBlankLines` (the split/trim/filter of startSending): the parsed lines are exactly the trimmed non-blank lines of the text, in order, and none is missed |
| `Rotation.ParseCredentialsExact` | index.js:479-490 | `ParseCredentials` (the slot list of startSending): slot k holds the k-th non-blank credential line with id k + 1, inactive, with no sends and no handle |
| `Rotation.OutgoingText` | index.js:678-680 | the text ends with the message; with a non-empty prefix it starts with the prefix and a space, otherwise it is the message |
| `Rotation.ActiveCountPositive` | index.js:649-652 | `ActiveCount` (`filter(c => c.active).length`) is positive exactly when some slot is active |
| `Rotation.FindActiveFrom` | index.js:661-674 | at most n steps, all over inactive slots; it ends on an active slot in fewer than n steps exactly when some slot is active |
| `Rotation.NextActiveAfter` | index.js:732-736 | at least 1 and at most n steps, stopping at the first active slot; the index stays in `[0, n)` and lands on an active slot when one exists |
| `Rotation.AdvanceMessage` | index.js:702-712 | the message index stays in `[0, L)` and the position `loopCount * L + index` grows by exactly one |
| `Rotation.CursorAfterRepliesDivMod` | index.js:702-712 | after n replies, `currentMessageIndex == n % L` and `loopCount == n / L` |
| `Rotation.Session.constructor` | index.js:509-524 | a new session is running and not initialized, with both cursors and both counters at 0 |
| `Rotation.Session.OnSlotLogin` | index.js:588-637 | a handle makes slot k active; an error or a missing handle leaves it inactive; either way it stops initializing |
| `Rotation.Session.MoveToNextActiveCookie` | index.js:728-737 | the slot cursor moves 1 to n steps forward modulo n, past inactive slots only, and stops early only on an active slot; it lands on an active slot when one exists, and with none it takes all n steps back to where it started |
| `Rotation.Session.OnSendResult` | index.js:683-724 | failure disables that slot and leaves `totalMessagesSent` alone; success adds one to `totalMessagesSent` and to that slot's `sentCount`; then the message cursor advances and wraps with `loopCount` + 1; while the session is registered the slot cursor moves 1 to n steps forward modulo n past inactive slots only, stopping early only on an active slot and returning to where it started when none is active (as after the last active slot fails), else it stays |
| `Rotation.SessionTable.constructor` | index.js:12 | the table starts empty |
| `Rotation.SessionTable.StartSending` | index.js:475-527 | if either input has no non-blank line no session is added; otherwise a fresh running session with the parsed slots and messages is filed under the new id |
| `Rotation.SessionTable.StopSending` | index.js:773-806 | false for an unknown id; otherwise the session stops running, leaves the table, and the result is true |
| `Rotation.SessionTable.InitializeStep` | index.js:549-583 | ignored unless registered and running; past the last slot the session becomes initialized if some slot is active and is stopped and removed otherwise; before it, slot k is marked initializing and its login is requested; cursors and counters never change |
| `Rotation.SessionTable.SendNextMessage` | index.js:644-681 | skipped unless registered, running and initialized; stopped and removed exactly when no slot is active; otherwise the slot cursor moves to the first active slot at or after it (fewer than n steps, over inactive slots only) and the prefixed message at the message cursor is sent through it; the source's "could not find active cookie" stop is never reached; counters and the message cursor never change |

## Left out

- The external library (`login`, `sendMessage`, `getThreadInfo`, `listen`, `setOptions`, `logout`): each callback outcome is a parameter or an explicit callback method. A throwing call is modelled only in server.js, for `login` (`LoginThrew`) and `sendMessage` (`OnSendThrew`). The "Target" log entry that `getThreadInfo`'s callback may add, and the logout of every slot in index.js `stopSending`, are not modelled.
- Timers (`setTimeout`, `setInterval`): a fired callback is a method call. The delays (30 s login retry, 5 s send retry, `delay` seconds between sends, 10 s restart, 5 s resume, 2–3 s between slot logins, 60 s sweep, 30 s autosave) and any interleaving of callbacks are not modelled.
- The clock and formatted times: `now` is a parameter; log wording and time stamps become `LogEvent` kinds.
- Files and JSON: the credential file write is the `credentialSaved` parameter of `Start`. The file's deletion in `stop()`, the `saveTasks()` call inside `stop()` (a file write only), and reading or writing `active_tasks.json` are not modelled.
- `TaskStore.LoadTasks`: with `class Task` and `wss` initialized, a record without message text would also make `new Task` throw; records here always carry text. As written the uninitialized class throws first (see Findings).
- The catch in `scheduleNextMessage` (server.js:337-340): `sendNextMessage` catches send errors itself, so it is not modelled.
- WebSocket command handling, Express routing, uuid generation (ids are parameters), process signal handlers, status broadcasts (`updateSessionStats`, `updateCookiesStatus`), the disconnected-session cleanup, and the HTML panel.
- `Rotation.SessionTable.InitializeStep`, `Rotation.Session.OnSlotLogin`, `Rotation.SessionTable.SendNextMessage`: a `login` (index.js:588), `setOptions` (index.js:617) or `sendMessage` (index.js:683) call that throws is not modelled; the exception escapes to the event loop with nothing scheduled, leaving the slot initializing or the session waiting.
- A credential line that is not valid JSON makes index.js throw before the login call. That is not modelled; the login outcome parameter covers only the library's own answer.
- A missing `hatersName` / `lastHereName` is rendered as `undefined` by the template string. Here they are strings.
- `Rotation.Session.OnSendResult`: the `registered` parameter stands for `sessions.get(sessionId)` still finding this session when `moveToNextActiveCookie` runs.
- `Rotation.SessionTable.SendNextMessage`: the source's "could not find active cookie" stop (index.js:667-674) is proved unreachable (`Rotation.ActiveCountPositive` with `Rotation.FindActiveFrom`), so the method has no result for it and does not model its `stopSending` call.

## Findings

| source | as written | input that shows it | evidently intended | confidence | as-written member | corrected member |
|---|---|---|---|---|---|---|
| server.js:96-99 | `let activeTasks = loadTasks();` runs before `class Task` (server.js:99) and `wss` (server.js:1205, read by `addLog` through `broadcastToTask` at server.js:438) are initialized, so `new Task` at server.js:33 throws a ReferenceError on the first record; the catch at server.js:53-55 swallows it and an empty map is returned, and the next autosave (server.js:81) overwrites the snapshot with an empty one | any snapshot with at least one record | tasks of the snapshot are restored at process start ("Reloaded persistent task"), that is, loading runs after server.js:1205 | high, not executed | `TaskStore.StartupLoadThenSave` | `TaskStore.ReloadThenSave` |
| server.js:37-48 | `loadTasks` sets `config.running = true` (every saved record is running anyway), then its resume timer calls `start()`. `start()` returns at its already-running exit (server.js:168-171) and requests no login, so a restored task sends nothing until the stuck-task sweep restarts it after five minutes without a log entry | any record of the snapshot, once loading runs after `class Task` and `wss` are initialized (the row above); as written no record gets this far | the resume timer logs the restored task in again ("Auto-restart the task") | medium, not executed | `TaskStore.RestoredTaskStaysIdle` (with `TaskStore.ResumeAfterLoad`) | `TaskStore.ResumeAfterLoadIntended` |
