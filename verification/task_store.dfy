/** The process-wide parts of server.js around `Task`: the persisted
    snapshot written by saveTasks and read back by loadTasks, the resume
    timer loadTasks schedules, and the stuck-task sweep of setupAutoRestart.
    The JSON file itself is not modelled: a snapshot is a map value. */
module TaskStore {
  import opened Base
  import opened TaskEngine

  const SavedLogs := 50   // saveTasks keeps the 50 most recent log entries

  /** One entry of `active_tasks.json`. */
  datatype TaskRecord = TaskRecord(
    userData: UserData,
    config: Config,
    messageData: MessageData,
    stats: Stats,
    logs: seq<LogEntry>)

  /** What saveTasks writes for one task: everything but the live handle,
      and only the most recent log entries. */
  function Saved(t: Task): (rec: TaskRecord)
    reads t
    ensures rec.config == t.config.(api := None)
    ensures rec.userData == t.userData && rec.messageData == t.messageData && rec.stats == t.stats
    ensures |rec.logs| == if |t.logs| < SavedLogs then |t.logs| else SavedLogs
    ensures rec.logs == t.logs[..|rec.logs|]
  {
    TaskRecord(t.userData, t.config.(api := None), t.messageData, t.stats,
               if |t.logs| > SavedLogs then t.logs[..SavedLogs] else t.logs)
  }

  /** The shape of every record saveTasks produces. */
  predicate IsSavedShape(rec: TaskRecord) {
    rec.config.api.None? && |rec.logs| <= SavedLogs
  }

  /** saveTasks: the snapshot holds exactly the running tasks, each projected
      by Saved. */
  method SaveTasks(active: map<string, Task>) returns (data: map<string, TaskRecord>)
    ensures forall id :: id in data <==> id in active && active[id].config.running
    ensures forall id :: id in data ==> data[id] == Saved(active[id]) && IsSavedShape(data[id])
  {
    data := map[];
    var todo := active.Keys;
    while todo != {}
      invariant todo <= active.Keys
      invariant forall id :: id in data <==> id in active && id !in todo && active[id].config.running
      invariant forall id :: id in data ==> data[id] == Saved(active[id])
      decreases todo
    {
      var id :| id in todo;
      var t := active[id];
      if t.config.running {
        data := data[id := Saved(t)];
      }
      todo := todo - {id};
    }
  }

  /** loadTasks: one fresh, distinct task per record, restored from it with
      `running` forced to true. `classReady` says whether both `class Task`
      and the `wss` server that addLog broadcasts through have been
      initialized when loadTasks runs (that is, loadTasks runs after the
      `let wss` declaration); if not, `new Task` throws on the first record,
      the catch drops whatever was built and the result is the empty map. */
  method LoadTasks(data: map<string, TaskRecord>, classReady: bool) returns (tasks: map<string, Task>)
    ensures tasks.Keys == if classReady then data.Keys else {}
    ensures forall id :: id in tasks ==> fresh(tasks[id])
    ensures forall a, b :: a in tasks && b in tasks && a != b ==> tasks[a] != tasks[b]
    ensures forall id :: id in tasks ==>
              var t, rec := tasks[id], data[id];
              t.taskId == id && t.userData == rec.userData
              && t.config == rec.config.(running := true)
              && t.messageData == rec.messageData && t.stats == rec.stats && t.logs == rec.logs
              && t.retryCount == 0 && t.maxRetries == MaxLoginRetries
  {
    tasks := map[];
    var todo := data.Keys;
    while todo != {}
      invariant todo <= data.Keys
      invariant tasks.Keys == data.Keys - todo
      invariant !classReady ==> todo == data.Keys
      invariant forall id :: id in tasks ==> fresh(tasks[id])
      invariant forall a, b :: a in tasks && b in tasks && a != b ==> tasks[a] != tasks[b]
      invariant forall id :: id in tasks ==>
                  var t, rec := tasks[id], data[id];
                  t.taskId == id && t.userData == rec.userData
                  && t.config == rec.config.(running := true)
                  && t.messageData == rec.messageData && t.stats == rec.stats && t.logs == rec.logs
                  && t.retryCount == 0 && t.maxRetries == MaxLoginRetries
      decreases todo
    {
      if !classReady {
        return map[];
      }
      var id :| id in todo;
      var rec := data[id];
      var t := new Task.Restore(id, rec.userData, rec.config, rec.messageData, rec.stats, rec.logs);
      tasks := tasks[id := t];
      todo := todo - {id};
    }
  }

  /** Saving and loading back, with loading run once `class Task` and `wss`
      are initialized (as written it is not, see StartupLoadThenSave):
      every running task comes back as a fresh task
      with the same queue, cursor, counters and configuration, the handle
      cleared and at most 50 log entries; saving it again reproduces the
      same record. */
  method SaveThenLoad(active: map<string, Task>) returns (loaded: map<string, Task>)
    ensures forall id :: id in loaded <==> id in active && active[id].config.running
    ensures forall id :: id in loaded ==>
              var t, u := active[id], loaded[id];
              fresh(u) && u.messageData == t.messageData && u.stats == t.stats
              && u.config == t.config.(api := None) && u.userData == t.userData
              && |u.logs| == (if |t.logs| < SavedLogs then |t.logs| else SavedLogs)
              && u.logs == t.logs[..|u.logs|]
              && Saved(u) == Saved(t)
  {
    var data := SaveTasks(active);
    loaded := LoadTasks(data, true);
    forall id | id in loaded
      ensures Saved(loaded[id]) == Saved(active[id])
    {
      assert data[id] == Saved(active[id]);
      assert loaded[id].config == active[id].config.(api := None);
    }
  }

  /** Process start as written: loadTasks runs while `class Task` (and
      `wss`) are not yet initialized, so nothing is restored, and the next autosave, with no
      task in the table, writes an empty snapshot over a non-empty one. */
  method StartupLoadThenSave(data: map<string, TaskRecord>) returns (snapshot: map<string, TaskRecord>)
    ensures snapshot == map[]
    ensures data != map[] ==> snapshot != data
  {
    var tasks := LoadTasks(data, false);
    snapshot := SaveTasks(tasks);
  }

  /** Process start with loadTasks run once `class Task` and `wss` are
      initialized: a
      snapshot that saveTasks wrote survives the restart and the next
      autosave unchanged. */
  method ReloadThenSave(data: map<string, TaskRecord>) returns (snapshot: map<string, TaskRecord>)
    requires forall id :: id in data ==> IsSavedShape(data[id]) && data[id].config.running
    ensures snapshot == data
  {
    var tasks := LoadTasks(data, true);
    snapshot := SaveTasks(tasks);
    forall id | id in snapshot
      ensures snapshot[id] == data[id]
    {
      var rec := data[id];
      assert snapshot[id] == Saved(tasks[id]);
      assert tasks[id].config == rec.config;
    }
  }

  /** The timer loadTasks schedules for every restored task: start it if it
      is still running. As written, LoadTasks has already set `running`, so
      start() takes its already-running exit and no login is requested. */
  method ResumeAfterLoad(t: Task, now: int, credentialSaved: bool) returns (r: Option<StartResult>)
    modifies t
    ensures !old(t.config.running) ==> r.None? && t.config == old(t.config) && t.logs == old(t.logs)
    ensures old(t.config.running) ==>
              r == Some(Finished(true)) && t.config == old(t.config).(lastActivity := now)
              && t.logs == PushLog(old(t.logs), LogEntry(AlreadyRunning, Info))
    ensures t.messageData == old(t.messageData) && t.stats == old(t.stats)
    ensures t.retryCount == old(t.retryCount)
  {
    if t.config.running {
      var s := t.Start(now, credentialSaved);
      r := Some(s);
    } else {
      r := None;
    }
  }

  /** Even once loadTasks runs after `class Task` and `wss` are initialized
      (the ordering ReloadThenSave assumes), a restored task is not logged in
      again by its resume timer. */
  method RestoredTaskStaysIdle(rec: TaskRecord, now: int, credentialSaved: bool)
    returns (r: Option<StartResult>)
    ensures r == Some(Finished(true))
  {
    var tasks := LoadTasks(map["t" := rec], true);
    r := ResumeAfterLoad(tasks["t"], now, credentialSaved);
  }

  /** The resume step as its comment intends: re-run the whole of start()
      for a task that is still marked running, so that a restored task with
      a non-empty queue requests a login. */
  method ResumeAfterLoadIntended(t: Task, now: int, credentialSaved: bool) returns (r: Option<StartResult>)
    modifies t
    ensures !old(t.config.running) ==> r.None? && t.config == old(t.config) && t.logs == old(t.logs)
    ensures old(t.config.running) && credentialSaved && |t.messageData.messages| > 0 ==>
              r == Some(LoginRequested) && t.config.running && t.retryCount == 0
    ensures old(t.config.running) && (!credentialSaved || |t.messageData.messages| == 0) ==>
              r == Some(Finished(false)) && !t.config.running
    ensures t.messageData == old(t.messageData) && t.stats == old(t.stats)
  {
    if t.config.running {
      t.config := t.config.(running := false);
      var s := t.Start(now, credentialSaved);
      r := Some(s);
    } else {
      r := None;
    }
  }

  /** `t` went through Restart at `now` since the old state. */
  twostate predicate WasRestarted(t: Task, now: int)
    reads t
  {
    t.stats == old(t.stats).(restarts := old(t.stats.restarts) + 1, activeCookies := 0)
    && t.config == old(t.config).(restartCount := old(t.config.restartCount) + 1,
                                  api := None, lastActivity := now)
    && t.messageData == old(t.messageData) && t.retryCount == old(t.retryCount)
    && t.logs == PushLog(old(t.logs), LogEntry(Restarting, Info))
  }

  /** `t`'s state is what it was in the old state. */
  twostate predicate Untouched(t: Task)
    reads t
  {
    t.config == old(t.config) && t.stats == old(t.stats)
    && t.messageData == old(t.messageData) && t.logs == old(t.logs)
    && t.retryCount == old(t.retryCount)
  }

  /** The stuck-task sweep of setupAutoRestart: every running task whose
      health check fails is restarted; every other task is left alone. */
  method HealthSweep(active: map<string, Task>, now: int) returns (restarted: set<string>)
    requires forall a, b :: a in active && b in active && a != b ==> active[a] != active[b]
    modifies active.Values
    ensures forall id :: id in restarted <==>
              id in active && old(active[id].config.running) && !old(active[id].HealthCheck(now))
    ensures forall id :: id in restarted ==> WasRestarted(active[id], now)
    ensures forall id :: id in active && id !in restarted ==> Untouched(active[id])
  {
    restarted := {};
    var todo := active.Keys;
    while todo != {}
      invariant todo <= active.Keys
      invariant forall id :: id in restarted <==>
                  id in active && id !in todo && old(active[id].config.running)
                  && !old(active[id].HealthCheck(now))
      invariant forall id :: id in restarted ==> WasRestarted(active[id], now)
      invariant forall id :: id in active && id !in restarted ==> Untouched(active[id])
      decreases todo
    {
      var id :| id in todo;
      var t := active[id];
      if t.config.running && !t.HealthCheck(now) {
        t.Restart(now);
        restarted := restarted + {id};
      }
      todo := todo - {id};
    }
  }
}
