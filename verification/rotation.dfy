/** The multi-credential sender of index.js: a session holds a list of
    credential slots and a message queue, sends one message per tick through
    the current active slot, and rotates to the next active slot after every
    reply. Sessions live in a table keyed by session id. Library callbacks
    and timers are explicit method calls. */
module Rotation {
  import opened Base
  import opened Lines

  /** One parsed credential line (`cookies[i]` in index.js); `api` is the
      handle of its login, if any. */
  datatype Slot = Slot(id: nat, content: string, active: bool, initializing: bool,
                       sentCount: nat, api: Option<Handle>)

  // ------------------------------------------------------------------ parsing

  function TrimAll(lines: seq<string>): (r: seq<string>)
    ensures |r| == |lines|
  {
    seq(|lines|, k requires 0 <= k < |lines| => Trim(lines[k]))
  }

  /** `text.split('\n').map(line => line.trim()).filter(line => line.length > 0)`,
      the pipeline startSending applies to both of its inputs. */
  function NonBlankLines(text: string): seq<string> {
    KeepNonEmpty(TrimAll(SplitLines(text)))
  }

  /** The credential slots startSending builds: ids 1..n, all inactive. */
  function ParseCredentials(text: string): seq<Slot> {
    var lines := NonBlankLines(text);
    seq(|lines|, k requires 0 <= k < |lines| => Slot(k + 1, lines[k], false, false, 0, None))
  }

  /** The parsed lines are exactly the non-blank lines of the text, trimmed,
      in their original order: entry k is line `p[k]` for strictly
      increasing positions `p`, and no non-blank line is missed. */
  lemma NonBlankLinesExact(text: string)
    ensures var lines := SplitLines(text);
            var r := NonBlankLines(text);
            var p := NonEmptyPositions(TrimAll(lines));
            JoinLines(lines) == text
            && |r| == |p|
            && (forall k :: 0 <= k < |r| ==>
                  p[k] < |lines| && r[k] == Trim(lines[p[k]]) && r[k] != "" && IsTrimmed(r[k]))
            && (forall k, l :: 0 <= k < l < |p| ==> p[k] < p[l])
            && (forall j :: 0 <= j < |lines| && Trim(lines[j]) != "" ==> j in p)
  {
    var lines := SplitLines(text);
    SplitJoin(text);
    var trimmed := TrimAll(lines);
    KeepNonEmptyExact(trimmed);
    var p := NonEmptyPositions(trimmed);
    var r := KeepNonEmpty(trimmed);
    assert r == NonBlankLines(text);
    forall k | 0 <= k < |r|
      ensures p[k] < |lines| && r[k] == Trim(lines[p[k]]) && r[k] != "" && IsTrimmed(r[k])
    {
      assert r[k] == trimmed[p[k]];
      TrimExact(lines[p[k]]);
    }
    forall j | 0 <= j < |lines| && Trim(lines[j]) != "" ensures j in p {
      assert trimmed[j] == Trim(lines[j]);
    }
  }

  /** Slot k carries the k-th non-blank credential line, id k + 1, and
      starts inactive with no sends and no handle. */
  lemma ParseCredentialsExact(text: string)
    ensures var slots := ParseCredentials(text);
            var lines := NonBlankLines(text);
            |slots| == |lines|
            && (forall k :: 0 <= k < |slots| ==>
                  slots[k].id == k + 1 && slots[k].content == lines[k] && slots[k].content != ""
                  && !slots[k].active && !slots[k].initializing && slots[k].sentCount == 0
                  && slots[k].api.None?)
  {
    NonBlankLinesExact(text);
  }

  /** The text sent: `prefix + " " + msg` for a non-empty prefix, else `msg`. */
  function OutgoingText(prefix: string, msg: string): (t: string)
    ensures |t| == |msg| + (if prefix == "" then 0 else |prefix| + 1)
    ensures t[|t| - |msg|..] == msg
    ensures prefix != "" ==> t[..|prefix|] == prefix && t[|prefix|] == ' '
  {
    if prefix != "" then prefix + " " + msg else msg
  }

  // ------------------------------------------------------------------ rotation

  /** `filter(c => c.active).length`. */
  function ActiveCount(slots: seq<Slot>): nat {
    if |slots| == 0 then 0
    else (if slots[0].active then 1 else 0) + ActiveCount(slots[1..])
  }

  predicate AnyActive(slots: seq<Slot>) {
    exists k :: 0 <= k < |slots| && slots[k].active
  }

  /** The active count is positive exactly when some slot is active. */
  lemma {:induction false} ActiveCountPositive(slots: seq<Slot>)
    ensures ActiveCount(slots) > 0 <==> AnyActive(slots)
  {
    if |slots| > 0 {
      ActiveCountPositive(slots[1..]);
      if AnyActive(slots[1..]) {
        var k :| 0 <= k < |slots[1..]| && slots[1..][k].active;
        assert slots[k + 1].active;
      }
      if AnyActive(slots) && !slots[0].active {
        var k :| 0 <= k < |slots| && slots[k].active;
        assert slots[1..][k - 1].active;
      }
    }
  }

  /** The slot reached from `start` after `j` steps of `(i + 1) % n`. */
  function Offset(start: nat, j: nat, n: nat): (r: nat)
    requires start < n && j <= n
    ensures r < n
  {
    if start + j < n then start + j else start + j - n
  }

  /** One step of `(i + 1) % n` from the slot after `j` steps. */
  lemma OffsetStep(start: nat, j: nat, n: nat)
    requires start < n && j < n
    ensures (Offset(start, j, n) + 1) % n == Offset(start, j + 1, n)
  {
  }

  /** The n positions reached in 0..n-1 steps are all the slots. */
  lemma OffsetCovers(start: nat, n: nat, k: nat)
    requires start < n && k < n
    ensures exists j :: 0 <= j < n && Offset(start, j, n) == k
  {
    var j := if k >= start then k - start else n - start + k;
    assert Offset(start, j, n) == k;
  }

  /** The search loop of sendNextMessage: from `start`, step while the slot
      is inactive, at most n times. It ends on an active slot after fewer
      than n steps exactly when some slot is active; all slots it stepped
      over are inactive. */
  method FindActiveFrom(slots: seq<Slot>, start: nat) returns (idx: nat, attempts: nat)
    requires start < |slots|
    ensures attempts <= |slots| && idx == Offset(start, attempts, |slots|)
    ensures forall j :: 0 <= j < attempts ==> !slots[Offset(start, j, |slots|)].active
    ensures attempts < |slots| ==> slots[idx].active
    ensures attempts < |slots| <==> AnyActive(slots)
  {
    var n := |slots|;
    idx, attempts := start, 0;
    while attempts < n && !slots[idx].active
      invariant attempts <= n && idx == Offset(start, attempts, n)
      invariant forall j :: 0 <= j < attempts ==> !slots[Offset(start, j, n)].active
    {
      OffsetStep(start, attempts, n);
      idx := (idx + 1) % n;
      attempts := attempts + 1;
    }
    if attempts == n && AnyActive(slots) {
      var k :| 0 <= k < n && slots[k].active;
      OffsetCovers(start, n, k);
      assert false;
    }
  }

  /** The do-while of moveToNextActiveCookie: step at least once and at
      most n times, stopping at the first active slot. If any slot is
      active it ends on one. */
  method NextActiveAfter(slots: seq<Slot>, start: nat) returns (idx: nat, steps: nat)
    requires start < |slots|
    ensures 1 <= steps <= |slots| && idx == Offset(start, steps, |slots|)
    ensures forall j :: 1 <= j < steps ==> !slots[Offset(start, j, |slots|)].active
    ensures steps < |slots| ==> slots[idx].active
    ensures AnyActive(slots) ==> slots[idx].active
  {
    var n := |slots|;
    OffsetStep(start, 0, n);
    idx, steps := (start + 1) % n, 1;
    while steps < n && !slots[idx].active
      invariant 1 <= steps <= n && idx == Offset(start, steps, n)
      invariant forall j :: 1 <= j < steps ==> !slots[Offset(start, j, n)].active
    {
      OffsetStep(start, steps, n);
      idx := (idx + 1) % n;
      steps := steps + 1;
    }
    if AnyActive(slots) && !slots[idx].active {
      assert steps == n && idx == start;
      var k :| 0 <= k < n && slots[k].active;
      OffsetCovers(start, n, k);
      assert false;
    }
  }

  // ------------------------------------------------------------------ message cursor

  datatype MessageCursor = MessageCursor(index: nat, loops: nat)

  /** The cursor step after every send reply: advance, and wrap to 0 with
      one more loop on reaching the end. The linear position
      `loops * total + index` grows by exactly one and the index stays in
      range. */
  function AdvanceMessage(c: MessageCursor, total: nat): (r: MessageCursor)
    requires c.index < total
    ensures r.index < total
    ensures r.loops * total + r.index == c.loops * total + c.index + 1
  {
    if c.index + 1 >= total then MessageCursor(0, c.loops + 1) else MessageCursor(c.index + 1, c.loops)
  }

  function CursorAfterReplies(n: nat, total: nat): MessageCursor
    requires total > 0
  {
    if n == 0 then MessageCursor(0, 0) else AdvanceMessage(CursorAfterReplies(n - 1, total), total)
  }

  /** After n replies from a fresh session, `currentMessageIndex == n % L`
      and `loopCount == n / L`. */
  lemma {:induction false} CursorAfterRepliesDivMod(n: nat, total: nat)
    requires total > 0
    ensures CursorAfterReplies(n, total).index == n % total
    ensures CursorAfterReplies(n, total).loops == n / total
  {
    if n > 0 {
      CursorAfterRepliesDivMod(n - 1, total);
      var c := CursorAfterReplies(n, total);
      DivModUnique(n, total, c.loops, c.index);
    }
  }

  // ------------------------------------------------------------------ sessions

  /** What a slot's login callback receives. */
  datatype SlotLogin = LoginError | NoHandle | LoggedIn(api: Handle)

  /** What one run of initializeCookiesSequentially does. */
  datatype InitStep = InitIgnored | LoginRequested(slot: nat) | InitComplete | InitStoppedNoActive

  /** What one run of sendNextMessage does. */
  datatype SendStep =
    | SendSkipped
    | StoppedNoActive
    | SendRequested(slot: nat, messageIndex: nat, text: string)

  /** The `session` object of index.js. */
  class Session {
    const id: string
    const threadID: string
    const messages: seq<string>
    var slots: seq<Slot>
    var currentCookieIndex: nat
    var currentMessageIndex: nat
    var totalMessagesSent: nat
    var loopCount: nat
    const delay: int
    const prefix: string
    var running: bool
    var initialized: bool

    /** Both lists are non-empty and both cursors point into them. */
    ghost predicate Valid()
      reads this
    {
      0 < |slots| && 0 < |messages|
      && currentCookieIndex < |slots| && currentMessageIndex < |messages|
    }

    constructor (id: string, threadID: string, messages: seq<string>, slots: seq<Slot>,
                 delay: int, prefix: string)
      requires 0 < |slots| && 0 < |messages|
      ensures Valid()
      ensures this.id == id && this.threadID == threadID && this.messages == messages
      ensures this.slots == slots && this.delay == delay && this.prefix == prefix
      ensures currentCookieIndex == 0 && currentMessageIndex == 0
      ensures totalMessagesSent == 0 && loopCount == 0
      ensures running && !initialized
    {
      this.id := id;
      this.threadID := threadID;
      this.messages := messages;
      this.slots := slots;
      this.delay := delay;
      this.prefix := prefix;
      currentCookieIndex, currentMessageIndex := 0, 0;
      totalMessagesSent, loopCount := 0, 0;
      running, initialized := true, false;
    }

    /** The login callback for slot k: a failure or a missing handle leaves
        the slot inactive, a handle makes it active. Either way the slot is
        no longer initializing and the next slot follows. */
    method OnSlotLogin(k: nat, outcome: SlotLogin)
      requires Valid() && k < |slots|
      modifies this
      ensures Valid()
      ensures outcome.LoggedIn? ==>
                slots == old(slots)[k := old(slots[k]).(active := true, initializing := false,
                                                        api := Some(outcome.api))]
      ensures !outcome.LoggedIn? ==>
                slots == old(slots)[k := old(slots[k]).(active := false, initializing := false)]
      ensures currentCookieIndex == old(currentCookieIndex) && currentMessageIndex == old(currentMessageIndex)
      ensures totalMessagesSent == old(totalMessagesSent) && loopCount == old(loopCount)
      ensures running == old(running) && initialized == old(initialized)
    {
      match outcome
      case LoggedIn(h) =>
        slots := slots[k := slots[k].(api := Some(h), active := true, initializing := false)];
      case _ =>
        slots := slots[k := slots[k].(active := false, initializing := false)];
    }

    /** moveToNextActiveCookie on this session: step the slot cursor at
        least once and at most n times, stopping at the first active slot.
        `steps` is the number of steps taken. */
    method MoveToNextActiveCookie() returns (ghost steps: nat)
      requires Valid()
      modifies this
      ensures Valid() && slots == old(slots)
      ensures 1 <= steps <= |slots| && currentCookieIndex == Offset(old(currentCookieIndex), steps, |slots|)
      ensures forall j :: 1 <= j < steps ==> !slots[Offset(old(currentCookieIndex), j, |slots|)].active
      ensures steps < |slots| ==> slots[currentCookieIndex].active
      ensures AnyActive(slots) ==> slots[currentCookieIndex].active
      ensures !AnyActive(slots) ==> steps == |slots| && currentCookieIndex == old(currentCookieIndex)
      ensures currentMessageIndex == old(currentMessageIndex)
      ensures totalMessagesSent == old(totalMessagesSent) && loopCount == old(loopCount)
      ensures running == old(running) && initialized == old(initialized)
    {
      var idx;
      idx, steps := NextActiveAfter(slots, currentCookieIndex);
      currentCookieIndex := idx;
    }

    /** The send callback for the message sent through slot `slot`. A
        failure disables the slot; a success counts the message for the
        session and the slot. Then the message cursor advances (wrapping
        with one more loop), and, while the session is still in the table
        (`registered`), the slot cursor moves on by `steps` (1 to n) past
        inactive slots, as MoveToNextActiveCookie does. The next send is
        scheduled only while running. */
    method OnSendResult(slot: nat, ok: bool, registered: bool) returns (scheduleNext: bool, ghost steps: nat)
      requires Valid() && slot < |slots|
      modifies this
      ensures Valid()
      ensures |slots| == |old(slots)|
      ensures forall k :: 0 <= k < |slots| && k != slot ==> slots[k] == old(slots[k])
      ensures !ok ==> slots[slot] == old(slots[slot]).(active := false)
                      && totalMessagesSent == old(totalMessagesSent)
      ensures ok ==> slots[slot] == old(slots[slot]).(sentCount := old(slots[slot].sentCount) + 1)
                     && totalMessagesSent == old(totalMessagesSent) + 1
      ensures MessageCursor(currentMessageIndex, loopCount)
              == AdvanceMessage(MessageCursor(old(currentMessageIndex), old(loopCount)), |messages|)
      ensures registered ==>
                1 <= steps <= |slots|
                && currentCookieIndex == Offset(old(currentCookieIndex), steps, |slots|)
                && (forall j :: 1 <= j < steps ==> !slots[Offset(old(currentCookieIndex), j, |slots|)].active)
                && (steps < |slots| ==> slots[currentCookieIndex].active)
                && (AnyActive(slots) ==> slots[currentCookieIndex].active)
                && (!AnyActive(slots) ==> steps == |slots| && currentCookieIndex == old(currentCookieIndex))
      ensures !registered ==> currentCookieIndex == old(currentCookieIndex) && steps == 0
      ensures running == old(running) && initialized == old(initialized)
      ensures scheduleNext == running
    {
      if !ok {
        slots := slots[slot := slots[slot].(active := false)];
      } else {
        totalMessagesSent := totalMessagesSent + 1;
        slots := slots[slot := slots[slot].(sentCount := slots[slot].sentCount + 1)];
      }
      currentMessageIndex := currentMessageIndex + 1;
      if currentMessageIndex >= |messages| {
        currentMessageIndex := 0;
        loopCount := loopCount + 1;
      }
      steps := 0;
      if registered {
        steps := MoveToNextActiveCookie();
      }
      scheduleNext := running;
    }
  }

  /** The `sessions` map of index.js. */
  class SessionTable {
    var sessions: map<string, Session>

    /** Every session is filed under its own id and is valid. */
    ghost predicate Valid()
      reads this, sessions.Values
    {
      forall id :: id in sessions ==> sessions[id].id == id && sessions[id].Valid()
    }

    constructor ()
      ensures Valid() && sessions == map[]
    {
      sessions := map[];
    }

    /** startSending with the fresh session id `sid`: parse both inputs;
        if either has no non-blank line nothing is added, otherwise a new
        running session is filed under `sid`. Its first initialization step
        (InitializeStep(sid, 0)) follows at once in the source. */
    method StartSending(sid: string, credentialText: string, messageText: string,
                        threadID: string, delay: int, prefix: string) returns (r: Option<Session>)
      requires Valid()
      modifies this
      ensures Valid()
      ensures |ParseCredentials(credentialText)| == 0 || |NonBlankLines(messageText)| == 0 ==>
                r.None? && sessions == old(sessions)
      ensures |ParseCredentials(credentialText)| > 0 && |NonBlankLines(messageText)| > 0 ==>
                r.Some? && fresh(r.value) && sessions == old(sessions)[sid := r.value]
                && r.value.slots == ParseCredentials(credentialText)
                && r.value.messages == NonBlankLines(messageText)
                && r.value.threadID == threadID && r.value.delay == delay && r.value.prefix == prefix
                && r.value.running && !r.value.initialized
                && r.value.currentCookieIndex == 0 && r.value.currentMessageIndex == 0
                && r.value.totalMessagesSent == 0 && r.value.loopCount == 0
    {
      var slots := ParseCredentials(credentialText);
      if |slots| == 0 {
        return None;
      }
      var messages := NonBlankLines(messageText);
      if |messages| == 0 {
        return None;
      }
      var s := new Session(sid, threadID, messages, slots, delay, prefix);
      sessions := sessions[sid := s];
      r := Some(s);
    }

    /** stopSending: false for an unknown id; otherwise the session stops
        running, leaves the table, and the result is true. */
    method StopSending(sid: string) returns (r: bool)
      requires Valid()
      modifies this, if sid in sessions then {sessions[sid]} else {}
      ensures Valid()
      ensures r <==> sid in old(sessions)
      ensures sessions == old(sessions) - {sid}
      ensures r ==> var s := old(sessions)[sid];
                    !s.running && s.slots == old(s.slots) && s.initialized == old(s.initialized)
                    && s.currentCookieIndex == old(s.currentCookieIndex)
                    && s.currentMessageIndex == old(s.currentMessageIndex)
                    && s.totalMessagesSent == old(s.totalMessagesSent) && s.loopCount == old(s.loopCount)
    {
      if sid !in sessions {
        return false;
      }
      var s := sessions[sid];
      s.running := false;
      sessions := sessions - {sid};
      r := true;
    }

    /** initializeCookiesSequentially(sid, k): ignored unless the session is
        in the table and running. Past the last slot, the session becomes
        initialized if some slot is active and is stopped otherwise; before
        it, slot k is marked initializing and its login is requested. */
    method InitializeStep(sid: string, k: nat) returns (r: InitStep)
      requires Valid()
      modifies this, if sid in sessions then {sessions[sid]} else {}
      ensures Valid()
      ensures sid !in old(sessions) || !old(sessions[sid].running) ==>
                r == InitIgnored && sessions == old(sessions)
                && (sid in old(sessions) ==> unchanged(old(sessions)[sid]))
      ensures sid in old(sessions) && old(sessions[sid].running) ==>
                var s := old(sessions)[sid];
                var n := |old(s.slots)|;
                s.currentCookieIndex == old(s.currentCookieIndex)
                && s.currentMessageIndex == old(s.currentMessageIndex)
                && s.totalMessagesSent == old(s.totalMessagesSent) && s.loopCount == old(s.loopCount)
                && (k >= n && ActiveCount(old(s.slots)) > 0 ==>
                   r == InitComplete && s.initialized && s.running
                   && sessions == old(sessions) && s.slots == old(s.slots))
                && (k >= n && ActiveCount(old(s.slots)) == 0 ==>
                   r == InitStoppedNoActive && !s.running && s.initialized == old(s.initialized)
                   && sessions == old(sessions) - {sid} && s.slots == old(s.slots))
                && (k < n ==>
                   r == LoginRequested(k) && sessions == old(sessions)
                   && s.slots == old(s.slots)[k := old(s.slots[k]).(initializing := true)]
                   && s.initialized == old(s.initialized) && s.running)
    {
      if sid !in sessions || !sessions[sid].running {
        return InitIgnored;
      }
      var s := sessions[sid];
      if k >= |s.slots| {
        if ActiveCount(s.slots) > 0 {
          s.initialized := true;
          return InitComplete;
        }
        var _ := StopSending(sid);
        return InitStoppedNoActive;
      }
      s.slots := s.slots[k := s.slots[k].(initializing := true)];
      r := LoginRequested(k);
    }

    /** sendNextMessage(sid): ignored unless the session is in the table,
        running and initialized. With no active slot the session is stopped.
        Otherwise the slot cursor is moved forward `scanned` steps, past
        inactive slots, to the first active slot at or after it, and the
        message at the message cursor, with the prefix, is sent through that
        slot. The source's second stop, for a scan that finds no active slot,
        cannot be reached once the active count was positive
        (ActiveCountPositive, FindActiveFrom), so no result stands for it. */
    method SendNextMessage(sid: string) returns (r: SendStep, ghost scanned: nat)
      requires Valid()
      modifies this, if sid in sessions then {sessions[sid]} else {}
      ensures Valid()
      ensures sid !in old(sessions) || !old(sessions[sid].running) || !old(sessions[sid].initialized) ==>
                r == SendSkipped && sessions == old(sessions)
                && (sid in old(sessions) ==> unchanged(old(sessions)[sid]))
      ensures sid in old(sessions) && old(sessions[sid].running) && old(sessions[sid].initialized) ==>
                var s := old(sessions)[sid];
                s.slots == old(s.slots) && s.currentMessageIndex == old(s.currentMessageIndex)
                && s.totalMessagesSent == old(s.totalMessagesSent) && s.loopCount == old(s.loopCount)
                && s.initialized
                && (r.StoppedNoActive? || r.SendRequested?)
                && (r.StoppedNoActive? <==> ActiveCount(s.slots) == 0)
                && (r.StoppedNoActive? ==>
                      sessions == old(sessions) - {sid} && !s.running
                      && s.currentCookieIndex == old(s.currentCookieIndex))
                && (r.SendRequested? ==>
                      sessions == old(sessions) && s.running
                      && scanned < |s.slots|
                      && r.slot == Offset(old(s.currentCookieIndex), scanned, |s.slots|)
                      && (forall j :: 0 <= j < scanned ==>
                            !s.slots[Offset(old(s.currentCookieIndex), j, |s.slots|)].active)
                      && r.slot == s.currentCookieIndex && s.slots[r.slot].active
                      && r.messageIndex == s.currentMessageIndex
                      && r.text == OutgoingText(s.prefix, s.messages[s.currentMessageIndex]))
    {
      scanned := 0;
      if sid !in sessions || !sessions[sid].running || !sessions[sid].initialized {
        return SendSkipped, scanned;
      }
      var s := sessions[sid];
      if ActiveCount(s.slots) == 0 {
        var _ := StopSending(sid);
        return StoppedNoActive, scanned;
      }
      var idx, attempts := FindActiveFrom(s.slots, s.currentCookieIndex);
      s.currentCookieIndex := idx;
      if attempts >= |s.slots| {
        ActiveCountPositive(s.slots);
        assert false;
      }
      scanned := attempts;
      var i := s.currentMessageIndex;
      r := SendRequested(idx, i, OutgoingText(s.prefix, s.messages[i]));
    }
  }
}
