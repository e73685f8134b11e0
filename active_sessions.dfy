/** The monitoring hook that setup installs as monitor.js: for every event of
    the monitored tool it logs one line and keeps the registry of active
    sessions up to date (prune expired records, replace the current session's
    record by id, append it last). Clock readings, the outcome of each file
    operation and `path.basename` are parameters. */
module ActiveSessions {
  import opened JsBuiltins

  /** Records not seen for this many seconds expire. */
  const ExpirySeconds := 300

  /** One row of active-sessions.json. */
  datatype SessionRecord = SessionRecord(id: string, path: string, name: string, lastSeen: int)

  /** Whether `lockFd = fs.openSync(LOCK_FILE, 'w')` succeeded. */
  datatype LockResult = Locked | NotLocked

  /** What reading and parsing active-sessions.json gave. */
  datatype StoredRegistry =
    | Missing                                // readFileSync threw
    | Unparsable                             // JSON.parse threw
    | NotAnArray                             // parsed, but to a value without `filter`
    | Records(records: seq<SessionRecord>)

  /** What an update did to active-sessions.json. */
  datatype UpdateOutcome =
    | Skipped                                // the lock could not be opened
    | Aborted                                // an exception inside the locked section; nothing written
    | Written(registry: seq<SessionRecord>)  // the file now holds exactly `registry`

  /** The fields of the hook's JSON payload that the hook reads. */
  datatype Payload = Payload(
    sessionId: Option<string>,
    toolName: Option<string>,
    tool: Option<string>,
    transcriptPath: Option<string>,
    cwd: Option<string>)

  /** Standard input of the hook. */
  datatype HookInput = Malformed | Json(payload: Payload)

  /** One line of events.jsonl. */
  datatype LogEntry = LogEntry(ts: int, event: string, session: string, tool: string, data: Payload)

  /** Whether each file operation of one hook run succeeds, and what the
      registry file holds when it is read. */
  datatype Environment = Environment(
    logAppendable: bool,
    pointerWritable: bool,
    lock: LockResult,
    stored: StoredRegistry,
    registryWritable: bool)

  /** The effects of one hook run: the log line appended, the path written to
      current-transcript.txt, and whether and how the registry was updated. */
  datatype HookEffects = HookEffects(
    logged: Option<LogEntry>,
    pointer: Option<string>,
    update: Option<UpdateOutcome>)

  /** A record is kept by the prune of an update for `sessionId` at `cutoff`
      when it has not expired and belongs to another session. */
  predicate Survives(r: SessionRecord, sessionId: string, cutoff: int) {
    r.lastSeen > cutoff && r.id != sessionId
  }

  /** The filter callback `s => s.lastSeen > cutoff && s.id !== sessionId` */
  function SurvivesFor(sessionId: string, cutoff: int): SessionRecord -> bool {
    r => Survives(r, sessionId, cutoff)
  }

  /** `sessions.filter(s => s.lastSeen > cutoff && s.id !== sessionId)` */
  function Pruned(sessions: seq<SessionRecord>, sessionId: string, cutoff: int): seq<SessionRecord> {
    Filter(sessions, SurvivesFor(sessionId, cutoff))
  }

  /** The registry after pruning at `cutoff` and appending `current`. */
  function Upsert(sessions: seq<SessionRecord>, current: SessionRecord, cutoff: int): (r: seq<SessionRecord>)
    ensures 0 < |r| <= |sessions| + 1
    ensures r[|r| - 1] == current
    ensures forall i :: 0 <= i < |r| - 1 ==> r[i] in sessions && r[i].lastSeen > cutoff && r[i].id != current.id
    ensures forall i :: 0 <= i < |r| && r[i].id == current.id ==> i == |r| - 1
  {
    Pruned(sessions, current.id, cutoff) + [current]
  }

  /** Every old record that has not expired and belongs to another session
      is kept, before the current record. */
  lemma UpsertKeepsSurvivors(sessions: seq<SessionRecord>, current: SessionRecord, cutoff: int)
    ensures var r := Upsert(sessions, current, cutoff);
      forall i :: 0 <= i < |sessions| && sessions[i].lastSeen > cutoff && sessions[i].id != current.id ==>
        sessions[i] in r[..|r| - 1]
  {
    var r := Upsert(sessions, current, cutoff);
    assert r[..|r| - 1] == Pruned(sessions, current.id, cutoff);
    FilterKeeps(sessions, SurvivesFor(current.id, cutoff));
  }

  /** The record an update writes for the current session. */
  function NewRecord(sessionId: string, transcriptPath: string, cwd: string, clockMs: int,
                     basename: string -> string): SessionRecord
  {
    SessionRecord(sessionId, transcriptPath, basename(cwd), clockMs / 1000)
  }

  /** What an update of the registry with `current` does. */
  function RegistryUpdate(lock: LockResult, stored: StoredRegistry, writable: bool, current: SessionRecord): (o: UpdateOutcome)
    ensures lock.NotLocked? ==> o == Skipped
    ensures o.Written? <==> lock.Locked? && writable && !stored.NotAnArray?
    ensures o.Written? && (stored.Missing? || stored.Unparsable?) ==> o.registry == [current]
  {
    if lock.NotLocked? then Skipped
    else if stored.NotAnArray? || !writable then Aborted
    else
      var sessions := if stored.Records? then stored.records else [];
      Written(Upsert(sessions, current, current.lastSeen - ExpirySeconds))
  }

  /** updateActiveSessions(sessionId, transcriptPath, cwd): `clockMs` is the
      reading of `Date.now()` it takes, `basename` is `path.basename`. */
  method UpdateActiveSessions(sessionId: string, transcriptPath: string, cwd: string, clockMs: int,
                              basename: string -> string, lock: LockResult, stored: StoredRegistry,
                              writable: bool)
    returns (outcome: UpdateOutcome)
    ensures outcome == RegistryUpdate(lock, stored, writable, NewRecord(sessionId, transcriptPath, cwd, clockMs, basename))
  {
    var now := clockMs / 1000;
    var cutoff := now - ExpirySeconds;
    var projectName := basename(cwd);
    if lock.NotLocked? {
      return Skipped;
    }
    var sessions: seq<SessionRecord> := [];
    match stored {
      case Records(rs) => sessions := rs;
      case NotAnArray => return Aborted;
      case Missing => sessions := [];
      case Unparsable => sessions := [];
    }
    sessions := Pruned(sessions, sessionId, cutoff);
    sessions := sessions + [SessionRecord(sessionId, transcriptPath, projectName, now)];
    if !writable {
      return Aborted;
    }
    outcome := Written(sessions);
  }

  /** The registry is tracked for an event only when it names a transcript
      and a session. */
  predicate Tracked(p: Payload) {
    Truthy(p.transcriptPath) && Or(p.sessionId, "unknown") != "unknown"
  }

  /** processHook(rawInput) for the event type `eventArg` (process.argv[2]);
      `clockMs` and `updateClockMs` are the two readings of `Date.now()`. */
  method ProcessHook(eventArg: Option<string>, input: HookInput, clockMs: int, updateClockMs: int,
                     basename: string -> string, env: Environment)
    returns (effects: HookEffects)
    ensures input.Malformed? ==> effects == HookEffects(None, None, None)
    ensures input.Json? && env.logAppendable ==>
      effects.logged == Some(LogEntry(clockMs, Or(eventArg, "unknown"), Or(input.payload.sessionId, "unknown"),
                                      Or(input.payload.toolName, Or(input.payload.tool, "unknown")), input.payload))
    ensures effects.logged.Some? <==> input.Json? && env.logAppendable
    ensures effects.pointer.Some? <==> input.Json? && env.logAppendable && env.pointerWritable && Tracked(input.payload)
    ensures effects.pointer.Some? ==> effects.pointer.value == input.payload.transcriptPath.value
    ensures effects.update.Some? <==> effects.pointer.Some?
    ensures effects.update.Some? ==>
      effects.update.value == RegistryUpdate(env.lock, env.stored, env.registryWritable,
        NewRecord(input.payload.sessionId.value, input.payload.transcriptPath.value,
                  Or(input.payload.cwd, "unknown"), updateClockMs, basename))
  {
    effects := HookEffects(None, None, None);
    if input.Malformed? {
      return;
    }
    var data := input.payload;
    var eventType := Or(eventArg, "unknown");
    var sessionId := Or(data.sessionId, "unknown");
    var toolName := Or(data.toolName, Or(data.tool, "unknown"));
    if !env.logAppendable {
      return;
    }
    effects := effects.(logged := Some(LogEntry(clockMs, eventType, sessionId, toolName, data)));
    var transcriptPath := data.transcriptPath;
    if Truthy(transcriptPath) && sessionId != "" && sessionId != "unknown" {
      if !env.pointerWritable {
        return;
      }
      effects := effects.(pointer := Some(transcriptPath.value));
      var outcome := UpdateActiveSessions(sessionId, transcriptPath.value, Or(data.cwd, "unknown"),
                                          updateClockMs, basename, env.lock, env.stored, env.registryWritable);
      effects := effects.(update := Some(outcome));
    }
  }

  /** At most one record per session id. */
  ghost predicate UniqueIds(sessions: seq<SessionRecord>) {
    forall i, j :: 0 <= i < j < |sessions| ==> sessions[i].id != sessions[j].id
  }

  /** Pruning keeps the records it keeps unchanged and in their original
      order, so the registry written is such a subsequence of the one read,
      followed by the current record. */
  lemma UpsertKeepsOrder(sessions: seq<SessionRecord>, current: SessionRecord, cutoff: int)
    ensures var r := Upsert(sessions, current, cutoff);
      Subsequence(r[..|r| - 1], sessions)
  {
    var r := Upsert(sessions, current, cutoff);
    assert r[..|r| - 1] == Pruned(sessions, current.id, cutoff);
    FilterSubsequence(sessions, SurvivesFor(current.id, cutoff));
  }

  /** Pruning never introduces two records for one id. */
  lemma {:induction false} PrunedUniqueIds(sessions: seq<SessionRecord>, sessionId: string, cutoff: int)
    requires UniqueIds(sessions)
    ensures UniqueIds(Pruned(sessions, sessionId, cutoff))
  {
    if sessions != [] {
      var first := sessions[0];
      var rest := sessions[1..];
      assert forall j :: 0 <= j < |rest| ==> rest[j] == sessions[j + 1];
      PrunedUniqueIds(rest, sessionId, cutoff);
      var tail := Pruned(rest, sessionId, cutoff);
      if Survives(first, sessionId, cutoff) {
        assert forall k :: 0 <= k < |tail| ==> tail[k] in rest;
        assert forall k :: 0 <= k < |tail| ==> tail[k].id != first.id;
        ConsUniqueIds(first, tail);
        assert Pruned(sessions, sessionId, cutoff) == [first] + tail;
      } else {
        assert Pruned(sessions, sessionId, cutoff) == tail;
      }
    }
  }

  /** A record whose id no other record has can be put in front. */
  lemma ConsUniqueIds(first: SessionRecord, tail: seq<SessionRecord>)
    requires UniqueIds(tail)
    requires forall k :: 0 <= k < |tail| ==> tail[k].id != first.id
    ensures UniqueIds([first] + tail)
  {
  }

  /** The registry keeps at most one record per session id across updates. */
  lemma UpsertUniqueIds(sessions: seq<SessionRecord>, current: SessionRecord, cutoff: int)
    requires UniqueIds(sessions)
    ensures UniqueIds(Upsert(sessions, current, cutoff))
  {
    PrunedUniqueIds(sessions, current.id, cutoff);
  }

  /** A written registry ends with the current session's record, stamped
      with the update's own clock reading, and holds no other record for that
      session; every earlier record is unexpired, and the registry is at most
      one record longer than the one read. */
  lemma WrittenRegistryShape(sessionId: string, transcriptPath: string, cwd: string, clockMs: int,
                             basename: string -> string, stored: StoredRegistry)
    requires RegistryUpdate(Locked, stored, true, NewRecord(sessionId, transcriptPath, cwd, clockMs, basename)).Written?
    ensures var reg := RegistryUpdate(Locked, stored, true, NewRecord(sessionId, transcriptPath, cwd, clockMs, basename)).registry;
      var read := if stored.Records? then stored.records else [];
      && 0 < |reg| <= |read| + 1
      && reg[|reg| - 1] == SessionRecord(sessionId, transcriptPath, basename(cwd), clockMs / 1000)
      && (forall i :: 0 <= i < |reg| && reg[i].id == sessionId ==> i == |reg| - 1)
      && (forall i :: 0 <= i < |reg| - 1 ==> reg[i].lastSeen > clockMs / 1000 - ExpirySeconds)
  {
  }

  /** The records a written registry keeps before the current one appear in
      the registry read, unchanged and in their stored order. */
  lemma WrittenRegistryOrder(sessionId: string, transcriptPath: string, cwd: string, clockMs: int,
                             basename: string -> string, stored: StoredRegistry)
    requires RegistryUpdate(Locked, stored, true, NewRecord(sessionId, transcriptPath, cwd, clockMs, basename)).Written?
    ensures var reg := RegistryUpdate(Locked, stored, true, NewRecord(sessionId, transcriptPath, cwd, clockMs, basename)).registry;
      Subsequence(reg[..|reg| - 1], if stored.Records? then stored.records else [])
  {
    var current := NewRecord(sessionId, transcriptPath, cwd, clockMs, basename);
    var read := if stored.Records? then stored.records else [];
    var cutoff := current.lastSeen - ExpirySeconds;
    assert RegistryUpdate(Locked, stored, true, current) == Written(Upsert(read, current, cutoff));
    UpsertKeepsOrder(read, current, cutoff);
  }

  /** Expiry at the window's edge: a record last seen 301 seconds ago is
      dropped, one last seen 299 seconds ago is kept (unless it is the
      current session's, which is replaced). */
  lemma ExpiryBoundary(sessions: seq<SessionRecord>, current: SessionRecord, stale: SessionRecord, recent: SessionRecord)
    requires stale in sessions && stale.lastSeen == current.lastSeen - 301
    requires recent in sessions && recent.lastSeen == current.lastSeen - 299 && recent.id != current.id
    ensures var r := Upsert(sessions, current, current.lastSeen - ExpirySeconds);
      stale !in r && recent in r
  {
    var r := Upsert(sessions, current, current.lastSeen - ExpirySeconds);
    UpsertKeepsSurvivors(sessions, current, current.lastSeen - ExpirySeconds);
    assert recent in r[..|r| - 1];
    assert r == r[..|r| - 1] + [current];
  }

  /** Two updates for one session in a row leave exactly one record for it,
      the later one. */
  lemma ReentryLeavesOneRecord(sessions: seq<SessionRecord>, first: SessionRecord, second: SessionRecord)
    requires first.id == second.id
    ensures var r := Upsert(Upsert(sessions, first, first.lastSeen - ExpirySeconds), second, second.lastSeen - ExpirySeconds);
      r[|r| - 1] == second && forall i :: 0 <= i < |r| - 1 ==> r[i].id != second.id
  {
  }

  /** A missing or unparsable registry yields the current record alone; a
      lock that cannot be opened leaves the registry alone. */
  lemma FallbackOutcomes(current: SessionRecord, stored: StoredRegistry)
    ensures RegistryUpdate(Locked, Missing, true, current) == Written([current])
    ensures RegistryUpdate(Locked, Unparsable, true, current) == Written([current])
    ensures RegistryUpdate(NotLocked, stored, true, current) == Skipped
  {
  }

  /** Three updates at 1000 s, 1200 s and 1400 s: the third prunes the
      first (1000 <= 1400 - 300) and keeps the second. */
  lemma ThreeSessionScenario(s1: SessionRecord, s2: SessionRecord, s3: SessionRecord)
    requires s1 == SessionRecord("s1", "/tmp/t1", "proj1", 1000)
    requires s2 == SessionRecord("s2", "/tmp/t2", "proj2", 1200)
    requires s3 == SessionRecord("s3", "/tmp/t3", "proj3", 1400)
    ensures RegistryUpdate(Locked, Missing, true, s1) == Written([s1])
    ensures RegistryUpdate(Locked, Records([s1]), true, s2) == Written([s1, s2])
    ensures RegistryUpdate(Locked, Records([s1, s2]), true, s3) == Written([s2, s3])
  {
    assert s1.id != s2.id && s1.id != s3.id && s2.id != s3.id by {
      assert s1.id[1] == '1' && s2.id[1] == '2' && s3.id[1] == '3';
    }
    assert Filter([s1], SurvivesFor(s2.id, 900)) == [s1] + Filter([], SurvivesFor(s2.id, 900));
    assert [s1, s2][1..] == [s2];
    assert Filter([s1, s2], SurvivesFor(s3.id, 1100)) == Filter([s2], SurvivesFor(s3.id, 1100));
    assert Filter([s2], SurvivesFor(s3.id, 1100)) == [s2] + Filter([], SurvivesFor(s3.id, 1100));
  }
}
