# Claude session monitor: verified model of the hook, settings and transcript logic

This project models the logic at the centre of the session monitor's `main.js`
and proves properties about that model. The monitor is an Electron app that
watches tool sessions of the host CLI. Four Dafny modules make up the model:

- `JsBuiltins` (`js_builtins.dfy`) covers the JavaScript built-ins that the
  logic relies on: `Array.prototype.filter`, `String.prototype.includes` and
  `startsWith`, and the `a || 'unknown'` defaulting of JSON fields. It also
  proves the lemmas about them that the other modules use: order is kept,
  filters distribute over concatenation and absorb one another, and the
  search finds an occurrence exactly when one exists.
- `ActiveSessions` (`active_sessions.dfy`) covers the hook script that setup
  installs as `~/.claude/monitor.js`:
  - `ProcessHook` logs one line per event, applying the `"unknown"` defaults.
    For a tracked event it also writes the current-transcript pointer and
    updates the registry of active sessions.
  - `UpdateActiveSessions` is the registry update itself. It treats a missing
    or unparsable file as `[]`, drops expired records and the current
    session's own record, appends a fresh record and writes the result.
    It is imperative and is proved equal to the specification function
    `RegistryUpdate`, which is built on `Upsert`.
- `HookSettings` (`hook_settings.dfy`) covers the three operations on the
  host CLI's `settings.json`:
  - `MergeMonitorHooks` is `runSetup`'s merge loop, proved equal to `Install`.
  - `StripMonitorHooks` is `runUninstall`'s nested strip loops, proved equal
    to `Uninstall`.
  - `CheckSetupStatus` is the detection done by `checkSetupStatus`.

  The lemmas relate the three operations:
  - installing is idempotent;
  - detection holds after an install and fails after an uninstall;
  - uninstalling after installing equals uninstalling alone.
- `TranscriptAccess` (`transcript_access.dfy`) covers the path checks of the
  `read-transcript` request, in the handler's own order.

The model's inputs stand in for the parts of the program it does not define:

- clock readings (`Date.now()`);
- whether each file operation succeeds;
- what a file holds once it has been parsed;
- the path helpers (`path.normalize`, `path.join(CLAUDE_DIR, ·)`,
  `path.resolve`, `path.basename`).

Paths follow POSIX conventions: `path.sep` is `/` and an absolute path starts
with `/`.

The lock file is opened with `fs.openSync(LOCK_FILE, 'w')` (main.js:113),
which succeeds even when another process has it open, so it gives no mutual
exclusion. The model has only "lock opened / not opened" and makes no claim
about exclusion.

## Model

| member | source | states |
|---|---|---|
| JsBuiltins.Filter | main.js:128 | `filter` keeps a subset of the input: the result is no longer than the input, and each of its elements is from the input and passes the test |
| JsBuiltins.FilterKeeps | main.js:128 | every input element that passes the test is in the result of `filter` |
| JsBuiltins.FilterSubsequence | main.js:128 | `filter` only deletes elements, so the kept ones stay in their original relative order |
| JsBuiltins.FilterConcat | main.js:286-294 | `filter` of a concatenation is the concatenation of the filtered parts |
| JsBuiltins.FilterAbsorbs | main.js:250-288 | applying a looser filter and then a stricter one is the same as applying the stricter one alone (setup's monitor.js filter followed by uninstall's monitor.js/monitor.sh filter) |
| JsBuiltins.FilterKeepsAll | main.js:250-252 | a filter that every element passes returns its input unchanged |
| JsBuiltins.FilterDropsLast | main.js:250-255 | filtering elements that all pass, followed by one that fails, gives back the elements that pass |
| JsBuiltins.FilterKeepsNone | main.js:292-294 | a filter that no element passes returns the empty array |
| JsBuiltins.Truthy | main.js:99 | JavaScript truthiness of an optional string field: present and non-empty; its properties are carried by `ProcessHook` |
| JsBuiltins.Or | main.js:82-84 | JavaScript's or-defaulting of an optional string field to a fallback; the defaults it yields are stated by `ProcessHook` |
| JsBuiltins.StartsWith | main.js:380 | `s.startsWith(prefix)`; its use is stated by `RefusalRules`, `AllowedIsConfined` and `DotFreeVerdict` |
| JsBuiltins.Includes | main.js:174 | `s.includes(sub)` as a front-to-back search; `IncludesIff` and `IncludesAt` relate it to an occurrence at an index |
| JsBuiltins.IncludesIff | main.js:174 | the front-to-back search of `includes` succeeds exactly when the substring occurs at some index (both directions) |
| JsBuiltins.IncludesAt | main.js:174 | an occurrence at a known index makes `includes` true |
| ActiveSessions.Survives | main.js:128 | the callback of the prune: unexpired and of another session; `Upsert` and `UpsertKeepsSurvivors` state what it keeps |
| ActiveSessions.Pruned | main.js:128 | `sessions.filter(...)` with that callback; `PrunedUniqueIds` and `UpsertKeepsOrder` state its properties |
| ActiveSessions.NewRecord | main.js:106-136 | the record pushed for the current session; `WrittenRegistryShape` states its fields |
| ActiveSessions.Tracked | main.js:99 | the condition for tracking a session: truthy transcript path and a session id other than `"unknown"`; `ProcessHook` states its effect |
| ActiveSessions.Upsert | main.js:127-136 | the new registry is non-empty and at most one longer than the old one. Its last record is the current one, which is the only record with the current id. Every earlier record comes from the old registry, has not expired and has another id |
| ActiveSessions.UpsertKeepsSurvivors | main.js:128 | every old record that is unexpired and has another id is kept, before the current record |
| ActiveSessions.RegistryUpdate | main.js:111-138 | a lock that cannot be opened means the registry is not touched. The registry is written exactly when the lock opened, the write succeeds and the stored value can be filtered. A missing or unparsable registry is written as the new record alone |
| ActiveSessions.UpdateActiveSessions | main.js:105-142 | the imperative update (floor of milliseconds/1000, cutoff 300 s before now, basename of cwd; lock, read, parse, filter, push, write) has exactly the outcome `RegistryUpdate` gives for the record it builds |
| ActiveSessions.ProcessHook | main.js:80-103 | malformed input has no effect. The log entry carries `ts`, the event, the session, the tool (`tool_name`, then `tool`, then `"unknown"`) and the fields of the payload the hook reads. The pointer file and the registry are written exactly when the log line was written, the transcript path is truthy and the session id is not `"unknown"`; the pointer holds the transcript path, and the registry update uses the second clock reading and `cwd` or `"unknown"` |
| ActiveSessions.UpsertKeepsOrder | main.js:128-136 | the records kept from the old registry are a subsequence of it: unchanged and in their original order |
| ActiveSessions.PrunedUniqueIds | main.js:128 | the prune never produces two records with one session id when the input has none |
| ActiveSessions.ConsUniqueIds | main.js:128 | a record whose id no other record has can be put in front without creating a duplicate id |
| ActiveSessions.UpsertUniqueIds | main.js:128-136 | an update keeps at most one record per session id |
| ActiveSessions.WrittenRegistryShape | main.js:105-138 | a written registry ends with `{id, path, name: basename(cwd), lastSeen: floor(now/1000)}`. No other record has that id. Every earlier record is newer than the cutoff. The registry is at most one longer than the stored one |
| ActiveSessions.WrittenRegistryOrder | main.js:119-136 | the records a written registry keeps before the current one are a subsequence of the stored registry: unchanged and in their stored order |
| ActiveSessions.ExpiryBoundary | main.js:106-128 | a record last seen 301 s ago is dropped, and a record of another session last seen 299 s ago is kept |
| ActiveSessions.ReentryLeavesOneRecord | main.js:128-136 | two updates in a row for one session leave exactly one record for it, the later one, at the end |
| ActiveSessions.FallbackOutcomes | main.js:112-125 | a missing or unparsable registry is written as the single new record, and a lock that cannot be opened skips the update |
| ActiveSessions.ThreeSessionScenario | main.js:105-138 | updates at 1000 s, 1200 s and 1400 s yield `[s1]`, then `[s1, s2]`, then `[s2, s3]` |
| HookSettings.MonitorHook | main.js:225-228 | the hook object setup installs; `MonitorHookIsMonitor` states that both filters drop it |
| HookSettings.KeptBySetup | main.js:250-252 | setup's filter callback, no monitor.js in the command; `MergeEntriesShape` and `FilterAbsorbs` state its use |
| HookSettings.KeptByUninstall | main.js:286-288 | uninstall's filter callback, neither monitor.js nor monitor.sh; `StripEntriesClean` states its use |
| HookSettings.RunsMonitor | main.js:174 | `hasMonitorHook`: the command mentions monitor.js or monitor.sh; `CheckSetupStatus` states its use |
| HookSettings.EntryRunsMonitor | main.js:178 | `h.hooks?.some(...)` for one entry |
| HookSettings.TypeRunsMonitor | main.js:177-185 | `.some(...)` over one hook type's entries, an absent type counting as `[]` |
| HookSettings.HooksConfigured | main.js:187 | all three types have a monitor hook; `InstallConfigures` and `UninstallUnconfigures` state when it holds |
| HookSettings.MergeEntries | main.js:238-255 | setup's merge of one type's entries; `MergeEntriesShape`, `MergeEntriesIdempotent` and `StripAfterMerge` state its properties |
| HookSettings.MergeType | main.js:237-256 | one iteration of setup's loop; `MergeTypeAt` states what it changes |
| HookSettings.Install | main.js:222-256 | the settings setup writes; `InstallIdempotent`, `InstallConfigures` and `UninstallUndoesInstall` state its properties |
| HookSettings.RunSetupSettings | main.js:212-256 | the settings step of runSetup (read or start from `{}`, then merge) writes exactly `Install(SetupBase(file))` |
| HookSettings.SetupFromFile | main.js:212-256 | whatever settings.json held, the file runSetup writes keeps its other top-level keys and is reported configured |
| HookSettings.FirstWildcard | main.js:243 | `find(h => h.matcher === '*')` returns the index of the first wildcard entry, or nothing when no entry is a wildcard |
| HookSettings.FirstWildcardAt | main.js:243 | a wildcard entry preceded only by non-wildcard entries is the one `find` returns |
| HookSettings.MergeEntriesShape | main.js:238-255 | after the merge, the first wildcard entry is the old one, or a new one appended when there was none. Its hooks are its old hooks without monitor.js commands, in order, followed by the monitor hook. Every other entry is unchanged |
| HookSettings.MergeWildcardEntry | main.js:243-255 | the loop body for one hook type's array (find or push the wildcard entry, filter its hooks, push the monitor hook) produces exactly the entries `MergeEntries` describes, whose shape `MergeEntriesShape` states |
| HookSettings.MergeMonitorHooks | main.js:222-256 | the imperative `for` loop over PreToolUse, PostToolUse and Stop produces exactly the settings `Install` describes |
| HookSettings.MergeTypesStep | main.js:237-256 | one iteration of the loop extends the merge of the types already visited by one more hook type |
| HookSettings.InstallUnfolds | main.js:231-237 | setup visits PreToolUse, then PostToolUse, then Stop |
| HookSettings.MergeTypeAt | main.js:238-256 | one iteration of setup's loop adds or replaces its own hook type and leaves every other key alone |
| HookSettings.InstalledAt | main.js:237-256 | after setup the three monitored types are present and hold their merged entries, and every other hook type is unchanged |
| HookSettings.MonitorHookIsMonitor | main.js:225-228 | the command `node "$HOME/.claude/monitor.js" <arg>` contains monitor.js, so both setup's and uninstall's filters drop it |
| HookSettings.MergedHooksAreFixed | main.js:250-255 | setup's filter over hooks without monitor.js, followed by the monitor hook, gives back those hooks, so pushing the monitor hook again restores the input |
| HookSettings.MergeEntriesIdempotent | main.js:238-255 | merging one hook type's entries a second time changes nothing |
| HookSettings.InstallIdempotent | main.js:222-256 | running the setup merge twice gives the same settings as running it once |
| HookSettings.InstallConfigures | main.js:174-256 | after the setup merge, the detection finds a monitor hook for all three types |
| HookSettings.StripEntry | main.js:284-289 | uninstall's pass over one entry; `StripEntriesClean` states its result |
| HookSettings.StripEntries | main.js:283-294 | what uninstall leaves of one type's entries; `StripEntriesClean` and `StripAfterMerge` state its properties |
| HookSettings.StripType | main.js:282-299 | one iteration of uninstall's loop; `StripTypeAt` states what it changes |
| HookSettings.Uninstall | main.js:278-305 | the settings uninstall writes; `UninstallCleans`, `UninstallUnconfigures` and `UninstallUndoesInstall` state its properties |
| HookSettings.StripEach | main.js:283-290 | the in-place pass over a type's entries changes none of their positions |
| HookSettings.StripMonitorHooks | main.js:278-305 | the imperative nested loops produce exactly the settings `Uninstall` describes |
| HookSettings.UninstallUnfolds | main.js:279-281 | uninstall visits PreToolUse, then PostToolUse, then Stop |
| HookSettings.StripTypeAt | main.js:282-299 | one iteration of uninstall's loop keeps its own hook type exactly when something is left of its stripped entries, and leaves every other key alone |
| HookSettings.UninstalledAt | main.js:281-300 | a monitored type survives uninstall exactly when something is left of its stripped entries, and it then holds them; every other type is unchanged |
| HookSettings.StripEntriesClean | main.js:283-294 | every entry left has a non-empty `hooks` array that holds no monitor.js or monitor.sh command |
| HookSettings.UninstallCleans | main.js:278-305 | after uninstall, no monitored type holds an empty array, an entry without hooks, or a monitor command. `hooks` is deleted exactly when no key is left, and a remaining `hooks` is never empty. Other hook types and the other top-level keys are unchanged |
| HookSettings.UninstallUnconfigures | main.js:174-305 | after uninstall the detection finds no monitor hook for any of the three types, so it reports not configured |
| HookSettings.StripEachAppend | main.js:283-290 | stripping entries with one entry appended equals stripping them and appending that entry stripped |
| HookSettings.StripEachUpdate | main.js:283-290 | stripping entries after replacing one equals stripping them and replacing that one stripped |
| HookSettings.FilterReplaceDropped | main.js:292-294 | replacing one entry that the empty-entry filter drops with another that it also drops leaves the result unchanged |
| HookSettings.StripAfterMerge | main.js:243-294 | stripping a type's entries after setup merged them equals stripping the original entries |
| HookSettings.UninstallUndoesInstall | main.js:222-305 | uninstall after setup leaves what uninstall alone leaves: setup adds nothing that uninstall keeps |
| HookSettings.CheckSetupStatus | main.js:148-189 | the hooks are reported configured exactly when the directory exists, settings.json parses and all three types have an entry with a monitor.js or monitor.sh command. The script is reported present exactly when the directory and one of the scripts exist. A parse error is recorded exactly when settings.json exists but does not parse |
| HookSettings.SetupBase | main.js:212-219 | setup starts from `{}` when settings.json is missing or cannot be parsed |
| TranscriptAccess.IsAbsolute | main.js:374 | `path.isAbsolute` on POSIX: a leading `/`; `AllowedIsConfined` states that an allowed path is not absolute |
| TranscriptAccess.CheckTranscriptPath | main.js:366-392 | a path is allowed only when the argument is a string, its normalised form starts with `projects/`, the file path is the join of that form, and that file path resolves inside CLAUDE_DIR |
| TranscriptAccess.ReadTranscript | main.js:364-398 | a refused path gives `''`; an allowed path gives the file's contents, or `''` when the read fails |
| TranscriptAccess.RefusalRules | main.js:366-383 | an empty or non-string argument is refused. So is a normalised path with two consecutive dots at any index, and an absolute one. A path that passes those checks but does not start with `projects/` is refused as outside projects |
| TranscriptAccess.AllowedIsConfined | main.js:371-383 | an allowed normalised path is relative, starts with `projects/`, and has no `..` segment |
| TranscriptAccess.DotFreeVerdict | main.js:374-392 | for a relative normalised path in which no dot is followed by another dot, only the `projects/` prefix and the resolved location decide the verdict |
| TranscriptAccess.NoDoubleDot | main.js:374 | a string in which no dot is followed by another dot does not include `..` |
| TranscriptAccess.DotsInsideANameAreRefused | main.js:374 | `projects/a..b` is refused as traversal even though it has no `..` segment |
| TranscriptAccess.ParentTraversalRefused | main.js:374-376 | `../../etc/passwd` is refused with `''` |
| TranscriptAccess.AbsolutePathRefused | main.js:374-376 | `/etc/passwd` is refused with `''` |
| TranscriptAccess.PrefixLookalikeRefused | main.js:380-383 | `projectsXYZ/evil` is refused as outside projects, with `''` |
| TranscriptAccess.ProjectTranscriptRead | main.js:385-395 | `projects/abc/transcript.txt` is read when it resolves inside CLAUDE_DIR |

## Left out

- The Electron window, the app lifecycle, the dock icon and the registration of IPC handlers (main.js:1-48, 342-362) are left out. They are UI plumbing with no logic to verify.
- preload.js is left out. It only forwards calls to `ipcRenderer.invoke`.
- The `read-sessions` handler is left out. It only reads a file, falling back to `'[]'`.
- Filesystem effects are not performed; their outcomes are parameters and results. These effects are: appending to events.jsonl, writing current-transcript.txt and active-sessions.json, `mkdirSync`, writing the monitor script, the deletions in runUninstall, and the `existsSync` checks. runSetup's own steps (creating the directory and writing the script) and runUninstall's script removal are left out.
- Cross-process locking and concurrency are not modelled. The lock is only "opened or not", and the closing in `finally` has no observable effect in the model.
- `Date.now()` is passed in as milliseconds. ProcessHook takes two readings, since the source calls `Date.now()` twice.
- JSON parsing and formatting are not modelled: the model starts from the parsed value, and an unparsable file is a separate case. JSON values that are not strings for the fields the hook reads are not modelled. Nor are registry elements without `lastSeen`/`id`, or extra fields of entries and hooks. The other top-level keys of settings.json are carried along as opaque values.
- `path.normalize`, `path.join`, `path.resolve`, `path.basename` and `os.homedir()` are abstract parameters. Windows separators and drive letters are not modelled.
- CheckTranscriptPath: the final "resolved path stays inside CLAUDE_DIR" check is stated only in terms of the abstract `path.resolve`. It is not derived from the semantics of path resolution.
- ProcessHook: the exception a throwing `appendFileSync` or pointer write causes ends the run; it is modelled as "no further effects" rather than as an exception.
- ProcessHook: the logged `data` holds only the payload fields the hook reads (`session_id`, `tool_name`, `tool`, `transcript_path`, `cwd`), not the whole input object that main.js:93 logs.
- SessionRecord has exactly the four fields the hook writes and an integer `lastSeen`; a stored record with extra fields or a non-integer `lastSeen`, which `sessions.filter` (main.js:128) would keep or drop unchanged, cannot be expressed.
- The `console.warn` diagnostics of the transcript handler (main.js:375, 381, 390) are not modelled; the `Refusal` reason of a `Refused` verdict stands in for them.
