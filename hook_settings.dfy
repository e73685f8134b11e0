/** Maintenance of the monitored tool's settings.json: installing the monitor
    hook for PreToolUse, PostToolUse and Stop (merging with what is already
    there), removing it again, and detecting whether it is configured. */
module HookSettings {
  import opened JsBuiltins

  /** One hook object, `{type, command}`. */
  datatype Hook = Hook(kind: Option<string>, command: Option<string>)

  /** One matcher entry of a hook type, `{matcher, hooks}`. */
  datatype Entry = Entry(matcher: Option<string>, hooks: Option<seq<Hook>>)

  /** `settings.hooks`: hook type name to its array of entries. */
  type HookTable = map<string, seq<Entry>>

  /** A settings object: its `hooks` key, and every other top-level key with
      its value as JSON text. */
  datatype Settings = Settings(hooks: Option<HookTable>, rest: map<string, string>)

  /** What reading settings.json gave. */
  datatype SettingsFile = Absent | Unparsable | Parsed(settings: Settings)

  /** The hook types setup installs into, with the event argument each passes
      to the monitor script, in the order setup visits them. */
  const MonitorTypes: seq<(string, string)> := [("PreToolUse", "pre_tool"), ("PostToolUse", "post_tool"), ("Stop", "stop")]

  /** The hook types uninstall cleans, in the order it visits them. */
  const MonitorTypeNames: seq<string> := ["PreToolUse", "PostToolUse", "Stop"]

  predicate IsMonitorType(hookType: string) {
    hookType == "PreToolUse" || hookType == "PostToolUse" || hookType == "Stop"
  }

  /** The event argument setup installs for a monitored hook type. */
  function EventArgOf(hookType: string): string {
    if hookType == "PreToolUse" then "pre_tool"
    else if hookType == "PostToolUse" then "post_tool"
    else "stop"
  }

  /** `settings.hooks[hookType] || []` */
  function Lookup(table: HookTable, hookType: string): seq<Entry> {
    if hookType in table then table[hookType] else []
  }

  function MonitorCommand(eventArg: string): string {
    "node \"$HOME/.claude/monitor.js\" " + eventArg
  }

  /** `monitorHook(eventType)` */
  function MonitorHook(eventArg: string): Hook {
    Hook(Some("command"), Some(MonitorCommand(eventArg)))
  }

  /** `h.command?.includes(needle)` */
  predicate CommandIncludes(h: Hook, needle: string) {
    h.command.Some? && Includes(h.command.value, needle)
  }

  /** `hasMonitorHook(hk.command)`: the command runs monitor.js or monitor.sh. */
  predicate RunsMonitor(h: Hook) {
    CommandIncludes(h, "monitor.js") || CommandIncludes(h, "monitor.sh")
  }

  /** Setup's filter: keep hooks whose command does not mention monitor.js. */
  predicate KeptBySetup(h: Hook) {
    !CommandIncludes(h, "monitor.js")
  }

  /** Uninstall's filter: keep hooks whose command mentions neither script. */
  predicate KeptByUninstall(h: Hook) {
    !RunsMonitor(h)
  }

  predicate IsWildcard(e: Entry) {
    e.matcher == Some("*")
  }

  /** `entries.find(h => h.matcher === '*')`, as an index. */
  function FirstWildcard(entries: seq<Entry>): (r: Option<nat>)
    ensures r.Some? ==> r.value < |entries| && IsWildcard(entries[r.value])
    ensures r.Some? ==> forall j :: 0 <= j < r.value ==> !IsWildcard(entries[j])
    ensures r.None? ==> forall j :: 0 <= j < |entries| ==> !IsWildcard(entries[j])
  {
    if entries == [] then None
    else if IsWildcard(entries[0]) then Some(0)
    else match FirstWildcard(entries[1..])
      case None => None
      case Some(i) => Some(i + 1)
  }

  const EmptyWildcard := Entry(Some("*"), Some([]))

  /** Setup's merge for one hook type's entries: find (or append) the first
      wildcard entry, drop its monitor.js hooks, then append the monitor hook. */
  function MergeEntries(entries: seq<Entry>, eventArg: string): seq<Entry> {
    var found := FirstWildcard(entries);
    var padded := if found.Some? then entries else entries + [EmptyWildcard];
    var at := if found.Some? then found.value else |entries|;
    var wildcard := padded[at];
    padded[at := wildcard.(hooks := Some(Filter(wildcard.hooks.GetOr([]), KeptBySetup) + [MonitorHook(eventArg)]))]
  }

  /** After the merge the first wildcard entry is the old one (or a new one
      appended when there was none); its hooks end with the monitor hook and
      are otherwise exactly its old hooks without monitor.js, in order; every
      other entry is untouched. */
  lemma MergeEntriesShape(entries: seq<Entry>, eventArg: string)
    ensures var r := MergeEntries(entries, eventArg);
      && (|r| == |entries| || (|r| == |entries| + 1 && FirstWildcard(entries).None?))
      && FirstWildcard(r).Some?
      && var at := FirstWildcard(r).value;
      && (at < |entries| ==> FirstWildcard(entries) == Some(at))
      && (at == |entries| ==> FirstWildcard(entries).None?)
      && r[at].hooks.Some?
      && var hs := r[at].hooks.value;
      && |hs| > 0 && hs[|hs| - 1] == MonitorHook(eventArg)
      && hs[..|hs| - 1] == Filter(if at < |entries| then entries[at].hooks.GetOr([]) else [], KeptBySetup)
      && (forall i :: 0 <= i < |hs| - 1 ==> !CommandIncludes(hs[i], "monitor.js"))
      && forall j :: 0 <= j < |entries| && j != at ==> r[j] == entries[j]
  {
    var r := MergeEntries(entries, eventArg);
    var found := FirstWildcard(entries);
    var padded := if found.Some? then entries else entries + [EmptyWildcard];
    var at := if found.Some? then found.value else |entries|;
    var wildcard := padded[at];
    var hooks := Filter(wildcard.hooks.GetOr([]), KeptBySetup) + [MonitorHook(eventArg)];
    assert r == padded[at := wildcard.(hooks := Some(hooks))];
    FirstWildcardAt(r, at);
    assert hooks[..|hooks| - 1] == Filter(wildcard.hooks.GetOr([]), KeptBySetup);
  }

  /** An entry at `at` preceded only by non-wildcard entries is the first
      wildcard entry. */
  lemma FirstWildcardAt(entries: seq<Entry>, at: nat)
    requires at < |entries| && IsWildcard(entries[at])
    requires forall j :: 0 <= j < at ==> !IsWildcard(entries[j])
    ensures FirstWildcard(entries) == Some(at)
  {
  }

  /** One iteration of setup's loop. */
  function MergeType(table: HookTable, hookType: string, eventArg: string): HookTable {
    table[hookType := MergeEntries(Lookup(table, hookType), eventArg)]
  }

  /** Setup's loop over the first |types| hook types. */
  function MergeTypes(table: HookTable, types: seq<(string, string)>): HookTable
    decreases |types|
  {
    if types == [] then table
    else
      var last := types[|types| - 1];
      MergeType(MergeTypes(table, types[..|types| - 1]), last.0, last.1)
  }

  /** The settings runSetup writes, given the settings it read. */
  function Install(settings: Settings): Settings {
    Settings(Some(MergeTypes(settings.hooks.GetOr(map[]), MonitorTypes)), settings.rest)
  }

  /** runSetup's hook merge (`if (!settings.hooks) ...` and its loop over the
      three hook types). */
  method MergeMonitorHooks(settings: Settings) returns (merged: Settings)
    ensures merged == Install(settings)
  {
    var table: HookTable := if settings.hooks.Some? then settings.hooks.value else map[];
    for i := 0 to |MonitorTypes|
      invariant table == MergeTypes(settings.hooks.GetOr(map[]), MonitorTypes[..i])
    {
      var hookType := MonitorTypes[i].0;
      var eventArg := MonitorTypes[i].1;
      ghost var before := table;
      if hookType !in table {
        table := table[hookType := []];
      }
      var entries := MergeWildcardEntry(table[hookType], eventArg);
      table := table[hookType := entries];
      assert table == MergeType(before, hookType, eventArg);
      MergeTypesStep(settings.hooks.GetOr(map[]), MonitorTypes, i);
    }
    assert MonitorTypes[..|MonitorTypes|] == MonitorTypes;
    merged := Settings(Some(table), settings.rest);
  }

  /** The body of setup's loop for one hook type's array: find the wildcard
      entry or push a new one, filter its hooks, push the monitor hook. */
  method MergeWildcardEntry(entries0: seq<Entry>, eventArg: string) returns (entries: seq<Entry>)
    ensures entries == MergeEntries(entries0, eventArg)
  {
    entries := entries0;
    var found := FirstWildcard(entries);
    var at: nat;
    if found.None? {
      entries := entries + [EmptyWildcard];
      at := |entries| - 1;
    } else {
      at := found.value;
    }
    var wildcard := entries[at];
    var hooks := Filter(wildcard.hooks.GetOr([]), KeptBySetup);
    hooks := hooks + [MonitorHook(eventArg)];
    entries := entries[at := wildcard.(hooks := Some(hooks))];
  }

  lemma MergeTypesStep(table: HookTable, types: seq<(string, string)>, i: nat)
    requires i < |types|
    ensures MergeTypes(table, types[..i + 1]) == MergeType(MergeTypes(table, types[..i]), types[i].0, types[i].1)
  {
    assert types[..i + 1][..i] == types[..i];
  }

  /** Uninstall's pass over one entry: `entry.hooks = entry.hooks.filter(...)`
      when the entry has hooks. */
  function StripEntry(e: Entry): Entry {
    if e.hooks.Some? then e.(hooks := Some(Filter(e.hooks.value, KeptByUninstall))) else e
  }

  /** Uninstall keeps an entry when it still has hooks. */
  predicate NonEmptyEntry(e: Entry) {
    e.hooks.Some? && |e.hooks.value| > 0
  }

  function StripEach(entries: seq<Entry>): (r: seq<Entry>)
    ensures |r| == |entries|
  {
    seq(|entries|, i requires 0 <= i < |entries| => StripEntry(entries[i]))
  }

  /** What uninstall leaves of one hook type's entries. */
  function StripEntries(entries: seq<Entry>): seq<Entry> {
    Filter(StripEach(entries), NonEmptyEntry)
  }

  /** One iteration of uninstall's loop: strip, drop empty entries, drop the
      hook type when nothing is left. */
  function StripType(table: HookTable, hookType: string): HookTable {
    if hookType in table then
      var kept := StripEntries(table[hookType]);
      if |kept| == 0 then table - {hookType} else table[hookType := kept]
    else table
  }

  /** Uninstall's loop over the first |types| hook types. */
  function StripTypes(table: HookTable, types: seq<string>): HookTable
    decreases |types|
  {
    if types == [] then table
    else StripType(StripTypes(table, types[..|types| - 1]), types[|types| - 1])
  }

  /** The settings runUninstall writes, given the settings it read. */
  function Uninstall(settings: Settings): Settings {
    if settings.hooks.Some? then
      var table := StripTypes(settings.hooks.value, MonitorTypeNames);
      Settings(if |table| == 0 then None else Some(table), settings.rest)
    else settings
  }

  /** runUninstall's hook strip, with its nested loops. */
  method StripMonitorHooks(settings: Settings) returns (stripped: Settings)
    ensures stripped == Uninstall(settings)
  {
    if settings.hooks.None? {
      return settings;
    }
    var table := settings.hooks.value;
    for i := 0 to |MonitorTypeNames|
      invariant table == StripTypes(settings.hooks.value, MonitorTypeNames[..i])
    {
      var hookType := MonitorTypeNames[i];
      if hookType in table {
        var entries := table[hookType];
        for j := 0 to |entries|
          invariant |entries| == |table[hookType]|
          invariant forall k :: 0 <= k < j ==> entries[k] == StripEntry(table[hookType][k])
          invariant forall k :: j <= k < |entries| ==> entries[k] == table[hookType][k]
        {
          if entries[j].hooks.Some? {
            entries := entries[j := entries[j].(hooks := Some(Filter(entries[j].hooks.value, KeptByUninstall)))];
          }
        }
        assert entries == StripEach(table[hookType]);
        entries := Filter(entries, NonEmptyEntry);
        if |entries| == 0 {
          table := table - {hookType};
        } else {
          table := table[hookType := entries];
        }
      }
      assert MonitorTypeNames[..i + 1][..i] == MonitorTypeNames[..i];
    }
    assert MonitorTypeNames[..|MonitorTypeNames|] == MonitorTypeNames;
    if |table| == 0 {
      stripped := Settings(None, settings.rest);
    } else {
      stripped := Settings(Some(table), settings.rest);
    }
  }

  /** `h.hooks?.some(hk => hasMonitorHook(hk.command))` */
  predicate EntryRunsMonitor(e: Entry) {
    e.hooks.Some? && exists k :: 0 <= k < |e.hooks.value| && RunsMonitor(e.hooks.value[k])
  }

  /** `(hooks[hookType] || []).some(...)` */
  predicate TypeRunsMonitor(table: HookTable, hookType: string) {
    exists k :: 0 <= k < |Lookup(table, hookType)| && EntryRunsMonitor(Lookup(table, hookType)[k])
  }

  /** `hasPreToolHook && hasPostToolHook && hasStopHook` over `settings.hooks || {}` */
  predicate HooksConfigured(settings: Settings) {
    var table := settings.hooks.GetOr(map[]);
    TypeRunsMonitor(table, "PreToolUse") && TypeRunsMonitor(table, "PostToolUse") && TypeRunsMonitor(table, "Stop")
  }

  /** The three flags of `details.hooks`. */
  datatype HookFlags = HookFlags(hasPreToolHook: bool, hasPostToolHook: bool, hasStopHook: bool)

  /** The result of checkSetupStatus; the `Option` fields are the keys of
      `details`, absent when the function returned before setting them. */
  datatype SetupStatus = SetupStatus(
    claudeDirExists: bool,
    scriptExists: bool,
    hooksConfigured: bool,
    hasJsScript: Option<bool>,
    hasShScript: Option<bool>,
    hooks: Option<HookFlags>,
    parseError: bool)

  /** checkSetupStatus, given what `existsSync` says of the directory and of
      the two scripts, and what reading settings.json gives. */
  function CheckSetupStatus(dirExists: bool, jsExists: bool, shExists: bool, file: SettingsFile): (r: SetupStatus)
    ensures r.hooksConfigured <==> dirExists && file.Parsed? && HooksConfigured(file.settings)
    ensures r.scriptExists <==> dirExists && (jsExists || shExists)
    ensures r.parseError <==> dirExists && file.Unparsable?
    ensures r.hooks.Some? <==> dirExists && file.Parsed?
  {
    if !dirExists then SetupStatus(false, false, false, None, None, None, false)
    else
      var base := SetupStatus(true, jsExists || shExists, false, Some(jsExists), Some(shExists), None, false);
      match file
      case Absent => base
      case Unparsable => base.(parseError := true)
      case Parsed(settings) =>
        var table := settings.hooks.GetOr(map[]);
        var flags := HookFlags(TypeRunsMonitor(table, "PreToolUse"), TypeRunsMonitor(table, "PostToolUse"),
                               TypeRunsMonitor(table, "Stop"));
        base.(hooksConfigured := flags.hasPreToolHook && flags.hasPostToolHook && flags.hasStopHook,
              hooks := Some(flags))
  }

  /** The settings runSetup starts from: those read, or `{}` when the file is
      absent or cannot be parsed. */
  function SetupBase(file: SettingsFile): (s: Settings)
    ensures !file.Parsed? ==> s == Settings(None, map[])
  {
    if file.Parsed? then file.settings else Settings(None, map[])
  }

  /** The settings step of runSetup: read settings.json (or start from `{}`)
      and merge the monitor hooks; the result is what it writes. */
  method RunSetupSettings(file: SettingsFile) returns (written: Settings)
    ensures written == Install(SetupBase(file))
  {
    var settings := Settings(None, map[]);
    if file.Parsed? {
      settings := file.settings;
    }
    written := MergeMonitorHooks(settings);
  }

  // ---------------------------------------------------------------------
  // Properties of install, uninstall and detection

  /** The monitor hook's command mentions monitor.js, so both filters drop it. */
  lemma MonitorHookIsMonitor(eventArg: string)
    ensures CommandIncludes(MonitorHook(eventArg), "monitor.js")
    ensures RunsMonitor(MonitorHook(eventArg)) && !KeptBySetup(MonitorHook(eventArg))
  {
    var cmd := MonitorCommand(eventArg);
    assert cmd[20..30] == "monitor.js";
    IncludesAt(cmd, "monitor.js", 20);
  }

  lemma InstallUnfolds(table: HookTable)
    ensures MergeTypes(table, MonitorTypes)
         == MergeType(MergeType(MergeType(table, "PreToolUse", "pre_tool"), "PostToolUse", "post_tool"), "Stop", "stop")
  {
    var t2 := MonitorTypes[..2];
    var t1 := t2[..1];
    assert t2 == [("PreToolUse", "pre_tool"), ("PostToolUse", "post_tool")];
    assert t1 == [("PreToolUse", "pre_tool")] && t1[..0] == [];
    assert MergeTypes(table, t1) == MergeType(table, "PreToolUse", "pre_tool");
    assert MergeTypes(table, t2) == MergeType(MergeTypes(table, t1), "PostToolUse", "post_tool");
    assert MergeTypes(table, MonitorTypes) == MergeType(MergeTypes(table, t2), "Stop", "stop");
  }

  /** Setup's table: the three monitored types are present and hold their
      merged entries; every other hook type is untouched. */
  lemma InstalledAt(table: HookTable, hookType: string)
    ensures var merged := MergeTypes(table, MonitorTypes);
      && (hookType in merged <==> hookType in table || IsMonitorType(hookType))
      && (IsMonitorType(hookType) ==> merged[hookType] == MergeEntries(Lookup(table, hookType), EventArgOf(hookType)))
      && (!IsMonitorType(hookType) && hookType in table ==> merged[hookType] == table[hookType])
  {
    InstallUnfolds(table);
    var t1 := MergeType(table, "PreToolUse", "pre_tool");
    var t2 := MergeType(t1, "PostToolUse", "post_tool");
    MergeTypeAt(table, "PreToolUse", "pre_tool", hookType);
    MergeTypeAt(t1, "PostToolUse", "post_tool", hookType);
    MergeTypeAt(t2, "Stop", "stop", hookType);
  }

  /** One iteration of setup's loop adds or replaces its own hook type and
      leaves every other key alone. */
  lemma MergeTypeAt(table: HookTable, hookType: string, eventArg: string, k: string)
    ensures var m := MergeType(table, hookType, eventArg);
      && (k in m <==> k in table || k == hookType)
      && Lookup(m, k) == if k == hookType then MergeEntries(Lookup(table, hookType), eventArg) else Lookup(table, k)
  {
  }

  /** Merging into entries that were already merged changes nothing. */
  lemma MergeEntriesIdempotent(entries: seq<Entry>, eventArg: string)
    ensures MergeEntries(MergeEntries(entries, eventArg), eventArg) == MergeEntries(entries, eventArg)
  {
    MergeEntriesShape(entries, eventArg);
    var r := MergeEntries(entries, eventArg);
    var at := FirstWildcard(r).value;
    var hs := r[at].hooks.value;
    var kept := hs[..|hs| - 1];
    MergedHooksAreFixed(kept, eventArg);
    assert hs == kept + [MonitorHook(eventArg)];
    assert r[at].(hooks := Some(hs)) == r[at];
    assert MergeEntries(r, eventArg) == r[at := r[at]];
  }

  /** Setup's filter over hooks without monitor.js followed by the monitor
      hook gives back those hooks, so appending the monitor hook again
      restores the input. */
  lemma MergedHooksAreFixed(kept: seq<Hook>, eventArg: string)
    requires forall i :: 0 <= i < |kept| ==> !CommandIncludes(kept[i], "monitor.js")
    ensures Filter(kept + [MonitorHook(eventArg)], KeptBySetup) == kept
  {
    MonitorHookIsMonitor(eventArg);
    FilterDropsLast(kept, MonitorHook(eventArg), KeptBySetup);
  }

  /** runSetup is idempotent: installing twice gives the settings installing
      once gives. */
  lemma InstallIdempotent(settings: Settings)
    ensures Install(Install(settings)) == Install(settings)
  {
    var table := settings.hooks.GetOr(map[]);
    var once := MergeTypes(table, MonitorTypes);
    var twice := MergeTypes(once, MonitorTypes);
    forall k | true
      ensures (k in twice <==> k in once) && (k in once ==> twice[k] == once[k])
    {
      InstalledAt(table, k);
      InstalledAt(once, k);
      if IsMonitorType(k) {
        MergeEntriesIdempotent(Lookup(table, k), EventArgOf(k));
      }
    }
    assert twice == once;
  }

  /** Whatever settings.json held, the file runSetup writes keeps its other
      top-level keys (none when it started from `{}`) and is reported
      configured when read back. */
  lemma SetupFromFile(file: SettingsFile)
    ensures Install(SetupBase(file)).rest == if file.Parsed? then file.settings.rest else map[]
    ensures CheckSetupStatus(true, true, false, Parsed(Install(SetupBase(file)))).hooksConfigured
  {
    InstallConfigures(SetupBase(file));
  }

  /** After runSetup the detection reports the hooks configured. */
  lemma InstallConfigures(settings: Settings)
    ensures HooksConfigured(Install(settings))
  {
    var table := settings.hooks.GetOr(map[]);
    var merged := MergeTypes(table, MonitorTypes);
    forall k | IsMonitorType(k) ensures TypeRunsMonitor(merged, k) {
      InstalledAt(table, k);
      var entries := Lookup(table, k);
      MergeEntriesShape(entries, EventArgOf(k));
      var r := MergeEntries(entries, EventArgOf(k));
      var at := FirstWildcard(r).value;
      var hs := r[at].hooks.value;
      MonitorHookIsMonitor(EventArgOf(k));
      assert RunsMonitor(hs[|hs| - 1]);
      assert EntryRunsMonitor(r[at]);
      assert Lookup(merged, k) == r;
    }
  }

  lemma UninstallUnfolds(table: HookTable)
    ensures StripTypes(table, MonitorTypeNames)
         == StripType(StripType(StripType(table, "PreToolUse"), "PostToolUse"), "Stop")
  {
    var t2 := MonitorTypeNames[..2];
    var t1 := t2[..1];
    assert t2 == ["PreToolUse", "PostToolUse"];
    assert t1 == ["PreToolUse"] && t1[..0] == [];
    assert StripTypes(table, t1) == StripType(table, "PreToolUse");
    assert StripTypes(table, t2) == StripType(StripTypes(table, t1), "PostToolUse");
    assert StripTypes(table, MonitorTypeNames) == StripType(StripTypes(table, t2), "Stop");
  }

  /** Uninstall's table: a monitored type stays exactly when something is
      left of its entries after stripping; every other hook type is
      untouched. */
  lemma UninstalledAt(table: HookTable, hookType: string)
    ensures var stripped := StripTypes(table, MonitorTypeNames);
      && (IsMonitorType(hookType) ==>
            && (hookType in stripped <==> hookType in table && StripEntries(table[hookType]) != [])
            && (hookType in stripped ==> stripped[hookType] == StripEntries(table[hookType])))
      && (!IsMonitorType(hookType) ==>
            && (hookType in stripped <==> hookType in table)
            && (hookType in stripped ==> stripped[hookType] == table[hookType]))
  {
    UninstallUnfolds(table);
    var t1 := StripType(table, "PreToolUse");
    var t2 := StripType(t1, "PostToolUse");
    StripTypeAt(table, "PreToolUse", hookType);
    StripTypeAt(t1, "PostToolUse", hookType);
    StripTypeAt(t2, "Stop", hookType);
  }

  /** One iteration of uninstall's loop keeps its own hook type exactly when
      something is left of it, and leaves every other key alone. */
  lemma StripTypeAt(table: HookTable, hookType: string, k: string)
    ensures var s := StripType(table, hookType);
      && (k != hookType ==> (k in s <==> k in table) && (k in s ==> s[k] == table[k]))
      && (k == hookType ==>
            && (k in s <==> k in table && StripEntries(table[k]) != [])
            && (k in s ==> s[k] == StripEntries(table[k])))
  {
  }

  /** What uninstall leaves of a hook type's entries: only entries that
      still have hooks, none of which runs a monitor script. */
  lemma StripEntriesClean(entries: seq<Entry>)
    ensures forall i :: 0 <= i < |StripEntries(entries)| ==>
      && NonEmptyEntry(StripEntries(entries)[i])
      && forall k :: 0 <= k < |StripEntries(entries)[i].hooks.value| ==>
           !RunsMonitor(StripEntries(entries)[i].hooks.value[k])
  {
  }

  /** After runUninstall no monitored type holds a monitor hook, an entry
      without hooks, or an empty array; the `hooks` key is removed only when
      nothing is left in it; other hook types and top-level keys are
      untouched. */
  lemma UninstallCleans(settings: Settings, hookType: string)
    ensures var after := Uninstall(settings);
      && after.rest == settings.rest
      && (after.hooks.None? <==> settings.hooks.None? || StripTypes(settings.hooks.value, MonitorTypeNames) == map[])
      && (after.hooks.Some? ==> |after.hooks.value| > 0)
      && (after.hooks.Some? && IsMonitorType(hookType) && hookType in after.hooks.value ==>
            var entries := after.hooks.value[hookType];
            && |entries| > 0
            && forall i :: 0 <= i < |entries| ==>
                 && NonEmptyEntry(entries[i])
                 && forall k :: 0 <= k < |entries[i].hooks.value| ==> !RunsMonitor(entries[i].hooks.value[k]))
      && (settings.hooks.Some? && !IsMonitorType(hookType) ==>
            (hookType in settings.hooks.value <==> after.hooks.Some? && hookType in after.hooks.value)
            && (hookType in settings.hooks.value ==> after.hooks.value[hookType] == settings.hooks.value[hookType]))
  {
    if settings.hooks.Some? {
      var table := settings.hooks.value;
      var stripped := StripTypes(table, MonitorTypeNames);
      UninstalledAt(table, hookType);
      if IsMonitorType(hookType) && hookType in table {
        StripEntriesClean(table[hookType]);
      }
      if stripped != map[] {
        assert |stripped| != 0;
      }
    }
  }

  /** After runUninstall the detection finds none of the three hooks. */
  lemma UninstallUnconfigures(settings: Settings)
    ensures var table := Uninstall(settings).hooks.GetOr(map[]);
      !TypeRunsMonitor(table, "PreToolUse") && !TypeRunsMonitor(table, "PostToolUse") && !TypeRunsMonitor(table, "Stop")
    ensures !HooksConfigured(Uninstall(settings))
  {
    var after := Uninstall(settings);
    var table := after.hooks.GetOr(map[]);
    forall k | IsMonitorType(k) ensures !TypeRunsMonitor(table, k) {
      UninstallCleans(settings, k);
      if after.hooks.Some? && k in table {
        var entries := table[k];
        forall i | 0 <= i < |entries| ensures !EntryRunsMonitor(entries[i]) {
        }
      }
    }
  }

  lemma StripEachAppend(entries: seq<Entry>, e: Entry)
    ensures StripEach(entries + [e]) == StripEach(entries) + [StripEntry(e)]
  {
  }

  lemma StripEachUpdate(entries: seq<Entry>, at: nat, e: Entry)
    requires at < |entries|
    ensures StripEach(entries[at := e]) == StripEach(entries)[at := StripEntry(e)]
  {
  }

  /** Replacing an element the filter drops by another it drops changes
      nothing. */
  lemma {:induction false} FilterReplaceDropped(s: seq<Entry>, at: nat, e: Entry, keep: Entry -> bool)
    requires at < |s| && !keep(s[at]) && !keep(e)
    ensures Filter(s[at := e], keep) == Filter(s, keep)
  {
    assert s == s[..at] + ([s[at]] + s[at + 1..]);
    assert s[at := e] == s[..at] + ([e] + s[at + 1..]);
    FilterConcat(s[..at], [s[at]] + s[at + 1..], keep);
    FilterConcat([s[at]], s[at + 1..], keep);
    FilterConcat(s[..at], [e] + s[at + 1..], keep);
    FilterConcat([e], s[at + 1..], keep);
  }

  /** Stripping the entries setup merged gives what stripping the original
      entries gives. */
  lemma StripAfterMerge(entries: seq<Entry>, eventArg: string)
    ensures StripEntries(MergeEntries(entries, eventArg)) == StripEntries(entries)
  {
    var found := FirstWildcard(entries);
    var m := MonitorHook(eventArg);
    MonitorHookIsMonitor(eventArg);
    FilterKeepsNone([m], KeptByUninstall);
    if found.Some? {
      var at := found.value;
      var w := entries[at];
      var h0 := w.hooks.GetOr([]);
      var w' := w.(hooks := Some(Filter(h0, KeptBySetup) + [m]));
      assert MergeEntries(entries, eventArg) == entries[at := w'];
      StripEachUpdate(entries, at, w');
      FilterConcat(Filter(h0, KeptBySetup), [m], KeptByUninstall);
      FilterAbsorbs(h0, KeptBySetup, KeptByUninstall);
      assert Filter(Filter(h0, KeptBySetup) + [m], KeptByUninstall) == Filter(h0, KeptByUninstall) + [];
      assert Filter(h0, KeptByUninstall) + [] == Filter(h0, KeptByUninstall);
      assert StripEntry(w') == w.(hooks := Some(Filter(h0, KeptByUninstall)));
      if w.hooks.Some? {
        assert StripEntry(w') == StripEntry(w);
        assert StripEach(entries)[at := StripEntry(w)] == StripEach(entries);
      } else {
        FilterReplaceDropped(StripEach(entries), at, StripEntry(w'), NonEmptyEntry);
      }
    } else {
      var w' := EmptyWildcard.(hooks := Some(Filter([], KeptBySetup) + [m]));
      assert MergeEntries(entries, eventArg) == entries + [w'];
      StripEachAppend(entries, w');
      FilterConcat(StripEach(entries), [StripEntry(w')], NonEmptyEntry);
    }
  }

  /** runUninstall undoes runSetup: uninstalling after installing gives what
      uninstalling alone gives. */
  lemma UninstallUndoesInstall(settings: Settings)
    ensures Uninstall(Install(settings)) == Uninstall(settings)
  {
    var table := settings.hooks.GetOr(map[]);
    var merged := MergeTypes(table, MonitorTypes);
    var after := StripTypes(merged, MonitorTypeNames);
    var direct := StripTypes(table, MonitorTypeNames);
    forall k | true
      ensures (k in after <==> k in direct) && (k in after ==> after[k] == direct[k])
    {
      InstalledAt(table, k);
      UninstalledAt(merged, k);
      UninstalledAt(table, k);
      if IsMonitorType(k) {
        StripAfterMerge(Lookup(table, k), EventArgOf(k));
      }
    }
    assert after == direct;
    if settings.hooks.None? {
      UninstallUnfolds(table);
      assert direct == map[];
    }
  }
}
