/** Merging the required hooks into an agent's configuration. */
module Hooks {
  import opened Base
  import opened Rows
  import opened Quoting

  const HOOK_TIMEOUT_SECONDS := 5
  const PERMISSION_REQUEST_TIMEOUT_SECONDS := 50

  /** A JSON value; a number is kept as what as_u64 makes of it, or as its text. */
  datatype Json =
    | Null
    | Bool(value: bool)
    | U64(number: nat)
    | OtherNumber(text: string)
    | Str(str: string)
    | Arr(items: seq<Json>)
    | Obj(fields: map<string, Json>)

  datatype Agent = Codex | ClaudeCode

  datatype HookStatus = Configured | Missing | ApprovalRequired

  datatype IntegrationError =
    | ExecutableMustBeAbsolute
    | ExecutablePathContainsControl
    | ConfigurationRootMustBeObject
    | HooksMustBeObject
    | HookEventMustBeArray

  function AgentName(agent: Agent): string {
    match agent case Codex => "codex" case ClaudeCode => "claude-code"
  }

  /** The required events, in the order their keys are visited. */
  function RequiredEvents(agent: Agent): seq<string> {
    match agent
    case Codex => ["PermissionRequest", "Stop"]
    case ClaudeCode => ["PermissionRequest", "Stop", "StopFailure"]
  }

  function HookTimeout(event: string): nat {
    if event == "PermissionRequest" then PERMISSION_REQUEST_TIMEOUT_SECONDS else HOOK_TIMEOUT_SECONDS
  }

  function ValidateExecutable(path: string): Option<IntegrationError> {
    if !IsAbsolute(path) then Some(ExecutableMustBeAbsolute)
    else if !Protocol.Printable(path) then Some(ExecutablePathContainsControl)
    else None
  }

  function HookArguments(agent: Agent, event: string): seq<string> {
    ["hook", "--agent", AgentName(agent), "--event", event]
  }

  function HookCommand(agent: Agent, event: string, executable: string): string {
    ShellQuote(executable) + Arguments(HookArguments(agent, event))
  }

  function ExpectedHandler(agent: Agent, event: string, executable: string): Json {
    Obj(map["type" := Str("command"),
            "command" := Str(HookCommand(agent, event, executable)),
            "timeout" := U64(HookTimeout(event))])
  }

  function ExpectedGroup(agent: Agent, event: string, executable: string): Json {
    Obj(map["hooks" := Arr([ExpectedHandler(agent, event, executable)])])
  }

  // ---- Recognising our own groups ----

  function Field(json: Json, key: string): Option<Json> {
    if json.Obj? && key in json.fields then Some(json.fields[key]) else None
  }

  function StripSuffix(text: string, suffix: string): Option<string> {
    if |text| >= |suffix| && text[|text| - |suffix|..] == suffix then Some(text[..|text| - |suffix|]) else None
  }

  predicate HasKnownHandlerFields(fields: map<string, Json>, hasArgs: bool) {
    var allowed := if hasArgs then 4 else 3;
    (|fields| == allowed
     || (|fields| == allowed + 1 && "async" in fields && fields["async"] == Bool(true)))
    && forall key :: key in fields ==> key in ["type", "command", "timeout", "async"] || (hasArgs && key == "args")
  }

  predicate KnownTimeout(timeout: Json, event: string) {
    timeout.U64?
    && (timeout.number == HookTimeout(event) || (event == "PermissionRequest" && timeout.number == HOOK_TIMEOUT_SECONDS))
  }

  predicate IsGeneratedHandler(handler: Json, agent: Agent, event: string) {
    && handler.Obj?
    && Field(handler, "type") == Some(Str("command"))
    && Field(handler, "timeout").Some? && KnownTimeout(Field(handler, "timeout").value, event)
    && Field(handler, "command").Some? && Field(handler, "command").value.Str?
    && var command := Field(handler, "command").value.str;
       var executable := StripSuffix(command, Arguments(HookArguments(agent, event)));
       if executable.Some? && CanonicalQuotedAizuExecutable(executable.value) then
         HasKnownHandlerFields(handler.fields, false)
       else
         IsAizuExecutablePath(command)
         && Field(handler, "args") == Some(Arr([Str("hook"), Str("--agent"), Str(AgentName(agent)), Str("--event"), Str(event)]))
         && HasKnownHandlerFields(handler.fields, true)
  }

  predicate IsGeneratedGroup(group: Json, agent: Agent, event: string) {
    && group.Obj?
    && Field(group, "hooks").Some? && Field(group, "hooks").value.Arr?
    && |group.fields| == 1
    && |Field(group, "hooks").value.items| == 1
    && IsGeneratedHandler(Field(group, "hooks").value.items[0], agent, event)
  }

  function Generated(agent: Agent, event: string): Json -> bool {
    (group: Json) => IsGeneratedGroup(group, agent, event)
  }

  function Foreign(agent: Agent, event: string): Json -> bool {
    (group: Json) => !IsGeneratedGroup(group, agent, event)
  }

  // ---- The merge ----

  function NormalizeGroups(groups: seq<Json>, agent: Agent, event: string, executable: string): seq<Json> {
    var kept := Filter(groups, Foreign(agent, event));
    var expected := ExpectedGroup(agent, event, executable);
    if expected in kept then kept else kept + [expected]
  }

  function GroupsOf(hooks: map<string, Json>, event: string): Json {
    if event in hooks then hooks[event] else Arr([])
  }

  function MergeEvents(hooks: map<string, Json>, agent: Agent, executable: string, events: seq<string>)
    : Result<map<string, Json>, IntegrationError>
  {
    if events == [] then Ok(hooks)
    else
      var before := MergeEvents(hooks, agent, executable, events[..|events| - 1]);
      var event := events[|events| - 1];
      if before.Err? then before
      else
        var groups := GroupsOf(before.value, event);
        if !groups.Arr? then Err(HookEventMustBeArray)
        else Ok(before.value[event := Arr(NormalizeGroups(groups.items, agent, event, executable))])
  }

  function Merge(agent: Agent, existing: Json, path: string): Result<Json, IntegrationError> {
    var invalid := ValidateExecutable(path);
    if invalid.Some? then Err(invalid.value)
    else if !existing.Obj? then Err(ConfigurationRootMustBeObject)
    else
      var hooks := if "hooks" in existing.fields then existing.fields["hooks"] else Obj(map[]);
      if !hooks.Obj? then Err(HooksMustBeObject)
      else
        match MergeEvents(hooks.fields, agent, path, RequiredEvents(agent))
        case Err(e) => Err(e)
        case Ok(merged) => Ok(Obj(existing.fields["hooks" := Obj(merged)]))
  }

  method MergeHookConfiguration(agent: Agent, existing: Json, path: string) returns (result: Result<Json, IntegrationError>)
    ensures result == Merge(agent, existing, path)
  {
    hide MergeEvents, ExpectedGroup, RequiredEvents, ValidateExecutable;
    MergeNoEvents(agent, path);
    var invalid := ValidateExecutable(path);
    if invalid.Some? { return Err(invalid.value); }
    if !existing.Obj? { return Err(ConfigurationRootMustBeObject); }
    var merged := existing.fields;
    if "hooks" !in merged { merged := merged["hooks" := Obj(map[])]; }
    if !merged["hooks"].Obj? { return Err(HooksMustBeObject); }
    var hooks := merged["hooks"].fields;
    ghost var start := hooks;
    var events := RequiredEvents(agent);
    for i := 0 to |events|
      invariant MergeEvents(start, agent, path, events[..i]) == Ok(hooks)
    {
      MergeOneMore(start, agent, path, events, i, hooks);
      MergeStops(start, agent, path, events, i + 1);
      var event := events[i];
      ghost var before := hooks;
      if event !in hooks { hooks := hooks[event := Arr([])]; }
      if !hooks[event].Arr? { return Err(HookEventMustBeArray); }
      var groups := RemoveGeneratedGroups(hooks[event].items, agent, event);
      var expected := ExpectedGroup(agent, event, path);
      if expected !in groups { groups := groups + [expected]; }
      hooks := hooks[event := Arr(groups)];
      assert hooks == before[event := Arr(groups)];
    }
    assert events[..|events|] == events;
    assert merged["hooks" := Obj(hooks)] == existing.fields["hooks" := Obj(hooks)];
    return Ok(Obj(merged["hooks" := Obj(hooks)]));
  }

  lemma MergeNoEvents(agent: Agent, path: string)
    ensures forall hooks :: MergeEvents(hooks, agent, path, []) == Ok(hooks)
  {
  }

  lemma MergeOneMore(start: map<string, Json>, agent: Agent, executable: string, events: seq<string>, i: nat, hooks: map<string, Json>)
    requires i < |events| && MergeEvents(start, agent, executable, events[..i]) == Ok(hooks)
    ensures var groups := GroupsOf(hooks, events[i]);
            MergeEvents(start, agent, executable, events[..i + 1])
            == if !groups.Arr? then Err(HookEventMustBeArray)
               else Ok(hooks[events[i] := Arr(NormalizeGroups(groups.items, agent, events[i], executable))])
  {
    hide NormalizeGroups;
    assert events[..i + 1][..i] == events[..i];
  }

  /** groups.retain(...): every group that is not ours stays, in place. */
  method RemoveGeneratedGroups(groups: seq<Json>, agent: Agent, event: string) returns (kept: seq<Json>)
    ensures kept == Filter(groups, Foreign(agent, event))
  {
    kept := [];
    for i := 0 to |groups|
      invariant kept == Filter(groups[..i], Foreign(agent, event))
    {
      assert groups[..i + 1][..i] == groups[..i];
      if !IsGeneratedGroup(groups[i], agent, event) { kept := kept + [groups[i]]; }
    }
    assert groups[..|groups|] == groups;
  }

  lemma {:induction false} MergeStops(hooks: map<string, Json>, agent: Agent, executable: string, events: seq<string>, at: nat)
    requires at <= |events|
    ensures var some := MergeEvents(hooks, agent, executable, events[..at]);
            some.Err? ==> MergeEvents(hooks, agent, executable, events) == some
    decreases |events|
  {
    hide NormalizeGroups;
    if at < |events| {
      assert events[..|events| - 1][..at] == events[..at];
      MergeStops(hooks, agent, executable, events[..|events| - 1], at);
    } else {
      assert events[..at] == events;
    }
  }

  // ---- Status ----

  function ConfigurationHandlers(groups: seq<Json>): seq<Json> {
    if groups == [] then []
    else
      var hooks := Field(groups[0], "hooks");
      (if hooks.Some? && hooks.value.Arr? then hooks.value.items else []) + ConfigurationHandlers(groups[1..])
  }

  function HandlersAt(config: Json, event: string): seq<Json> {
    var hooks := Field(config, "hooks");
    var groups := if hooks.Some? then Field(hooks.value, event) else None;
    if groups.Some? && groups.value.Arr? then ConfigurationHandlers(groups.value.items) else []
  }

  predicate AllHooksDisabled(agent: Agent, config: Json) {
    agent == ClaudeCode && Field(config, "disableAllHooks") == Some(Bool(true))
  }

  function HookConfigurationStatus(agent: Agent, actual: Json, path: string): HookStatus {
    if AllHooksDisabled(agent, actual) then Missing
    else if Merge(agent, actual, path) != Ok(actual) then Missing
    else
      var configured := forall event :: event in RequiredEvents(agent) ==>
                          ExpectedHandler(agent, event, path) in HandlersAt(actual, event);
      if configured && agent == Codex then ApprovalRequired
      else if configured then Configured
      else Missing
  }

  // ---- Facts ----

  lemma {:induction false} FilterTwice<T(!new)>(s: seq<T>, p: T -> bool)
    ensures Filter(Filter(s, p), p) == Filter(s, p)
  {
    if s != [] {
      FilterTwice(s[..|s| - 1], p);
      FilterAppend(Filter(s[..|s| - 1], p), s[|s| - 1], p);
    }
  }

  lemma FilterAppend<T(!new)>(s: seq<T>, x: T, p: T -> bool)
    ensures Filter(s + [x], p) == Filter(s, p) + if p(x) then [x] else []
  {
    assert (s + [x])[..|s|] == s;
  }

  lemma {:induction false} FilterNone<T(!new)>(s: seq<T>, p: T -> bool)
    requires forall x :: x in s ==> !p(x)
    ensures Filter(s, p) == []
  {
    if Filter(s, p) != [] { assert Filter(s, p)[0] in Filter(s, p); }
  }

  lemma ExpectedHandlerFields(agent: Agent, event: string, executable: string)
    ensures HasKnownHandlerFields(ExpectedHandler(agent, event, executable).fields, false)
  {
    var fields := ExpectedHandler(agent, event, executable).fields;
    assert fields.Keys == {"type", "command", "timeout"};
    assert "type" != "command" && "type" != "timeout" && "command" != "timeout";
    assert |fields.Keys| == 3;
    assert ["type", "command", "timeout", "async"][0] == "type" && ["type", "command", "timeout", "async"][1] == "command"
        && ["type", "command", "timeout", "async"][2] == "timeout";
  }

  lemma SuffixStrips(front: string, suffix: string)
    ensures StripSuffix(front + suffix, suffix) == Some(front)
  {
    assert (front + suffix)[|front|..] == suffix && (front + suffix)[..|front|] == front;
  }

  /** Our own group is recognised exactly when the executable is called aizu. */
  lemma ExpectedIsGeneratedIff(agent: Agent, event: string, executable: string)
    ensures IsGeneratedGroup(ExpectedGroup(agent, event, executable), agent, event) <==> IsAizuExecutablePath(executable)
  {
    hide IsAizuExecutablePath, HasKnownHandlerFields, ShellQuote, Arguments, CanonicalQuotedAizuExecutable;
    var group, handler := ExpectedGroup(agent, event, executable), ExpectedHandler(agent, event, executable);
    SuffixStrips(ShellQuote(executable), Arguments(HookArguments(agent, event)));
    ExpectedHandlerFields(agent, event, executable);
    CanonicalIffQuoted(ShellQuote(executable));
    if CanonicalQuotedAizuExecutable(ShellQuote(executable)) {
      var path :| ShellQuote(executable) == ShellQuote(path) && IsAizuExecutablePath(path);
      QuotingIsInjective(executable, path);
    }
    assert group.fields.Keys == {"hooks"} && |group.fields.Keys| == 1;
    assert "args" !in handler.fields;
  }

  lemma RequiredEventsDiffer(agent: Agent)
    ensures forall i, j :: 0 <= i < j < |RequiredEvents(agent)| ==> RequiredEvents(agent)[i] != RequiredEvents(agent)[j]
  {
  }

  /** Merging visits each required event once: those keys are normalised, every other key is left alone. */
  lemma {:induction false} MergeEventsShape(hooks: map<string, Json>, agent: Agent, executable: string, events: seq<string>)
    requires forall i, j :: 0 <= i < j < |events| ==> events[i] != events[j]
    ensures var merged := MergeEvents(hooks, agent, executable, events);
            && (merged.Ok? <==> forall event :: event in events ==> GroupsOf(hooks, event).Arr?)
            && (merged.Err? ==> merged.error == HookEventMustBeArray)
            && (merged.Ok? ==>
                  && (forall key :: key in merged.value <==> key in hooks || key in events)
                  && (forall key :: key in hooks && key !in events ==> merged.value[key] == hooks[key])
                  && (forall event :: event in events ==>
                        merged.value[event]
                        == Arr(NormalizeGroups(GroupsOf(hooks, event).items, agent, event, executable))))
    decreases |events|
  {
    hide NormalizeGroups;
    if events != [] {
      var m := |events| - 1;
      MergeEventsShape(hooks, agent, executable, events[..m]);
      assert forall event :: event in events <==> event in events[..m] || event == events[m];
      assert events[m] !in events[..m];
    }
  }

  /** The hooks object a merge starts from. */
  function HooksOf(config: Json): Json {
    if config.Obj? && "hooks" in config.fields then config.fields["hooks"] else Obj(map[])
  }

  function GroupsAt(config: Json, event: string): seq<Json> {
    if HooksOf(config).Obj? && GroupsOf(HooksOf(config).fields, event).Arr? then GroupsOf(HooksOf(config).fields, event).items
    else []
  }

  /** Claude's switch that turns all hooks off is set. */
  ghost predicate SwitchedOff(agent: Agent, config: Json) {
    && agent == ClaudeCode && config.Obj? && "disableAllHooks" in config.fields
    && config.fields["disableAllHooks"].Bool? && config.fields["disableAllHooks"].value
  }

  ghost predicate Mergeable(agent: Agent, config: Json) {
    && config.Obj? && HooksOf(config).Obj?
    && forall event :: event in RequiredEvents(agent) ==> GroupsOf(HooksOf(config).fields, event).Arr?
  }

  /** A merge of what it accepts: only the required events change, each to its normalised groups. */
  ghost predicate MergedFrom(agent: Agent, existing: Json, path: string, merged: Json) {
    && existing.Obj? && HooksOf(existing).Obj? && merged.Obj? && HooksOf(merged).Obj?
    && merged == Obj(existing.fields["hooks" := HooksOf(merged)])
    && (forall key :: key in HooksOf(merged).fields <==> key in HooksOf(existing).fields || key in RequiredEvents(agent))
    && (forall key :: key in HooksOf(existing).fields && key !in RequiredEvents(agent) ==>
          HooksOf(merged).fields[key] == HooksOf(existing).fields[key])
    && (forall event :: event in RequiredEvents(agent) ==>
          HooksOf(merged).fields[event] == Arr(NormalizeGroups(GroupsAt(existing, event), agent, event, path)))
  }

  lemma MergeShape(agent: Agent, existing: Json, path: string)
    ensures Merge(agent, existing, path).Ok? <==> ValidateExecutable(path) == None && Mergeable(agent, existing)
    ensures Mergeable(agent, existing) ==> existing.Obj? && HooksOf(existing).Obj?
    ensures Merge(agent, existing, path).Ok? ==> MergedFrom(agent, existing, path, Merge(agent, existing, path).value)
  {
    hide NormalizeGroups, RequiredEvents, MergeEvents, ValidateExecutable;
    RequiredEventsDiffer(agent);
    if HooksOf(existing).Obj? {
      MergeEventsShape(HooksOf(existing).fields, agent, path, RequiredEvents(agent));
    }
  }

  lemma NormalizeTwice(groups: seq<Json>, agent: Agent, event: string, executable: string)
    ensures var once := NormalizeGroups(groups, agent, event, executable);
            NormalizeGroups(once, agent, event, executable) == once
  {
    hide Filter, ExpectedGroup, IsGeneratedGroup;
    var kept, expected := Filter(groups, Foreign(agent, event)), ExpectedGroup(agent, event, executable);
    FilterTwice(groups, Foreign(agent, event));
    FilterAppend(kept, expected, Foreign(agent, event));
    assert kept + [] == kept;
    assert expected in kept + [expected];
  }

  /** Exactly the groups that are not ours survive, in order; ours, if it is recognisable, is there exactly once. */
  lemma NormalizedGroups(groups: seq<Json>, agent: Agent, event: string, executable: string)
    ensures var normalized, expected := NormalizeGroups(groups, agent, event, executable), ExpectedGroup(agent, event, executable);
            && expected in normalized
            && (IsAizuExecutablePath(executable) ==>
                  && Filter(normalized, Generated(agent, event)) == [expected]
                  && Filter(normalized, Foreign(agent, event)) == Filter(groups, Foreign(agent, event)))
            && (!IsAizuExecutablePath(executable) ==>
                  && Filter(normalized, Generated(agent, event)) == []
                  && Filter(normalized, Foreign(agent, event))
                     == Filter(groups, Foreign(agent, event)) + if expected in groups then [] else [expected])
  {
    hide Filter, ExpectedGroup, IsGeneratedGroup, IsAizuExecutablePath;
    var kept, expected := Filter(groups, Foreign(agent, event)), ExpectedGroup(agent, event, executable);
    ExpectedIsGeneratedIff(agent, event, executable);
    FilterTwice(groups, Foreign(agent, event));
    FilterAppend(kept, expected, Foreign(agent, event));
    FilterAppend(kept, expected, Generated(agent, event));
    FilterNone(kept, Generated(agent, event));
    assert kept + [] == kept && [] + [expected] == [expected];
  }

  lemma AbsorbNormalize(groups: seq<Json>, agent: Agent, event: string, first: string, second: string)
    requires IsAizuExecutablePath(first)
    ensures NormalizeGroups(NormalizeGroups(groups, agent, event, first), agent, event, second)
         == NormalizeGroups(groups, agent, event, second)
  {
    hide Filter, ExpectedGroup, IsGeneratedGroup, IsAizuExecutablePath;
    NormalizedGroups(groups, agent, event, first);
  }

  lemma SameMerge(agent: Agent, existing: Json, path: string, a: Json, b: Json)
    requires existing.Obj? && MergedFrom(agent, existing, path, a) && MergedFrom(agent, existing, path, b)
    ensures a == b
  {
    hide NormalizeGroups, RequiredEvents;
    var m, n := HooksOf(a).fields, HooksOf(b).fields;
    assert m.Keys == n.Keys;
    forall key | key in m ensures m[key] == n[key] {
      if key !in RequiredEvents(agent) { assert key in HooksOf(existing).fields; }
    }
    assert m == n;
  }

  /** Merging twice is merging once, on every configuration it accepts. */
  lemma MergeIsIdempotent(agent: Agent, existing: Json, path: string)
    requires Merge(agent, existing, path).Ok?
    ensures Merge(agent, Merge(agent, existing, path).value, path) == Merge(agent, existing, path)
  {
    hide NormalizeGroups, RequiredEvents, Merge, ValidateExecutable;
    var merged := Merge(agent, existing, path).value;
    MergeShape(agent, existing, path);
    MergeShape(agent, merged, path);
    forall event | event in RequiredEvents(agent)
      ensures NormalizeGroups(GroupsAt(merged, event), agent, event, path) == GroupsAt(merged, event)
    {
      NormalizeTwice(GroupsAt(existing, event), agent, event, path);
    }
    assert merged.fields["hooks" := HooksOf(merged)] == merged.fields;
    assert MergedFrom(agent, merged, path, merged);
    SameMerge(agent, merged, path, Merge(agent, merged, path).value, merged);
  }

  lemma InvalidPathIsRefused(agent: Agent, existing: Json, path: string)
    ensures ValidateExecutable(path).Some? ==> Merge(agent, existing, path) == Err(ValidateExecutable(path).value)
  {
  }

  /** A merge for another executable replaces what a merge for one called aizu added. */
  lemma NewPathReplacesOld(agent: Agent, existing: Json, first: string, second: string)
    requires Merge(agent, existing, first).Ok? && IsAizuExecutablePath(first)
    ensures Merge(agent, Merge(agent, existing, first).value, second) == Merge(agent, existing, second)
  {
    hide NormalizeGroups, RequiredEvents, IsAizuExecutablePath, Merge, ValidateExecutable;
    var merged := Merge(agent, existing, first).value;
    InvalidPathIsRefused(agent, existing, second);
    InvalidPathIsRefused(agent, merged, second);
    MergeShape(agent, existing, first);
    MergeShape(agent, merged, second);
    MergeShape(agent, existing, second);
    if ValidateExecutable(second) == None {
      forall event | event in RequiredEvents(agent)
        ensures NormalizeGroups(GroupsAt(merged, event), agent, event, second)
             == NormalizeGroups(GroupsAt(existing, event), agent, event, second)
      {
        AbsorbNormalize(GroupsAt(existing, event), agent, event, first, second);
      }
      var a, b := Merge(agent, merged, second).value, Merge(agent, existing, second).value;
      assert existing.fields["hooks" := HooksOf(merged)]["hooks" := HooksOf(a)] == existing.fields["hooks" := HooksOf(a)];
      assert MergedFrom(agent, existing, second, a);
      SameMerge(agent, existing, second, a, b);
    }
  }

  /**
   * A conservative fixpoint: other top-level keys and other hook events keep their values, groups that are not ours
   * keep value, order and multiplicity, and with an executable called aizu exactly one group of ours remains per
   * required event.
   */
  lemma MergeIsConservative(agent: Agent, existing: Json, path: string)
    requires Merge(agent, existing, path).Ok?
    ensures var merged := Merge(agent, existing, path).value;
            && existing.Obj? && merged.Obj? && HooksOf(existing).Obj? && HooksOf(merged).Obj?
            && (forall key :: key != "hooks" ==> Field(merged, key) == Field(existing, key))
            && (forall key :: key !in RequiredEvents(agent) ==>
                  Field(HooksOf(merged), key) == Field(HooksOf(existing), key))
            && (forall event :: event in RequiredEvents(agent) ==>
                  && Filter(GroupsAt(existing, event), Foreign(agent, event))
                     <= Filter(GroupsAt(merged, event), Foreign(agent, event))
                  && (IsAizuExecutablePath(path) ==>
                        && Filter(GroupsAt(merged, event), Foreign(agent, event))
                           == Filter(GroupsAt(existing, event), Foreign(agent, event))
                        && Filter(GroupsAt(merged, event), Generated(agent, event)) == [ExpectedGroup(agent, event, path)]))
  {
    hide NormalizeGroups, RequiredEvents, IsAizuExecutablePath, Merge, Filter, ExpectedGroup, ValidateExecutable;
    MergeShape(agent, existing, path);
    var merged := Merge(agent, existing, path).value;
    forall event | event in RequiredEvents(agent)
      ensures Filter(GroupsAt(existing, event), Foreign(agent, event)) <= Filter(GroupsAt(merged, event), Foreign(agent, event))
      ensures IsAizuExecutablePath(path) ==>
                && Filter(GroupsAt(merged, event), Foreign(agent, event)) == Filter(GroupsAt(existing, event), Foreign(agent, event))
                && Filter(GroupsAt(merged, event), Generated(agent, event)) == [ExpectedGroup(agent, event, path)]
    {
      NormalizedGroups(GroupsAt(existing, event), agent, event, path);
    }
  }

  lemma {:induction false} HandlersContain(groups: seq<Json>, group: Json, handler: Json)
    requires group in groups && Field(group, "hooks") == Some(Arr([handler]))
    ensures handler in ConfigurationHandlers(groups)
    decreases |groups|
  {
    if groups[0] != group {
      HandlersContain(groups[1..], group, handler);
    }
  }

  lemma ExpectedHandlerPresent(agent: Agent, event: string, path: string, groups: seq<Json>)
    requires ExpectedGroup(agent, event, path) in groups
    ensures ExpectedHandler(agent, event, path) in ConfigurationHandlers(groups)
  {
    hide ExpectedHandler;
    HandlersContain(groups, ExpectedGroup(agent, event, path), ExpectedHandler(agent, event, path));
  }

  /** Configured means: merging would change nothing, and the agent has not switched all hooks off. */
  lemma StatusIsFixpoint(agent: Agent, actual: Json, path: string)
    ensures HookConfigurationStatus(agent, actual, path)
         == if Merge(agent, actual, path) == Ok(actual) && !SwitchedOff(agent, actual)
            then (if agent == Codex then ApprovalRequired else Configured)
            else Missing
  {
    hide NormalizeGroups, RequiredEvents, Merge, ExpectedHandler, ExpectedGroup, ConfigurationHandlers, ValidateExecutable;
    if Merge(agent, actual, path) == Ok(actual) {
      MergeShape(agent, actual, path);
      forall event | event in RequiredEvents(agent)
        ensures ExpectedHandler(agent, event, path) in HandlersAt(actual, event)
      {
        hide IsAizuExecutablePath, Filter, Generated, Foreign;
        NormalizedGroups(GroupsAt(actual, event), agent, event, path);
        ExpectedHandlerPresent(agent, event, path, GroupsAt(actual, event));
        assert "hooks" in actual.fields;
      }
    }
  }

  /** After a merge the hooks report as configured, unless Claude's hooks are disabled altogether. */
  lemma StatusAfterMerge(agent: Agent, existing: Json, path: string)
    requires Merge(agent, existing, path).Ok?
    ensures HookConfigurationStatus(agent, Merge(agent, existing, path).value, path)
         == if SwitchedOff(agent, existing) then Missing
            else if agent == Codex then ApprovalRequired
            else Configured
  {
    hide NormalizeGroups, RequiredEvents, Merge, ValidateExecutable, HookConfigurationStatus;
    MergeIsIdempotent(agent, existing, path);
    StatusIsFixpoint(agent, Merge(agent, existing, path).value, path);
    MergeShape(agent, existing, path);
  }

  /** What the installed command does when the agent hands it to a shell. */
  lemma InstalledCommandRunsAizu(agent: Agent, event: string, executable: string)
    requires event in RequiredEvents(agent)
    ensures Fields(HookCommand(agent, event, executable), Bare, None) == Some([executable] + HookArguments(agent, event))
  {
    hide Fields, ShellQuote, Arguments;
    var words := HookArguments(agent, event);
    PlainArguments(agent, event);
    ShellRunsExactly(executable, words);
  }

  predicate Lettered(word: string) {
    word != "" && forall i :: 0 <= i < |word| ==> 'a' <= word[i] <= 'z' || 'A' <= word[i] <= 'Z' || word[i] == '-'
  }

  lemma LetteredIsPlain(word: string)
    requires Lettered(word)
    ensures word != "" && Plain(word)
  {
  }

  lemma PlainArguments(agent: Agent, event: string)
    requires event in RequiredEvents(agent)
    ensures forall w :: w in HookArguments(agent, event) ==> w != "" && Plain(w)
  {
    hide Plain;
    assert Lettered("hook") && Lettered("--agent") && Lettered("--event") && Lettered("codex") && Lettered("claude-code");
    assert Lettered("PermissionRequest") && Lettered("Stop") && Lettered("StopFailure");
    forall w | w in HookArguments(agent, event) ensures w != "" && Plain(w) {
      LetteredIsPlain(w);
    }
  }

  // ---- What counts as ours, and what is installed ----

  const BY_SHELL := {"type", "command", "timeout"}
  const BY_ARGUMENTS := {"type", "command", "args", "timeout"}

  /** Exactly these fields, or these and a set async flag. */
  ghost predicate OnlyFields(fields: map<string, Json>, keys: set<string>) {
    fields.Keys == keys || (fields.Keys == keys + {"async"} && fields["async"] == Bool(true))
  }

  /** A timeout Aizu writes or once wrote. */
  ghost predicate OurTimeout(timeout: Json, event: string) {
    timeout == U64(5) || (event == "PermissionRequest" && timeout == U64(50))
  }

  function Words(agent: Agent, event: string): seq<string> {
    ["hook", "--agent", if agent == Codex then "codex" else "claude-code", "--event", event]
  }

  /** The quotation of an aizu executable, followed by the hook arguments. */
  ghost predicate OurCommandLine(command: string, agent: Agent, event: string) {
    exists path :: IsAizuExecutablePath(path) && command == ShellQuote(path) + Arguments(Words(agent, event))
  }

  /** A command handler of ours, as one shell line or as an executable with separate arguments, and nothing besides. */
  ghost predicate OurHandler(handler: Json, agent: Agent, event: string) {
    && handler.Obj? && {"type", "command", "timeout"} <= handler.fields.Keys
    && handler.fields["type"] == Str("command") && OurTimeout(handler.fields["timeout"], event)
    && handler.fields["command"].Str?
    && var command := handler.fields["command"].str;
       if OurCommandLine(command, agent, event) then OnlyFields(handler.fields, BY_SHELL)
       else
         && OnlyFields(handler.fields, BY_ARGUMENTS) && IsAizuExecutablePath(command)
         && handler.fields["args"] == Arr([Str("hook"), Str("--agent"), Str(if agent == Codex then "codex" else "claude-code"),
                                           Str("--event"), Str(event)])
  }

  lemma HandlerFieldsIff(fields: map<string, Json>, hasArgs: bool)
    requires BY_SHELL <= fields.Keys && (hasArgs ==> "args" in fields)
    ensures HasKnownHandlerFields(fields, hasArgs) <==> OnlyFields(fields, if hasArgs then BY_ARGUMENTS else BY_SHELL)
  {
    var keys := if hasArgs then BY_ARGUMENTS else BY_SHELL;
    assert |BY_SHELL| == 3 && |BY_ARGUMENTS| == 4;
    assert |fields| == |fields.Keys|;
    assert keys <= fields.Keys;
    KnownKeys();
    if HasKnownHandlerFields(fields, hasArgs) {
      assert fields.Keys <= keys + {"async"};
      if |fields| == |keys| {
        assert |fields.Keys - keys| == 0;
        assert fields.Keys - keys == {};
        assert fields.Keys == keys;
      } else {
        assert fields.Keys == keys + {"async"};
      }
    }
    if OnlyFields(fields, keys) && fields.Keys != keys {
      assert |keys + {"async"}| == |keys| + 1;
    }
  }

  lemma KnownKeys()
    ensures forall key :: key in ["type", "command", "timeout", "async"] <==> key in BY_SHELL + {"async"}
  {
    assert ["type", "command", "timeout", "async"][0] == "type" && ["type", "command", "timeout", "async"][1] == "command"
        && ["type", "command", "timeout", "async"][2] == "timeout" && ["type", "command", "timeout", "async"][3] == "async";
  }

  lemma CommandLineIff(command: string, agent: Agent, event: string)
    ensures var executable := StripSuffix(command, Arguments(HookArguments(agent, event)));
            (executable.Some? && CanonicalQuotedAizuExecutable(executable.value)) <==> OurCommandLine(command, agent, event)
  {
    hide IsAizuExecutablePath, ShellQuote, Arguments, CanonicalQuotedAizuExecutable;
    var suffix := Arguments(HookArguments(agent, event));
    var executable := StripSuffix(command, suffix);
    assert HookArguments(agent, event) == Words(agent, event);
    if executable.Some? {
      CanonicalIffQuoted(executable.value);
      assert command == executable.value + suffix;
    }
    if path :| IsAizuExecutablePath(path) && command == ShellQuote(path) + suffix {
      SuffixStrips(ShellQuote(path), suffix);
      CanonicalIffQuoted(ShellQuote(path));
    }
  }

  /** A group is ours exactly when it holds one handler of ours and nothing else: any second handler or further field makes it foreign. */
  lemma OursIff(group: Json, agent: Agent, event: string)
    ensures IsGeneratedGroup(group, agent, event)
       <==> exists handler :: group == Obj(map["hooks" := Arr([handler])]) && OurHandler(handler, agent, event)
  {
    hide IsGeneratedHandler, OurHandler;
    if IsGeneratedGroup(group, agent, event) {
      var handler := group.fields["hooks"].items[0];
      HandlerIff(handler, agent, event);
      assert group.fields["hooks"].items == [handler];
      OneKey(group.fields, "hooks");
      assert group == Obj(map["hooks" := Arr([handler])]);
    }
    if handler :| group == Obj(map["hooks" := Arr([handler])]) && OurHandler(handler, agent, event) {
      HandlerIff(handler, agent, event);
      assert group.fields.Keys == {"hooks"} && |group.fields.Keys| == 1;
    }
  }

  lemma OneKey(fields: map<string, Json>, key: string)
    requires key in fields && |fields| == 1
    ensures fields == map[key := fields[key]]
  {
    assert |fields.Keys| == 1;
    assert fields.Keys - {key} == {} by { assert |fields.Keys - {key}| == 0; }
    assert fields.Keys == {key};
  }

  lemma HandlerIff(handler: Json, agent: Agent, event: string)
    ensures IsGeneratedHandler(handler, agent, event) <==> OurHandler(handler, agent, event)
  {
    hide HasKnownHandlerFields, OnlyFields, IsAizuExecutablePath, ShellQuote, Arguments, CanonicalQuotedAizuExecutable, StripSuffix, OurCommandLine;
    if handler.Obj? && BY_SHELL <= handler.fields.Keys {
      HandlerFieldsIff(handler.fields, false);
      if "args" in handler.fields { HandlerFieldsIff(handler.fields, true); }
      if handler.fields["command"].Str? { CommandLineIff(handler.fields["command"].str, agent, event); }
    }
    OnlyMeans(handler);
  }

  lemma OnlyMeans(handler: Json)
    ensures handler.Obj? && OnlyFields(handler.fields, BY_ARGUMENTS) ==> "args" in handler.fields
  {
  }

  /**
   * What a merge installs: for every permission request and stop, and for Claude also every failed stop, exactly one
   * group of ours, whose command a shell runs as the given executable with the hook arguments, with 50 seconds for a
   * permission request and 5 otherwise.
   */
  lemma MergeInstalls(agent: Agent, existing: Json, path: string, event: string)
    requires Merge(agent, existing, path).Ok?
    requires event == "PermissionRequest" || event == "Stop" || (agent == ClaudeCode && event == "StopFailure")
    ensures var merged := Merge(agent, existing, path).value;
            exists command :: Fields(command, Bare, None) == Some([path] + Words(agent, event))
              && Obj(map["hooks" := Arr([Obj(map["type" := Str("command"), "command" := Str(command),
                                                 "timeout" := U64(if event == "PermissionRequest" then 50 else 5)])])])
                 in GroupsAt(merged, event)
  {
    hide NormalizeGroups, Merge, Fields, ShellQuote, Arguments, ValidateExecutable;
    MergeShape(agent, existing, path);
    assert event in RequiredEvents(agent) by {
      RequiredAre(agent, event);
    }
    NormalizedGroups(GroupsAt(existing, event), agent, event, path);
    InstalledCommandRunsAizu(agent, event, path);
    var command := HookCommand(agent, event, path);
    assert HookArguments(agent, event) == Words(agent, event);
    assert Fields(command, Bare, None) == Some([path] + Words(agent, event));
  }

  /** A refused merge names the first thing wrong: the path, the root, the hooks object, or an event that holds no list. */
  lemma MergeRefusals(agent: Agent, existing: Json, path: string)
    ensures var merged := Merge(agent, existing, path);
            if path == "" || path[0] != '/' then merged == Err(ExecutableMustBeAbsolute)
            else if exists c :: c in path && Protocol.IsControl(c) then merged == Err(ExecutablePathContainsControl)
            else if !existing.Obj? then merged == Err(ConfigurationRootMustBeObject)
            else if "hooks" in existing.fields && !existing.fields["hooks"].Obj? then merged == Err(HooksMustBeObject)
            else if exists event :: event in RequiredEvents(agent) && "hooks" in existing.fields
                                    && event in existing.fields["hooks"].fields && !existing.fields["hooks"].fields[event].Arr?
            then merged == Err(HookEventMustBeArray)
            else merged.Ok?
  {
    hide NormalizeGroups, RequiredEvents, MergeEvents;
    RequiredEventsDiffer(agent);
    if HooksOf(existing).Obj? {
      MergeEventsShape(HooksOf(existing).fields, agent, path, RequiredEvents(agent));
    }
    if Protocol.Printable(path) {
      forall c | c in path ensures !Protocol.IsControl(c) {
        var i :| 0 <= i < |path| && path[i] == c;
      }
    } else {
      var i :| 0 <= i < |path| && Protocol.IsControl(path[i]);
      assert path[i] in path;
    }
  }

  lemma RequiredAre(agent: Agent, event: string)
    ensures event in RequiredEvents(agent)
       <==> event == "PermissionRequest" || event == "Stop" || (agent == ClaudeCode && event == "StopFailure")
  {
    assert RequiredEvents(agent)[0] == "PermissionRequest" && RequiredEvents(agent)[1] == "Stop";
    if agent == ClaudeCode { assert RequiredEvents(agent)[2] == "StopFailure"; }
  }
}
