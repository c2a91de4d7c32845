/** Removal of this product's hook handlers from a tool's JSON configuration. */
module HookRemoval {
  import opened Common
  import opened ShellQuoting

  datatype Json =
    | Null
    | Bool(b: bool)
    | Number(literal: string)
    | Text(s: string)
    | Array(items: seq<Json>)
    | Object(fields: map<string, Json>)

  datatype RemovalError = RootNotObject | HooksNotObject

  datatype Tool = Claude | Codex

  const INTEGRATION_OWNER: string := "agent-workboard/native-integration-v1"

  function Get(value: Json, key: string): Option<Json> {
    if value.Object? && key in value.fields then Some(value.fields[key]) else None
  }

  predicate At(text: string, i: int, part: string) {
    0 <= i <= |text| - |part| && text[i..i + |part|] == part
  }

  predicate Contains(text: string, part: string) {
    exists i :: 0 <= i <= |text| - |part| && At(text, i, part)
  }

  predicate OwnerPair(args: seq<Json>, i: int)
    requires 0 <= i < |args| - 1
  {
    args[i] == Text("--owner") && args[i + 1] == Text(INTEGRATION_OWNER)
  }

  predicate NamesOwner(value: Option<Json>) {
    value.Some? && value.value.Text? && Contains(value.value.s, INTEGRATION_OWNER)
  }

  predicate IsOwnedHandler(value: Json) {
    (Get(value, "args").Some? && Get(value, "args").value.Array?
     && exists i :: 0 <= i < |Get(value, "args").value.items| - 1 && OwnerPair(Get(value, "args").value.items, i))
    || NamesOwner(Get(value, "command"))
    || NamesOwner(Get(value, "commandWindows"))
  }

  /** A group of the usual form: an object whose `hooks` is an array of handlers. */
  predicate Shaped(group: Json) {
    Get(group, "hooks").Some? && Get(group, "hooks").value.Array?
  }

  function HandlersOf(group: Json): seq<Json>
    requires Shaped(group)
  {
    group.fields["hooks"].items
  }

  function Foreign(handlers: seq<Json>): (r: seq<Json>)
    ensures forall h :: h in r <==> h in handlers && !IsOwnedHandler(h)
  {
    if handlers == [] then []
    else
      var front := Foreign(handlers[..|handlers| - 1]);
      if IsOwnedHandler(handlers[|handlers| - 1]) then front else front + [handlers[|handlers| - 1]]
  }

  function CleanGroup(group: Json): Json {
    if Shaped(group) then Object(group.fields["hooks" := Array(Foreign(HandlersOf(group)))]) else group
  }

  predicate GroupStays(group: Json) {
    Shaped(group) ==> Foreign(HandlersOf(group)) != []
  }

  function CleanGroups(groups: seq<Json>): seq<Json> {
    if groups == [] then []
    else
      var front, last := CleanGroups(groups[..|groups| - 1]), groups[|groups| - 1];
      if GroupStays(last) then front + [CleanGroup(last)] else front
  }

  function CleanEvent(groups: Json): Json {
    if groups.Array? then Array(CleanGroups(groups.items)) else groups
  }

  predicate EventStays(groups: Json) {
    groups.Array? ==> CleanGroups(groups.items) != []
  }

  function CleanHooks(hooks: map<string, Json>): map<string, Json> {
    map event | event in hooks && EventStays(hooks[event]) :: CleanEvent(hooks[event])
  }

  function Removed(value: Json): Result<Json, RemovalError> {
    if !value.Object? then Err(RootNotObject)
    else if "hooks" !in value.fields then Ok(value)
    else if !value.fields["hooks"].Object? then Err(HooksNotObject)
    else
      var hooks := CleanHooks(value.fields["hooks"].fields);
      Ok(Object(if hooks == map[] then value.fields - {"hooks"} else value.fields["hooks" := Object(hooks)]))
  }

  // The in-place traversal: three nested retains

  method RetainHandlers(handlers: seq<Json>) returns (kept: seq<Json>)
    ensures kept == Foreign(handlers)
  {
    kept := [];
    for i := 0 to |handlers|
      invariant kept == Foreign(handlers[..i])
    {
      assert handlers[..i + 1][..i] == handlers[..i];
      if !IsOwnedHandler(handlers[i]) {
        kept := kept + [handlers[i]];
      }
    }
    assert handlers[..|handlers|] == handlers;
  }

  method RetainGroups(groups: seq<Json>) returns (kept: seq<Json>)
    ensures kept == CleanGroups(groups)
  {
    kept := [];
    for i := 0 to |groups|
      invariant kept == CleanGroups(groups[..i])
    {
      assert groups[..i + 1][..i] == groups[..i];
      var group := groups[i];
      if !Shaped(group) {
        kept := kept + [group];
      } else {
        var handlers := RetainHandlers(HandlersOf(group));
        if handlers != [] {
          kept := kept + [Object(group.fields["hooks" := Array(handlers)])];
        }
      }
    }
    assert groups[..|groups|] == groups;
  }

  method RemoveOwned(value: Json) returns (r: Result<Json, RemovalError>)
    ensures r == Removed(value)
  {
    if !value.Object? {
      return Err(RootNotObject);
    }
    if "hooks" !in value.fields {
      return Ok(value);
    }
    if !value.fields["hooks"].Object? {
      return Err(HooksNotObject);
    }
    var hooks := value.fields["hooks"].fields;
    var kept: map<string, Json> := map[];
    var rest := hooks.Keys;
    while rest != {}
      invariant rest <= hooks.Keys
      invariant kept == map event | event in hooks && event !in rest && EventStays(hooks[event]) :: CleanEvent(hooks[event])
    {
      var event :| event in rest;
      rest := rest - {event};
      if !hooks[event].Array? {
        kept := kept[event := hooks[event]];
      } else {
        var groups := RetainGroups(hooks[event].items);
        if groups != [] {
          kept := kept[event := Array(groups)];
        }
      }
    }
    assert kept == CleanHooks(hooks);
    return Ok(Object(if kept == map[] then value.fields - {"hooks"} else value.fields["hooks" := Object(kept)]));
  }

  // What removal means

  /** One entry of an event: a group this code does not understand, or one handler together with
      the rest of its group. */
  datatype Entry = Opaque(group: Json) | Handler(rest: map<string, Json>, handler: Json)

  function GroupEntries(rest: map<string, Json>, handlers: seq<Json>): seq<Entry> {
    if handlers == [] then []
    else GroupEntries(rest, handlers[..|handlers| - 1]) + [Handler(rest, handlers[|handlers| - 1])]
  }

  function EntriesOf(group: Json): seq<Entry> {
    if Shaped(group) then GroupEntries(group.fields - {"hooks"}, HandlersOf(group)) else [Opaque(group)]
  }

  function Entries(groups: seq<Json>): seq<Entry> {
    if groups == [] then [] else Entries(groups[..|groups| - 1]) + EntriesOf(groups[|groups| - 1])
  }

  predicate Owned(e: Entry) {
    e.Handler? && IsOwnedHandler(e.handler)
  }

  function Others(entries: seq<Entry>): seq<Entry> {
    if entries == [] then []
    else Others(entries[..|entries| - 1]) + if Owned(entries[|entries| - 1]) then [] else [entries[|entries| - 1]]
  }

  lemma {:induction false} OthersAppend(a: seq<Entry>, b: seq<Entry>)
    ensures Others(a + b) == Others(a) + Others(b)
  {
    if b == [] {
      assert a + b == a;
    } else {
      assert (a + b)[..|a + b| - 1] == a + b[..|b| - 1];
      OthersAppend(a, b[..|b| - 1]);
    }
  }

  lemma {:induction false} ForeignEntries(rest: map<string, Json>, handlers: seq<Json>)
    ensures GroupEntries(rest, Foreign(handlers)) == Others(GroupEntries(rest, handlers))
  {
    if handlers != [] {
      var front, last := handlers[..|handlers| - 1], handlers[|handlers| - 1];
      ForeignEntries(rest, front);
      OthersAppend(GroupEntries(rest, front), [Handler(rest, last)]);
      assert Others([Handler(rest, last)]) == if IsOwnedHandler(last) then [] else [Handler(rest, last)];
      if !IsOwnedHandler(last) {
        assert (Foreign(front) + [last])[..|Foreign(front)|] == Foreign(front);
      }
    }
  }

  lemma GroupKept(group: Json)
    ensures Others(EntriesOf(group)) == if GroupStays(group) then EntriesOf(CleanGroup(group)) else []
  {
    if Shaped(group) {
      ForeignEntries(group.fields - {"hooks"}, HandlersOf(group));
      assert CleanGroup(group).fields - {"hooks"} == group.fields - {"hooks"};
      assert HandlersOf(CleanGroup(group)) == Foreign(HandlersOf(group));
    } else {
      assert Others([Opaque(group)]) == [Opaque(group)];
    }
  }

  lemma EntriesLast(groups: seq<Json>, group: Json)
    ensures Entries(groups + [group]) == Entries(groups) + EntriesOf(group)
  {
    assert (groups + [group])[..|groups|] == groups;
  }

  /** Every foreign handler survives, in order and with its group; nothing else does. */
  lemma {:induction false} EntriesKept(groups: seq<Json>)
    ensures Entries(CleanGroups(groups)) == Others(Entries(groups))
  {
    if groups != [] {
      var front, last := groups[..|groups| - 1], groups[|groups| - 1];
      assert groups == front + [last];
      assert CleanGroups(groups) == CleanGroups(front) + if GroupStays(last) then [CleanGroup(last)] else [];
      EntriesKept(front);
      hide *;
      EntriesLast(front, last);
      OthersAppend(Entries(front), EntriesOf(last));
      GroupKept(last);
      EntriesLast(CleanGroups(front), CleanGroup(last));
    }
  }

  lemma {:induction false} ForeignTwice(handlers: seq<Json>)
    requires forall h :: h in handlers ==> !IsOwnedHandler(h)
    ensures Foreign(handlers) == handlers
  {
    if handlers != [] {
      ForeignTwice(handlers[..|handlers| - 1]);
    }
  }

  lemma {:induction false} CleanGroupsTwice(groups: seq<Json>)
    ensures CleanGroups(CleanGroups(groups)) == CleanGroups(groups)
    ensures forall group :: group in CleanGroups(groups) && Shaped(group) ==>
              HandlersOf(group) != [] && forall h :: h in HandlersOf(group) ==> !IsOwnedHandler(h)
  {
    if groups != [] {
      var front, last := groups[..|groups| - 1], groups[|groups| - 1];
      CleanGroupsTwice(front);
      if GroupStays(last) {
        var clean := CleanGroups(front);
        assert (clean + [CleanGroup(last)])[..|clean|] == clean;
        if Shaped(last) {
          ForeignTwice(Foreign(HandlersOf(last)));
          assert CleanGroup(CleanGroup(last)) == CleanGroup(last);
        }
      }
    }
  }

  /** After removal no array-shaped group of any event holds an owned handler. */
  lemma NoOwnedHandlerLeft(value: Json, result: Json, event: string, group: Json, handler: Json)
    requires Removed(value) == Ok(result)
    requires Get(result, "hooks").Some? && Get(Get(result, "hooks").value, event).Some?
    requires Get(Get(result, "hooks").value, event).value.Array?
    requires group in Get(Get(result, "hooks").value, event).value.items && Shaped(group)
    requires handler in HandlersOf(group)
    ensures !IsOwnedHandler(handler)
  {
    CleanGroupsTwice(value.fields["hooks"].fields[event].items);
  }

  /** Removing twice is removing once. */
  lemma RemovalIdempotent(value: Json, result: Json)
    requires Removed(value) == Ok(result)
    ensures Removed(result) == Ok(result)
  {
    if "hooks" in value.fields {
      var before := value.fields["hooks"].fields;
      var after := CleanHooks(before);
      forall event | event in after ensures EventStays(after[event]) && CleanEvent(after[event]) == after[event] {
        if before[event].Array? { CleanGroupsTwice(before[event].items); }
      }
      assert CleanHooks(after) == after;
      if after != map[] {
        assert result.fields["hooks" := Object(after)] == result.fields;
      }
    }
  }

  /** Whatever is not a handler of an array-shaped group stays: other root fields, events that
      are no arrays, and, through `EntriesKept`, every foreign entry of the others. An event goes
      only when nothing of it is left. */
  lemma RestOfConfigurationKept(value: Json, result: Json, key: string)
    requires Removed(value) == Ok(result) && "hooks" in value.fields
    ensures key != "hooks" ==> Get(result, key) == Get(value, key)
    ensures var before := Get(value.fields["hooks"], key);
            var after := if Get(result, "hooks").Some? then Get(result.fields["hooks"], key) else None;
            && (before.None? ==> after.None?)
            && (before.Some? && !before.value.Array? ==> after == before)
            && (before.Some? && before.value.Array? && after.Some? ==>
                  after.value.Array? && Entries(after.value.items) == Others(Entries(before.value.items)))
            && (before.Some? && before.value.Array? && after.None? ==> Others(Entries(before.value.items)) == [])
  {
    var before := Get(value.fields["hooks"], key);
    if before.Some? && before.value.Array? {
      EntriesKept(before.value.items);
      if EventStays(before.value) {
        assert key in CleanHooks(value.fields["hooks"].fields);
      }
    }
  }

  // Which handlers go

  ghost predicate CarriesOwner(text: string) {
    exists before, after :: text == before + INTEGRATION_OWNER + after
  }

  /** Some part of a command line is the owner, or it is the argument right after `--owner`. */
  ghost predicate MentionsOwner(handler: Json) {
    handler.Object?
    && (("command" in handler.fields && handler.fields["command"].Text? && CarriesOwner(handler.fields["command"].s))
        || ("commandWindows" in handler.fields && handler.fields["commandWindows"].Text?
            && CarriesOwner(handler.fields["commandWindows"].s))
        || ("args" in handler.fields && handler.fields["args"].Array? && PassesOwner(handler.fields["args"].items)))
  }

  ghost predicate PassesOwner(args: seq<Json>) {
    exists before, after :: args == before + [Text("--owner"), Text(INTEGRATION_OWNER)] + after
  }

  lemma ContainsExactly(text: string)
    ensures Contains(text, INTEGRATION_OWNER) <==> CarriesOwner(text)
  {
    if Contains(text, INTEGRATION_OWNER) {
      var i :| 0 <= i <= |text| - |INTEGRATION_OWNER| && At(text, i, INTEGRATION_OWNER);
      assert text == text[..i] + INTEGRATION_OWNER + text[i + |INTEGRATION_OWNER|..];
    }
    if CarriesOwner(text) {
      var before, after :| text == before + INTEGRATION_OWNER + after;
      assert At(text, |before|, INTEGRATION_OWNER);
    }
  }

  lemma OwnerPairExactly(args: seq<Json>)
    ensures (exists i :: 0 <= i < |args| - 1 && OwnerPair(args, i)) <==> PassesOwner(args)
  {
    if i :| 0 <= i < |args| - 1 && OwnerPair(args, i) {
      assert args == args[..i] + [Text("--owner"), Text(INTEGRATION_OWNER)] + args[i + 2..];
    }
    if PassesOwner(args) {
      var before, after :| args == before + [Text("--owner"), Text(INTEGRATION_OWNER)] + after;
      assert OwnerPair(args, |before|);
    }
  }

  lemma OwnedExactly(handler: Json)
    ensures IsOwnedHandler(handler) <==> MentionsOwner(handler)
  {
    if handler.Object? {
      if "args" in handler.fields && handler.fields["args"].Array? {
        OwnerPairExactly(handler.fields["args"].items);
      }
      if "command" in handler.fields && handler.fields["command"].Text? {
        ContainsExactly(handler.fields["command"].s);
      }
      if "commandWindows" in handler.fields && handler.fields["commandWindows"].Text? {
        ContainsExactly(handler.fields["commandWindows"].s);
      }
    }
  }

  lemma {:induction false} GroupSurvives(groups: seq<Json>, group: Json)
    requires group in groups && GroupStays(group)
    ensures CleanGroup(group) in CleanGroups(groups)
  {
    if groups[|groups| - 1] != group {
      GroupSurvives(groups[..|groups| - 1], group);
    }
  }

  /** The configuration lists the handler under the event, in a group with these other fields. */
  ghost predicate Lists(configuration: Json, event: string, rest: map<string, Json>, handler: Json) {
    Get(configuration, "hooks").Some?
    && Get(configuration.fields["hooks"], event).Some? && configuration.fields["hooks"].fields[event].Array?
    && exists group :: group in configuration.fields["hooks"].fields[event].items && InGroup(group, rest, handler)
  }

  ghost predicate InGroup(group: Json, rest: map<string, Json>, handler: Json) {
    group.Object? && group.fields - {"hooks"} == rest
    && "hooks" in group.fields && group.fields["hooks"].Array? && handler in group.fields["hooks"].items
  }

  /** Removal keeps a handler, in a group with the same other fields, exactly if it does not mention
      the owner; and it lists no handler that was not there. */
  lemma HandlerSurvivesExactly(value: Json, result: Json, event: string, rest: map<string, Json>, handler: Json)
    requires Removed(value) == Ok(result)
    ensures Lists(result, event, rest, handler) <==> Lists(value, event, rest, handler) && !MentionsOwner(handler)
  {
    OwnedExactly(handler);
    hide MentionsOwner, IsOwnedHandler;
    if Lists(value, event, rest, handler) && !IsOwnedHandler(handler) {
      var groups := value.fields["hooks"].fields[event].items;
      var group :| group in groups && InGroup(group, rest, handler);
      GroupSurvives(groups, group);
      assert event in CleanHooks(value.fields["hooks"].fields);
      assert CleanGroup(group).fields - {"hooks"} == rest;
      assert InGroup(CleanGroup(group), rest, handler);
    }
    if Lists(result, event, rest, handler) {
      var group :| group in result.fields["hooks"].fields[event].items && InGroup(group, rest, handler);
      var groups := value.fields["hooks"].fields[event].items;
      var from := CleanedFrom(groups, group);
      assert from.fields - {"hooks"} == group.fields - {"hooks"};
      assert InGroup(from, rest, handler);
      NoOwnedHandlerLeft(value, result, event, group, handler);
    }
  }

  lemma {:induction false} CleanedFrom(groups: seq<Json>, group: Json) returns (from: Json)
    requires group in CleanGroups(groups)
    ensures from in groups && group == CleanGroup(from)
  {
    var last := groups[|groups| - 1];
    if GroupStays(last) && group == CleanGroup(last) {
      from := last;
    } else {
      from := CleanedFrom(groups[..|groups| - 1], group);
    }
  }

  // The configuration that this product installs

  function HookArguments(tool: string, database: string): seq<string> {
    ["integration", "ingest-hook", "--tool", tool, "--database", database, "--owner", INTEGRATION_OWNER, "--quiet"]
  }

  function Texts(values: seq<string>): seq<Json> {
    seq(|values|, i requires 0 <= i < |values| => Text(values[i]))
  }

  function HandlerFor(tool: Tool, executable: string, database: string): Json {
    match tool
    case Claude =>
      Object(map["type" := Text("command"), "command" := Text(executable),
                 "args" := Array(Texts(HookArguments("claude", database))), "timeout" := Number("3")])
    case Codex =>
      CodexHandler(ShellCommand(executable, HookArguments("codex", database), false),
                   ShellCommand(executable, HookArguments("codex", database), true))
  }

  function CodexHandler(command: string, commandWindows: string): Json {
    Object(map["type" := Text("command"), "command" := Text(command), "commandWindows" := Text(commandWindows),
               "timeout" := Number("3")])
  }

  function Events(tool: Tool): seq<(string, Option<string>)> {
    match tool
    case Claude =>
      [("SessionStart", Some("startup|resume|clear|compact")), ("UserPromptSubmit", None), ("PreToolUse", Some("Bash")),
       ("CwdChanged", None), ("PreCompact", None), ("PostCompact", None), ("Stop", None), ("SessionEnd", None)]
    case Codex =>
      [("SessionStart", Some("^(startup|resume|clear|compact)$")), ("UserPromptSubmit", None), ("PreToolUse", Some("^Bash$")),
       ("PreCompact", None), ("PostCompact", None), ("Stop", None), ("SessionEnd", None)]
  }

  function OwnedGroup(matcher: Option<string>, handler: Json): Json {
    Object((if matcher.Some? then map["matcher" := Text(matcher.value)] else map[]) + map["hooks" := Array([handler])])
  }

  function OwnedHooks(events: seq<(string, Option<string>)>, handler: Json): map<string, Json> {
    if events == [] then map[]
    else OwnedHooks(events[..|events| - 1], handler)[events[|events| - 1].0 := Array([OwnedGroup(events[|events| - 1].1, handler)])]
  }

  function OwnedHookConfiguration(tool: Tool, executable: string, database: string): Json {
    Object(map["hooks" := Object(OwnedHooks(Events(tool), HandlerFor(tool, executable, database)))])
  }

  lemma {:induction false} OwnedHooksListed(events: seq<(string, Option<string>)>, handler: Json, k: nat)
    requires k < |events| && forall i, j :: 0 <= i < j < |events| ==> events[i].0 != events[j].0
    ensures events[k].0 in OwnedHooks(events, handler)
            && OwnedHooks(events, handler)[events[k].0] == Array([OwnedGroup(events[k].1, handler)])
  {
    if k < |events| - 1 {
      OwnedHooksListed(events[..|events| - 1], handler, k);
    }
  }

  lemma EventsDiffer(tool: Tool)
    ensures forall i, j :: 0 <= i < j < |Events(tool)| ==> Events(tool)[i].0 != Events(tool)[j].0
  {
    var names := seq(|Events(tool)|, i requires 0 <= i < |Events(tool)| => Events(tool)[i].0);
    match tool
    case Claude =>
      assert names == ["SessionStart", "UserPromptSubmit", "PreToolUse", "CwdChanged", "PreCompact", "PostCompact", "Stop", "SessionEnd"];
    case Codex =>
      assert names == ["SessionStart", "UserPromptSubmit", "PreToolUse", "PreCompact", "PostCompact", "Stop", "SessionEnd"];
  }

  function MatcherFields(matcher: Option<string>): map<string, Json> {
    if matcher.Some? then map["matcher" := Text(matcher.value)] else map[]
  }

  lemma OwnedGroupHolds(matcher: Option<string>, handler: Json)
    ensures InGroup(OwnedGroup(matcher, handler), MatcherFields(matcher), handler)
  {
    assert OwnedGroup(matcher, handler).fields - {"hooks"} == MatcherFields(matcher);
  }

  lemma OwnedHooksLists(events: seq<(string, Option<string>)>, handler: Json, k: nat)
    requires k < |events| && forall i, j :: 0 <= i < j < |events| ==> events[i].0 != events[j].0
    ensures Lists(Object(map["hooks" := Object(OwnedHooks(events, handler))]), events[k].0, MatcherFields(events[k].1), handler)
  {
    OwnedHooksListed(events, handler, k);
    OwnedGroupHolds(events[k].1, handler);
    hide OwnedHooks, OwnedGroup, InGroup;
    var group := OwnedGroup(events[k].1, handler);
    assert group in [group];
  }

  /** What is installed lists the handler under every event of the tool, with its matcher. */
  lemma InstalledUnderEveryEvent(tool: Tool, executable: string, database: string, k: nat)
    requires k < |Events(tool)|
    ensures Lists(OwnedHookConfiguration(tool, executable, database), Events(tool)[k].0, MatcherFields(Events(tool)[k].1),
                  HandlerFor(tool, executable, database))
  {
    EventsDiffer(tool);
    hide Events, HandlerFor, Lists;
    OwnedHooksLists(Events(tool), HandlerFor(tool, executable, database), k);
  }

  lemma ContainsWithin(before: string, middle: string, after: string, part: string)
    requires Contains(middle, part)
    ensures Contains(before + middle + after, part)
  {
    var i :| 0 <= i <= |middle| - |part| && At(middle, i, part);
    var text := before + middle + after;
    assert text[|before| + i..|before| + i + |part|] == middle[i..i + |part|];
    assert At(text, |before| + i, part);
  }

  lemma {:induction false} NothingToReplace(s: string, c: char, sub: string)
    requires c !in s
    ensures ReplaceAll(s, c, sub) == s
  {
    if s != "" {
      NothingToReplace(s[1..], c, sub);
    }
  }

  lemma QuoteContains(value: string, windows: bool)
    requires '\'' !in value && '\"' !in value
    ensures Contains(Quote(value, windows), value)
  {
    NothingToReplace(value, '\'', "'\"'\"'");
    NothingToReplace(value, '\"', "\"\"");
    assert At(value, 0, value);
    var q := if windows then "\"" else "'";
    ContainsWithin(q, value, q, value);
  }

  /** A value that needs no escaping appears literally in the command line that carries it. */
  lemma {:induction false} TailContains(values: seq<string>, k: nat, windows: bool)
    requires k < |values| && '\'' !in values[k] && '\"' !in values[k]
    ensures Contains(SpacedTail(values, windows), values[k])
  {
    var head, tail := Quote(values[0], windows), SpacedTail(values[1..], windows);
    if k == 0 {
      QuoteContains(values[0], windows);
      ContainsWithin(" ", head, tail, values[0]);
    } else {
      TailContains(values[1..], k - 1, windows);
      ContainsWithin(" " + head, tail, "", values[k]);
      assert " " + head + tail + "" == " " + head + tail;
    }
  }

  lemma CommandContains(executable: string, arguments: seq<string>, k: nat, windows: bool)
    requires k < |arguments| && '\'' !in arguments[k] && '\"' !in arguments[k]
    ensures Contains(ShellCommand(executable, arguments, windows), arguments[k])
  {
    TailContains(arguments, k, windows);
    var head, tail := (if windows then "& " else "") + Quote(executable, windows), SpacedTail(arguments, windows);
    ContainsWithin(head, tail, "", arguments[k]);
    assert head + tail + "" == head + tail;
  }

  lemma ClaudeHandlerIsOwned(executable: string, database: string)
    ensures IsOwnedHandler(HandlerFor(Claude, executable, database))
  {
    var arguments := HookArguments("claude", database);
    assert Texts(arguments)[6] == Text("--owner") && Texts(arguments)[7] == Text(INTEGRATION_OWNER);
    assert OwnerPair(Texts(arguments), 6);
  }

  lemma NamedCommandIsOwned(command: string, commandWindows: string)
    requires Contains(command, INTEGRATION_OWNER)
    ensures IsOwnedHandler(CodexHandler(command, commandWindows))
  {
    assert NamesOwner(Get(CodexHandler(command, commandWindows), "command"));
  }

  lemma OwnerArgument(tool: string, database: string)
    ensures var arguments := HookArguments(tool, database);
            |arguments| > 7 && arguments[7] == INTEGRATION_OWNER
    ensures '\'' !in INTEGRATION_OWNER && '\"' !in INTEGRATION_OWNER
  {
  }

  lemma CodexHandlerIsOwned(executable: string, database: string)
    ensures IsOwnedHandler(HandlerFor(Codex, executable, database))
  {
    hide ShellCommand, HookArguments, Contains;
    OwnerArgument("codex", database);
    CommandContains(executable, HookArguments("codex", database), 7, false);
    NamedCommandIsOwned(ShellCommand(executable, HookArguments("codex", database), false),
                        ShellCommand(executable, HookArguments("codex", database), true));
  }

  lemma {:induction false} OwnedHooksClean(events: seq<(string, Option<string>)>, handler: Json)
    requires IsOwnedHandler(handler)
    ensures CleanHooks(OwnedHooks(events, handler)) == map[]
  {
    if events != [] {
      var front, last := events[..|events| - 1], events[|events| - 1];
      OwnedHooksClean(front, handler);
      var group := OwnedGroup(last.1, handler);
      assert HandlersOf(group) == [handler] && Foreign([handler]) == [];
      assert CleanGroups([group]) == [];
      forall event | event in OwnedHooks(events, handler) ensures !EventStays(OwnedHooks(events, handler)[event]) {
        if event != last.0 {
          assert event !in CleanHooks(OwnedHooks(front, handler));
        }
      }
    }
  }

  lemma OwnedOnlyIsEmptied(events: seq<(string, Option<string>)>, handler: Json)
    requires IsOwnedHandler(handler)
    ensures Removed(Object(map["hooks" := Object(OwnedHooks(events, handler))])) == Ok(Object(map[]))
  {
    OwnedHooksClean(events, handler);
    assert map["hooks" := Object(OwnedHooks(events, handler))] - {"hooks"} == map[];
  }

  /** What installation wrote, removal takes away without a trace. */
  lemma RemovalUndoesInstallation(tool: Tool, executable: string, database: string)
    ensures Removed(OwnedHookConfiguration(tool, executable, database)) == Ok(Object(map[]))
  {
    ClaudeHandlerIsOwned(executable, database);
    CodexHandlerIsOwned(executable, database);
    OwnedOnlyIsEmptied(Events(tool), HandlerFor(tool, executable, database));
  }
}
