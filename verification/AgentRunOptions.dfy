/** What a turn of blueprints/agent.py was built with, stored beside the message that opened it and
 * recovered when a paused run is resumed: reasoning effort, chart-context lines, the web-search switch.
 */
module AgentRunOptions {
  import opened Wrappers
  import opened Text
  import opened Positions

  const MAX_RUNTIME_LINES := 10
  const MAX_STORED_LINE := 200
  const LISTED_MESSAGES := 500
  const RUN_OPTIONS := "run_options"
  const ATTACHMENTS := "attachments"
  const EFFORTS := ["off", "low", "medium", "high"]
  const OFF_WORDS := ["false", "0", "off", "no", ""]

  /** A JSON value; a number is kept as it prints. */
  datatype Json =
    | Null
    | Bool(b: bool)
    | Number(shown: string, zero: bool)
    | Text(text: string)
    | List(items: seq<Json>)
    | Object(fields: seq<(string, Json)>)

  function Find(fields: seq<(string, Json)>, key: string): Json {
    if fields == [] then Null else if fields[0].0 == key then fields[0].1 else Find(fields[1..], key)
  }

  /** `value.get(key)`; an absent field reads as null. */
  function Get(value: Json, key: string): Json {
    if value.Object? then Find(value.fields, key) else Null
  }

  predicate Truthy(value: Json) {
    match value
    case Null => false
    case Bool(b) => b
    case Number(_, zero) => !zero
    case Text(text) => text != ""
    case List(items) => items != []
    case Object(fields) => fields != []
  }

  function Cut(text: string, n: nat): (r: string)
    ensures |r| <= n && r <= text && (|text| <= n ==> r == text)
  {
    if |text| <= n then text else text[..n]
  }

  // ---------------------------------------------------------------- chart context

  predicate IsScalar(value: Json) {
    value.Bool? || value.Number? || value.Text?
  }

  function Shown(value: Json): string
    requires IsScalar(value)
  {
    match value
    case Bool(b) => if b then "True" else "False"
    case Number(shown, _) => shown
    case Text(text) => text
  }

  function Inserted(field: (string, Json), fields: seq<(string, Json)>): seq<(string, Json)> {
    if fields == [] || Less(field.0, fields[0].0) then [field] + fields
    else [fields[0]] + Inserted(field, fields[1..])
  }

  /** The fields in the order of their keys. */
  function ByKey(fields: seq<(string, Json)>): seq<(string, Json)> {
    if fields == [] then [] else Inserted(fields[|fields| - 1], ByKey(fields[..|fields| - 1]))
  }

  predicate Sorted(fields: seq<(string, Json)>) {
    forall i :: 0 < i < |fields| ==> AtMost(fields[i - 1].0, fields[i].0)
  }

  lemma {:induction false} InsertedIsSorted(field: (string, Json), fields: seq<(string, Json)>)
    requires Sorted(fields)
    ensures Sorted(Inserted(field, fields))
    ensures multiset(Inserted(field, fields)) == multiset(fields) + multiset{field}
    ensures Inserted(field, fields)[0] == field || (fields != [] && Inserted(field, fields)[0] == fields[0])
  {
    if fields == [] {
    } else if Less(field.0, fields[0].0) {
      LessIsTotal(field.0, fields[0].0);
    } else {
      var rest := fields[1..];
      assert fields == [fields[0]] + rest;
      assert forall i :: 0 <= i < |rest| ==> rest[i] == fields[i + 1];
      InsertedIsSorted(field, rest);
    }
  }

  /** The fields are visited in key order, each once. */
  lemma {:induction false} ByKeyIsSorted(fields: seq<(string, Json)>)
    ensures Sorted(ByKey(fields)) && multiset(ByKey(fields)) == multiset(fields)
  {
    if fields != [] {
      var n := |fields| - 1;
      ByKeyIsSorted(fields[..n]);
      InsertedIsSorted(fields[n], ByKey(fields[..n]));
      assert fields == fields[..n] + [fields[n]];
    }
  }

  function LineOf(field: (string, Json)): (line: string)
    requires IsScalar(field.1)
    ensures |line| <= 162
  {
    Cut(field.0, 40) + ": " + Cut(Shown(field.1), 120)
  }

  /** Every scalar as a line. */
  function AllLines(fields: seq<(string, Json)>): (lines: seq<string>)
    ensures forall i :: 0 <= i < |lines| ==> |lines[i]| <= 162
  {
    if fields == [] then []
    else
      var last := fields[|fields| - 1];
      AllLines(fields[..|fields| - 1]) + if IsScalar(last.1) then [LineOf(last)] else []
  }

  function FirstLines(lines: seq<string>): seq<string> {
    if |lines| <= MAX_RUNTIME_LINES then lines else lines[..MAX_RUNTIME_LINES]
  }

  function RuntimeLinesOf(context: Json): (lines: seq<string>)
    ensures Bounded(lines)
  {
    if context.Object? then FirstLines(AllLines(ByKey(context.fields))) else []
  }

  predicate Bounded(lines: seq<string>) {
    |lines| <= MAX_RUNTIME_LINES && forall i :: 0 <= i < |lines| ==> |lines[i]| <= 162
  }

  lemma {:induction false} AllLinesGrow(fields: seq<(string, Json)>, n: nat)
    requires n <= |fields|
    ensures AllLines(fields[..n]) <= AllLines(fields)
    decreases |fields| - n
  {
    if n == |fields| {
      assert fields[..n] == fields;
    } else {
      AllLinesGrow(fields, n + 1);
      assert fields[..n + 1][..n] == fields[..n];
    }
  }

  predicate ScalarAt(fields: seq<(string, Json)>, i: nat) {
    i < |fields| && IsScalar(fields[i].1)
  }

  function IsScalarAt(fields: seq<(string, Json)>): nat -> bool {
    (i: nat) => ScalarAt(fields, i)
  }

  /** A field as a prompt line: forty characters of its key, and a hundred and twenty of its value. */
  predicate IsLineOf(line: string, key: string, shown: string) {
    line == (if |key| <= 40 then key else key[..40]) + ": " + (if |shown| <= 120 then shown else shown[..120])
  }

  function LineAt(field: (string, Json)): string {
    if IsScalar(field.1) then LineOf(field) else ""
  }

  lemma AllLinesStep(fields: seq<(string, Json)>, n: nat)
    requires n < |fields|
    ensures AllLines(fields[..n + 1])
         == if IsScalar(fields[n].1) then AllLines(fields[..n]) + [LineAt(fields[n])] else AllLines(fields[..n])
  {
    assert fields[..n + 1][..n] == fields[..n];
  }

  lemma {:induction false} AllLinesPositions(fields: seq<(string, Json)>, n: nat)
    requires n <= |fields|
    ensures MadeAt(AllLines(fields[..n]), fields, Numbers(n, IsScalarAt(fields)), LineAt)
  {
    if n > 0 {
      AllLinesPositions(fields, n - 1);
      AllLinesStep(fields, n - 1);
      OneMoreMade(AllLines(fields[..n - 1]), fields, Numbers(n - 1, IsScalarAt(fields)), LineAt, n - 1);
    }
  }

  /** The lines of a chart context, field by field: the fields in the order of their keys, the scalar ones
    * among them, a line for each of the first ten. */
  lemma LinesAreTheScalars(fields: seq<(string, Json)>) returns (at: seq<nat>)
    ensures Sorted(ByKey(fields)) && multiset(ByKey(fields)) == multiset(fields)
    ensures Those(at, |fields|, IsScalarAt(ByKey(fields)))
    ensures var lines := RuntimeLinesOf(Object(fields));
            && |lines| == (if |at| <= 10 then |at| else 10)
            && forall j :: 0 <= j < |lines| ==>
                 && at[j] < |ByKey(fields)| && IsScalar(ByKey(fields)[at[j]].1)
                 && IsLineOf(lines[j], ByKey(fields)[at[j]].0, Shown(ByKey(fields)[at[j]].1))
  {
    var all := ByKey(fields);
    ByKeyIsSorted(fields);
    assert |all| == |multiset(all)| == |multiset(fields)| == |fields|;
    at := Numbers(|fields|, IsScalarAt(all));
    NumbersAreThose(|fields|, IsScalarAt(all));
    AllLinesPositions(all, |all|);
    assert all[..|all|] == all;
    forall j | 0 <= j < |at| ensures IsScalar(all[at[j]].1) { assert at[j] in at && IsScalarAt(all)(at[j]); }
  }

  /** The scan stops at ten lines; what it built is the first ten of all of them. */
  method RuntimeLines(context: Json) returns (lines: seq<string>)
    ensures lines == RuntimeLinesOf(context)
  {
    lines := [];
    if !context.Object? { return; }
    var fields := ByKey(context.fields);
    var i := 0;
    while i < |fields|
      invariant i <= |fields| && lines == AllLines(fields[..i]) && |lines| < MAX_RUNTIME_LINES
    {
      assert fields[..i + 1][..i] == fields[..i];
      AllLinesGrow(fields, i + 1);
      var (key, value) := fields[i];
      i := i + 1;
      if !IsScalar(value) { continue; }
      lines := lines + [Cut(key, 40) + ": " + Cut(Shown(value), 120)];
      if |lines| >= MAX_RUNTIME_LINES { return; }
    }
    assert fields[..i] == fields;
  }

  // ---------------------------------------------------------------- the options of a request

  datatype Options = Options(effort: Option<string>, lines: seq<string>, webSearch: bool)

  const DEFAULTS := Options(None, [], true)

  /** The effort a request asks for. */
  datatype Effort = Effort(effort: Option<string>) | Refused

  /** What `strip().lower()` of the printed value is, where it can be an effort at all: no number,
    * boolean, list or object prints as one. */
  function Normal(value: Json): string {
    if value.Text? then Lower(Strip(value.text)) else ""
  }

  function EffortOf(raw: Json): Effort {
    if raw == Null || raw == Text("") then Effort(None)
    else if Normal(raw) in EFFORTS then Effort(Some(Normal(raw))) else Refused
  }

  predicate WebSearchOf(raw: Json) {
    match raw
    case Null => true
    case Text(text) => Lower(Strip(text)) !in OFF_WORDS
    case _ => Truthy(raw)
  }

  /** The values that switch the web search off; every other one, and none at all, leaves it on. */
  predicate SwitchedOff(raw: Json) {
    || raw == Bool(false) || (raw.Number? && raw.zero) || raw == List([]) || raw == Object([])
    || (raw.Text? && (var word := Lower(Strip(raw.text));
                      word == "false" || word == "0" || word == "off" || word == "no" || word == ""))
  }

  lemma SwitchOffIff(raw: Json)
    ensures !WebSearchOf(raw) <==> SwitchedOff(raw)
  {
  }

  /** Which efforts a request can ask for: none, or one of four words in any case and padding; anything else
    * is refused. */
  lemma EffortIff(raw: Json, word: string)
    ensures EffortOf(raw) == Effort(None) <==> raw == Null || raw == Text("")
    ensures EffortOf(raw) == Effort(Some(word))
       <==> raw.Text? && raw.text != "" && Lower(Strip(raw.text)) == word
            && (word == "off" || word == "low" || word == "medium" || word == "high")
    ensures EffortOf(raw).Refused?
       <==> raw != Null && raw != Text("")
            && !(raw.Text? && (var said := Lower(Strip(raw.text));
                               said == "off" || said == "low" || said == "medium" || said == "high"))
  {
    assert "" !in EFFORTS;
  }

  // ---------------------------------------------------------------- storing and recovering

  function TextItems(lines: seq<string>): seq<Json> {
    seq(|lines|, i requires 0 <= i < |lines| => Text(lines[i]))
  }

  function EffortField(o: Options): seq<(string, Json)> {
    if o.effort.Some? && o.effort.value != "" then [("reasoning_effort", Text(o.effort.value))] else []
  }

  function LinesField(o: Options): seq<(string, Json)> {
    if o.lines != [] then [("runtime_lines", List(TextItems(o.lines)))] else []
  }

  function WebField(o: Options): seq<(string, Json)> {
    if !o.webSearch then [("web_search", Bool(false))] else []
  }

  function OptionFields(o: Options): seq<(string, Json)> {
    EffortField(o) + LinesField(o) + WebField(o)
  }

  function Typed(o: Options): seq<(string, Json)> {
    [("type", Text(RUN_OPTIONS))] + OptionFields(o)
  }

  /** The notices stored on the user row: nothing, the options unless all are defaults, the attachments. */
  function RunOptionsNotice(o: Options, files: seq<Json>): Json {
    var entry := OptionFields(o);
    var notices := (if entry != [] then [Object(Typed(o))] else [])
                 + (if files != [] then [Object([("type", Text(ATTACHMENTS)), ("items", List(files))])] else []);
    if notices == [] then Null else List(notices)
  }

  predicate IsOptions(entry: Json) {
    entry.Object? && Get(entry, "type") == Text(RUN_OPTIONS)
  }

  /** The text items among the first ten, each cut to 200 characters. */
  function StoredLines(items: seq<Json>): seq<string> {
    if items == [] then []
    else
      var last := items[|items| - 1];
      StoredLines(items[..|items| - 1]) + if last.Text? then [Cut(last.text, MAX_STORED_LINE)] else []
  }

  function OptionsIn(entry: Json): Options {
    var effort := Normal(Get(entry, "reasoning_effort"));
    var raw := Get(entry, "runtime_lines");
    Options(if effort in EFFORTS then Some(effort) else None,
            if raw.List? then
              StoredLines(if |raw.items| <= MAX_RUNTIME_LINES then raw.items else raw.items[..MAX_RUNTIME_LINES])
            else [],
            Get(entry, "web_search") != Bool(false))
  }

  /** The options of the first options entry. */
  function FirstOptions(entries: seq<Json>): Options {
    if entries == [] then DEFAULTS
    else if IsOptions(entries[0]) then OptionsIn(entries[0]) else FirstOptions(entries[1..])
  }

  function RunOptionsIn(notices: Json): Options {
    if notices.List? then FirstOptions(notices.items) else DEFAULTS
  }

  method RunOptionsOf(notices: Json) returns (o: Options)
    ensures o == RunOptionsIn(notices)
  {
    if !notices.List? { return DEFAULTS; }
    var i := 0;
    while i < |notices.items|
      invariant i <= |notices.items|
      invariant FirstOptions(notices.items) == FirstOptions(notices.items[i..])
    {
      var entry := notices.items[i];
      if IsOptions(entry) { return OptionsIn(entry); }
      i := i + 1;
    }
    return DEFAULTS;
  }

  lemma {:induction false} FindAppend(a: seq<(string, Json)>, b: seq<(string, Json)>, key: string)
    requires forall i :: 0 <= i < |a| ==> a[i].0 != key
    ensures Find(a + b, key) == Find(b, key)
  {
    if a == [] { assert a + b == b; } else {
      assert (a + b)[1..] == a[1..] + b;
      FindAppend(a[1..], b, key);
    }
  }

  lemma {:induction false} StoredLinesRoundTrip(lines: seq<string>)
    requires Bounded(lines)
    ensures StoredLines(TextItems(lines)) == lines
  {
    if lines != [] {
      var n := |lines| - 1;
      assert TextItems(lines)[..n] == TextItems(lines[..n]);
      StoredLinesRoundTrip(lines[..n]);
      assert lines == lines[..n] + [lines[n]];
    }
  }

  lemma EffortIsNormal(effort: string)
    requires effort in EFFORTS
    ensures Normal(Text(effort)) == effort && effort != ""
  {
    assert effort == "off" || effort == "low" || effort == "medium" || effort == "high";
    assert Strip(effort) == effort;
    assert forall i :: 0 <= i < |effort| ==> LowerChar(effort[i]) == effort[i];
    assert Lower(effort) == effort;
  }

  predicate Valid(o: Options) {
    (o.effort.Some? ==> o.effort.value in EFFORTS) && Bounded(o.lines)
  }

  lemma FindOne(key: string, value: Json, other: string)
    ensures Find([(key, value)], other) == if key == other then value else Null
  {
    assert [(key, value)][1..] == [];
  }

  lemma EffortFound(o: Options)
    requires o.effort.Some? ==> o.effort.value != ""
    ensures Find(Typed(o), "reasoning_effort") == if o.effort.Some? then Text(o.effort.value) else Null
  {
    var later := LinesField(o) + WebField(o);
    assert Typed(o) == [("type", Text(RUN_OPTIONS))] + (EffortField(o) + later);
    FindAppend([("type", Text(RUN_OPTIONS))], EffortField(o) + later, "reasoning_effort");
    if o.effort.None? {
      assert EffortField(o) + later == later == later + [];
      FindAppend(later, [], "reasoning_effort");
    }
  }

  lemma LinesFound(o: Options)
    ensures Find(Typed(o), "runtime_lines") == if o.lines != [] then List(TextItems(o.lines)) else Null
  {
    var before := [("type", Text(RUN_OPTIONS))] + EffortField(o);
    assert Typed(o) == before + (LinesField(o) + WebField(o));
    FindAppend(before, LinesField(o) + WebField(o), "runtime_lines");
    if o.lines == [] {
      assert LinesField(o) + WebField(o) == WebField(o) == WebField(o) + [];
      FindAppend(WebField(o), [], "runtime_lines");
    }
  }

  lemma WebFound(o: Options)
    ensures Find(Typed(o), "web_search") == if o.webSearch then Null else Bool(false)
  {
    var before := [("type", Text(RUN_OPTIONS))] + EffortField(o) + LinesField(o);
    assert Typed(o) == before + WebField(o);
    FindAppend(before, WebField(o), "web_search");
    if !o.webSearch { FindOne("web_search", Bool(false), "web_search"); }
  }

  lemma AttachmentsAreNotOptions(files: seq<Json>)
    ensures !IsOptions(Object([("type", Text(ATTACHMENTS)), ("items", List(files))]))
  {
    assert ATTACHMENTS[0] != RUN_OPTIONS[0];
  }

  lemma EntryRoundTrip(o: Options)
    requires Valid(o)
    ensures OptionsIn(Object(Typed(o))) == o && IsOptions(Object(Typed(o)))
  {
    if o.effort.Some? { EffortIsNormal(o.effort.value); } else { assert "" !in EFFORTS; }
    EffortFound(o);
    LinesFound(o);
    WebFound(o);
    StoredLinesRoundTrip(o.lines);
    assert |TextItems(o.lines)| <= MAX_RUNTIME_LINES;
  }

  lemma NoFieldsMeansDefaults(o: Options)
    requires Valid(o)
    ensures OptionFields(o) == [] <==> o == DEFAULTS
  {
    if o.effort.Some? { EffortIsNormal(o.effort.value); }
  }

  /** Recovering inverts storing, whatever was attached: no effort, line or switch is lost or cut. */
  lemma OptionsRoundTrip(o: Options, files: seq<Json>)
    requires Valid(o)
    ensures RunOptionsIn(RunOptionsNotice(o, files)) == o
  {
    var attached := Object([("type", Text(ATTACHMENTS)), ("items", List(files))]);
    AttachmentsAreNotOptions(files);
    NoFieldsMeansDefaults(o);
    if o == DEFAULTS {
      assert RunOptionsNotice(o, files) == if files == [] then Null else List([attached]);
      assert FirstOptions([attached]) == FirstOptions([attached][1..]) == DEFAULTS;
    } else {
      EntryRoundTrip(o);
      assert RunOptionsNotice(o, files).items[0] == Object(Typed(o));
    }
  }

  /** Whatever is stored, what reaches the agent builder is a known effort and at most ten lines of at
    * most 200 characters. */
  lemma {:induction false} RecoveredIsValidated(notices: Json)
    ensures var o := RunOptionsIn(notices);
            && (o.effort.Some? ==> o.effort.value in EFFORTS)
            && |o.lines| <= 10 && forall i :: 0 <= i < |o.lines| ==> |o.lines[i]| <= 200
    decreases if notices.List? then |notices.items| else 0
  {
    if notices.List? && notices.items != [] {
      if IsOptions(notices.items[0]) {
        var raw := Get(notices.items[0], "runtime_lines");
        if raw.List? {
          StoredLinesAreShort(if |raw.items| <= MAX_RUNTIME_LINES then raw.items else raw.items[..MAX_RUNTIME_LINES]);
        }
      } else {
        RecoveredIsValidated(List(notices.items[1..]));
      }
    }
  }

  lemma {:induction false} StoredLinesAreShort(items: seq<Json>)
    ensures |StoredLines(items)| <= |items|
    ensures forall i :: 0 <= i < |StoredLines(items)| ==> |StoredLines(items)[i]| <= MAX_STORED_LINE
  {
    if items != [] { StoredLinesAreShort(items[..|items| - 1]); }
  }

  // ---------------------------------------------------------------- resuming

  /** A stored message: who said it, and the notices kept beside it. */
  datatype Message = Message(fromUser: bool, notices: Json)

  /** The notices of the most recent user message in a list, null when there is none. */
  function LastUser(messages: seq<Message>): Json {
    if messages == [] then Null
    else if messages[|messages| - 1].fromUser then messages[|messages| - 1].notices
    else LastUser(messages[..|messages| - 1])
  }

  /** The messages a read of the conversation gives: the newest 500, or none when the read fails. */
  function ReadBack(messages: seq<Message>, readFails: bool): seq<Message> {
    if readFails then []
    else if |messages| <= LISTED_MESSAGES then messages
    else messages[|messages| - LISTED_MESSAGES..]
  }

  method LastUserRow(messages: seq<Message>, readFails: bool) returns (notices: Json)
    ensures notices == LastUser(ReadBack(messages, readFails))
  {
    var rows := ReadBack(messages, readFails);
    var i := |rows|;
    assert rows[..i] == rows;
    while i > 0
      invariant 0 <= i <= |rows| && LastUser(rows) == LastUser(rows[..i])
    {
      i := i - 1;
      assert rows[..i + 1][..i] == rows[..i];
      if rows[i].fromUser { return rows[i].notices; }
    }
    return Null;
  }

  /** The options a resumed run is built with, from the stored turn and the body of the confirmation. */
  function Resumed(stored: Options, body: Json, effort: Option<string>): Options {
    var lines := RuntimeLinesOf(Get(body, "chart_context"));
    Options(if effort.Some? then effort else stored.effort,
            if lines != [] then lines else stored.lines,
            stored.webSearch && WebSearchOf(Get(body, "web_search")))
  }

  method ChatConfirm(messages: seq<Message>, readFails: bool, body: Json) returns (o: Option<Options>)
    ensures o == match EffortOf(Get(body, "reasoning_effort"))
                 case Refused => None
                 case Effort(effort) => Some(Resumed(OptionsFound(messages, readFails), body, effort))
  {
    var effort := EffortOf(Get(body, "reasoning_effort"));
    if effort.Refused? { return None; }
    var row := LastUserRow(messages, readFails);
    var stored := RunOptionsOf(row);
    var lines := RuntimeLines(Get(body, "chart_context"));
    return Some(Options(if effort.effort.Some? then effort.effort else stored.effort,
                        if lines != [] then lines else stored.lines,
                        stored.webSearch && WebSearchOf(Get(body, "web_search"))));
  }

  /** What a chat request asks for. */
  function Asked(body: Json): Options
    requires EffortOf(Get(body, "reasoning_effort")).Effort?
  {
    Options(EffortOf(Get(body, "reasoning_effort")).effort, RuntimeLinesOf(Get(body, "chart_context")),
            WebSearchOf(Get(body, "web_search")))
  }

  // ---- which row is read

  predicate NoUser(messages: seq<Message>) {
    forall i :: 0 <= i < |messages| ==> !messages[i].fromUser
  }

  /** Row `k` is the last one a person sent. */
  predicate LastFromUser(messages: seq<Message>, k: nat) {
    k < |messages| && messages[k].fromUser && forall j :: k < j < |messages| ==> !messages[j].fromUser
  }

  /** Row `k` is the one a resume reads: the last user row, among the newest 500, of a conversation that
    * can be read. */
  predicate RowRead(messages: seq<Message>, readFails: bool, k: nat) {
    !readFails && LastFromUser(messages, k) && |messages| - k <= 500
  }

  /** The options a resume finds. */
  function OptionsFound(messages: seq<Message>, readFails: bool): Options {
    RunOptionsIn(LastUser(ReadBack(messages, readFails)))
  }

  lemma {:induction false} LastUserIs(messages: seq<Message>, k: nat)
    requires LastFromUser(messages, k)
    ensures LastUser(messages) == messages[k].notices
  {
    var n := |messages| - 1;
    if k < n {
      LastUserIs(messages[..n], k);
    }
  }

  lemma {:induction false} NoUserNoRow(messages: seq<Message>)
    requires NoUser(messages)
    ensures LastUser(messages) == Null
  {
    if messages != [] { NoUserNoRow(messages[..|messages| - 1]); }
  }

  /** Where the last user row is, if there is one. */
  lemma {:induction false} LastUserExists(messages: seq<Message>) returns (k: nat)
    requires !NoUser(messages)
    ensures LastFromUser(messages, k)
  {
    var n := |messages| - 1;
    if messages[n].fromUser {
      k := n;
    } else {
      assert !NoUser(messages[..n]) by {
        var i :| 0 <= i < |messages| && messages[i].fromUser;
        assert messages[..n][i].fromUser;
      }
      k := LastUserExists(messages[..n]);
      assert forall j :: 0 <= j < n ==> messages[..n][j] == messages[j];
    }
  }

  /** Whichever turn is resumed: the options found are those of the row read, and the defaults when there
    * is none. */
  lemma OptionsAreOfTheRowRead(messages: seq<Message>, readFails: bool, k: nat)
    ensures RowRead(messages, readFails, k) ==> OptionsFound(messages, readFails) == RunOptionsIn(messages[k].notices)
    ensures (forall j: nat :: !RowRead(messages, readFails, j)) ==> OptionsFound(messages, readFails) == DEFAULTS
  {
    if RowRead(messages, readFails, k) {
      ReadRow(messages, k);
    }
    if !readFails {
      var rows := ReadBack(messages, false);
      if NoUser(rows) {
        NoUserNoRow(rows);
      } else {
        var j := LastUserExists(rows);
        ReadBackRow(messages, j);
      }
    }
  }

  /** The last user row of those read back is the row read. */
  lemma ReadBackRow(messages: seq<Message>, j: nat)
    requires LastFromUser(ReadBack(messages, false), j)
    ensures RowRead(messages, false, |messages| - |ReadBack(messages, false)| + j)
  {
    var rows := ReadBack(messages, false);
    var cut := |messages| - |rows|;
    assert forall i :: cut <= i < |messages| ==> messages[i] == rows[i - cut];
  }

  lemma ReadRow(messages: seq<Message>, k: nat)
    requires RowRead(messages, false, k)
    ensures LastUser(ReadBack(messages, false)) == messages[k].notices
  {
    var rows := ReadBack(messages, false);
    var cut := |messages| - |rows|;
    assert forall i :: 0 <= i < |rows| ==> rows[i] == messages[cut + i];
    LastUserIs(rows, k - cut);
  }

  // ---- the switch

  /** These notices hold the web-search switch off: their first options entry says so. */
  predicate HoldsOff(notices: Json) {
    notices.List? && exists i :: 0 <= i < |notices.items| && FirstEntry(notices.items, i)
                                 && Get(notices.items[i], "web_search") == Bool(false)
  }

  predicate FirstEntry(entries: seq<Json>, i: nat) {
    i < |entries| && IsOptions(entries[i]) && forall j :: 0 <= j < i ==> !IsOptions(entries[j])
  }

  lemma {:induction false} FirstEntryDecides(entries: seq<Json>, i: nat)
    requires FirstEntry(entries, i)
    ensures FirstOptions(entries) == OptionsIn(entries[i])
  {
    if i > 0 {
      assert forall j :: 0 <= j < i - 1 ==> entries[1..][j] == entries[j + 1];
      FirstEntryDecides(entries[1..], i - 1);
    }
  }

  lemma {:induction false} NoEntryMeansDefaults(entries: seq<Json>)
    requires forall j :: 0 <= j < |entries| ==> !IsOptions(entries[j])
    ensures FirstOptions(entries) == DEFAULTS
  {
    if entries != [] { NoEntryMeansDefaults(entries[1..]); }
  }

  lemma {:induction false} FirstEntryExists(entries: seq<Json>) returns (i: nat)
    requires exists j :: 0 <= j < |entries| && IsOptions(entries[j])
    ensures FirstEntry(entries, i)
  {
    if IsOptions(entries[0]) {
      i := 0;
    } else {
      var j :| 0 <= j < |entries| && IsOptions(entries[j]);
      assert entries[1..][j - 1] == entries[j];
      i := FirstEntryExists(entries[1..]);
      i := i + 1;
    }
  }

  lemma HoldsOffIff(notices: Json)
    ensures RunOptionsIn(notices).webSearch <==> !HoldsOff(notices)
  {
    if notices.List? {
      if exists j :: 0 <= j < |notices.items| && IsOptions(notices.items[j]) {
        var i := FirstEntryExists(notices.items);
        FirstEntryDecides(notices.items, i);
      } else {
        NoEntryMeansDefaults(notices.items);
      }
    }
  }

  /** Exactly when a resumed run may search the web, in any conversation: the confirmation does not
    * withhold it, and the row read, if any, does not hold the switch off -- whichever turn sent that row. */
  lemma ResumedSearchIff(messages: seq<Message>, readFails: bool, confirm: Json, effort: Option<string>)
    ensures Resumed(OptionsFound(messages, readFails), confirm, effort).webSearch
       <==> !SwitchedOff(Get(confirm, "web_search"))
            && forall k: nat :: RowRead(messages, readFails, k) ==> !HoldsOff(messages[k].notices)
  {
    SwitchOffIff(Get(confirm, "web_search"));
    if exists k: nat :: RowRead(messages, readFails, k) {
      var k: nat :| RowRead(messages, readFails, k);
      OptionsAreOfTheRowRead(messages, readFails, k);
      HoldsOffIff(messages[k].notices);
      forall j: nat | RowRead(messages, readFails, j) ensures j == k { OneRowRead(messages, readFails, j, k); }
    } else {
      OptionsAreOfTheRowRead(messages, readFails, 0);
    }
  }

  lemma OneRowRead(messages: seq<Message>, readFails: bool, j: nat, k: nat)
    requires RowRead(messages, readFails, j) && RowRead(messages, readFails, k)
    ensures j == k
  {
  }

  // ---- conversations of turns

  /** A chat request as it went into the conversation: its body and attachments, whether its row could be
    * stored, and the rows its run left. */
  datatype Sent = Sent(body: Json, files: seq<Json>, stored: bool, replies: seq<Message>)

  /** The route took the request, and what its run left is none of the person's. */
  predicate Taken(s: Sent) {
    EffortOf(Get(s.body, "reasoning_effort")).Effort? && NoUser(s.replies)
  }

  function OwnRow(s: Sent): seq<Message>
    requires Taken(s)
  {
    if s.stored then [Message(true, RunOptionsNotice(Asked(s.body), s.files))] else []
  }

  /** The conversation around one request: anything before its row, anything after it. */
  function Around(before: seq<Message>, s: Sent, later: seq<Message>): seq<Message>
    requires Taken(s)
  {
    before + OwnRow(s) + s.replies + later
  }

  /** A resume reads the request's own row exactly when that row was stored, nobody sent anything later,
    * and the conversation can be read back that far. */
  lemma OwnRowReadIff(before: seq<Message>, s: Sent, later: seq<Message>, readFails: bool)
    requires Taken(s)
    ensures s.stored && RowRead(Around(before, s, later), readFails, |before|)
       <==> s.stored && !readFails && NoUser(later) && |s.replies| + |later| < 500
  {
    if s.stored {
      var all, n := Around(before, s, later), |before| + 1 + |s.replies|;
      AroundAt(before, s, later);
      if LastFromUser(all, |before|) {
        forall i | 0 <= i < |later| ensures !later[i].fromUser { assert all[n + i] == later[i]; }
      }
    }
  }

  /** A stored request's row, its replies and what follows, by position. */
  lemma AroundAt(before: seq<Message>, s: Sent, later: seq<Message>)
    requires Taken(s) && s.stored
    ensures var all, n := Around(before, s, later), |before| + 1 + |s.replies|;
            && |all| == n + |later| && all[|before|] == Message(true, RunOptionsNotice(Asked(s.body), s.files))
            && (forall i :: |before| < i < n ==> all[i] == s.replies[i - |before| - 1])
            && (forall i :: n <= i < |all| ==> all[i] == later[i - n])
  {
  }

  /** The options found are those the request asked for exactly when the row read is its own or agrees with
    * it, or when no row is read and it asked for the defaults. */
  lemma OwnOptionsFoundIff(before: seq<Message>, s: Sent, later: seq<Message>, readFails: bool)
    requires Taken(s)
    ensures var all := Around(before, s, later);
            (OptionsFound(all, readFails) == Asked(s.body)
             <==> if exists k: nat :: RowRead(all, readFails, k)
                  then exists k: nat :: RowRead(all, readFails, k)
                         && ((s.stored && k == |before|) || RunOptionsIn(all[k].notices) == Asked(s.body))
                  else Asked(s.body) == DEFAULTS)
  {
    var all := Around(before, s, later);
    if exists k: nat :: RowRead(all, readFails, k) {
      var k: nat :| RowRead(all, readFails, k);
      OptionsAreOfTheRowRead(all, readFails, k);
      forall j: nat | RowRead(all, readFails, j) ensures j == k { OneRowRead(all, readFails, j, k); }
      if s.stored && k == |before| { OwnRowHoldsAsked(before, s, later); }
    } else {
      OptionsAreOfTheRowRead(all, readFails, 0);
    }
  }

  lemma OwnRowHoldsAsked(before: seq<Message>, s: Sent, later: seq<Message>)
    requires Taken(s) && s.stored
    ensures RunOptionsIn(Around(before, s, later)[|before|].notices) == Asked(s.body)
  {
    AroundAt(before, s, later);
    OptionsRoundTrip(Asked(s.body), s.files);
  }

  /** The row a request stores holds the switch off exactly when its body switches the search off. */
  lemma StoredSwitchIff(s: Sent)
    requires Taken(s) && s.stored
    ensures HoldsOff(OwnRow(s)[0].notices) <==> SwitchedOff(Get(s.body, "web_search"))
  {
    SwitchOffIff(Get(s.body, "web_search"));
    OptionsRoundTrip(Asked(s.body), s.files);
    HoldsOffIff(OwnRow(s)[0].notices);
  }

  /** A plain false, in the turn or in the confirmation: the run as it is first built may not search, the
    * switch is stored, and a resumed run may not search either. */
  lemma FalseIsOff(files: seq<Json>, confirm: Json, effort: Option<string>, found: Options)
    ensures var body := Object([("web_search", Bool(false))]);
            var turn := Sent(body, files, true, []);
            && Taken(turn) && !Asked(body).webSearch && HoldsOff(OwnRow(turn)[0].notices)
            && !Resumed(OptionsFound(Rows([turn]), false), confirm, effort).webSearch
            && !Resumed(found, body, effort).webSearch
  {
    var body := Object([("web_search", Bool(false))]);
    var turn := Sent(body, files, true, []);
    FindOne("web_search", Bool(false), "reasoning_effort");
    FindOne("web_search", Bool(false), "web_search");
    StoredSwitchIff(turn);
    RowsOfOne(turn);
    OwnRowReadIff([], turn, Rows([]), false);
    AroundAt([], turn, Rows([]));
    ResumedSearchIff(Rows([turn]), false, confirm, effort);
  }

  /** What a confirmation brings itself is preferred; the search alone needs both. */
  lemma ConfirmationIsPreferred(found: Options, body: Json, effort: Option<string>)
    ensures var o, lines := Resumed(found, body, effort), RuntimeLinesOf(Get(body, "chart_context"));
            && (effort.Some? ==> o.effort == effort) && (effort.None? ==> o.effort == found.effort)
            && (lines != [] ==> o.lines == lines) && (lines == [] ==> o.lines == found.lines)
            && (o.webSearch <==> found.webSearch && !SwitchedOff(Get(body, "web_search")))
  {
    SwitchOffIff(Get(body, "web_search"));
  }

  /** The rows of a run of requests. */
  function Rows(turns: seq<Sent>): seq<Message>
    requires forall i :: 0 <= i < |turns| ==> Taken(turns[i])
  {
    if turns == [] then []
    else Rows(turns[..|turns| - 1]) + (OwnRow(turns[|turns| - 1]) + turns[|turns| - 1].replies)
  }

  lemma {:induction false} UnstoredLeaveNoUser(turns: seq<Sent>)
    requires forall i :: 0 <= i < |turns| ==> Taken(turns[i]) && !turns[i].stored
    ensures NoUser(Rows(turns))
  {
    if turns != [] { UnstoredLeaveNoUser(turns[..|turns| - 1]); }
  }

  /** Whichever of its turns a conversation resumes, it finds the options of the last turn that could be
    * stored, or the defaults when that row cannot be read back. */
  lemma LastStoredTurnDecides(before: seq<Message>, turn: Sent, later: seq<Sent>, readFails: bool)
    requires Taken(turn) && turn.stored && forall i :: 0 <= i < |later| ==> Taken(later[i]) && !later[i].stored
    ensures OptionsFound(Around(before, turn, Rows(later)), readFails)
         == if !readFails && |turn.replies| + |Rows(later)| < 500 then Asked(turn.body) else DEFAULTS
  {
    var all := Around(before, turn, Rows(later));
    UnstoredLeaveNoUser(later);
    OwnRowReadIff(before, turn, Rows(later), readFails);
    OwnRowHoldsAsked(before, turn, Rows(later));
    if RowRead(all, readFails, |before|) {
      OptionsAreOfTheRowRead(all, readFails, |before|);
    } else {
      forall k: nat ensures !RowRead(all, readFails, k) {
        if RowRead(all, readFails, k) { OwnIsLast(before, turn, Rows(later), k); }
      }
      OptionsAreOfTheRowRead(all, readFails, 0);
    }
  }

  lemma OwnIsLast(before: seq<Message>, s: Sent, later: seq<Message>, k: nat)
    requires Taken(s) && s.stored && NoUser(later) && LastFromUser(Around(before, s, later), k)
    ensures k == |before|
  {
    AroundAt(before, s, later);
  }

  /** A confirmation that carries only decisions rebuilds the run with exactly the options found. */
  lemma BareConfirmKeepsOptions(found: Options, confirm: Json)
    requires Get(confirm, "chart_context") == Get(confirm, "web_search") == Null
    ensures Resumed(found, confirm, None) == found
  {
  }

  /** A run resumed by a bare confirmation is built as it was first built exactly when its turn's options
    * are the ones found. When its own row is read they are. */
  lemma ResumeRebuildsTheRunIff(before: seq<Message>, s: Sent, later: seq<Message>, readFails: bool, confirm: Json)
    requires Taken(s) && Get(confirm, "chart_context") == Get(confirm, "web_search") == Null
    ensures var all := Around(before, s, later);
            && (Resumed(OptionsFound(all, readFails), confirm, None) == Asked(s.body)
                <==> OptionsFound(all, readFails) == Asked(s.body))
            && (s.stored && !readFails && NoUser(later) && |s.replies| + |later| < 500 ==>
                  Resumed(OptionsFound(all, readFails), confirm, None) == Asked(s.body))
  {
    var all := Around(before, s, later);
    BareConfirmKeepsOptions(OptionsFound(all, readFails), confirm);
    OwnRowReadIff(before, s, later, readFails);
    if s.stored && RowRead(all, readFails, |before|) {
      OptionsAreOfTheRowRead(all, readFails, |before|);
      OwnRowHoldsAsked(before, s, later);
    }
  }

  // ---- runs that lift the switch

  lemma RowsOfOne(a: Sent)
    requires Taken(a)
    ensures Rows([a]) == OwnRow(a) + a.replies == Around([], a, Rows([]))
  {
    assert [a][..0] == [] && Rows([]) == [];
  }

  lemma RowsOfTwo(a: Sent, b: Sent)
    requires Taken(a) && Taken(b)
    ensures Rows([a, b]) == Around(Rows([a]), b, Rows([])) == Around([], a, Rows([b]))
  {
    RowsOfOne(a);
    RowsOfOne(b);
    RowsAppend([a], b);
    Regrouped(OwnRow(a), a.replies, OwnRow(b), b.replies);
  }

  lemma RowsAppend(turns: seq<Sent>, b: Sent)
    requires Taken(b) && forall i :: 0 <= i < |turns| ==> Taken(turns[i])
    ensures Rows(turns + [b]) == Rows(turns) + (OwnRow(b) + b.replies) && Rows([]) == []
  {
    assert (turns + [b])[..|turns|] == turns;
  }

  lemma Regrouped(a: seq<Message>, b: seq<Message>, c: seq<Message>, d: seq<Message>)
    ensures (a + b) + (c + d) == (a + b) + c + d + [] == [] + a + b + (c + d)
  {
  }

  /** Two turns, the first paused and sent with search off, the second sent with search on: resuming the
    * first may search, though every row was stored and read. */
  lemma LaterTurnLiftsTheSwitch(paused: Sent, next: Sent)
    requires Taken(paused) && paused.stored && SwitchedOff(Get(paused.body, "web_search"))
    requires Taken(next) && next.stored && !SwitchedOff(Get(next.body, "web_search"))
    requires |next.replies| < 500
    ensures Resumed(OptionsFound(Rows([paused, next]), false), Null, None).webSearch && !Asked(paused.body).webSearch
  {
    SwitchOffIff(Get(paused.body, "web_search"));
    SwitchOffIff(Get(next.body, "web_search"));
    RowsOfTwo(paused, next);
    LastStoredTurnDecides(Rows([paused]), next, [], false);
  }

  /** And so it may when the row of the paused turn could not be stored: the turn before it decides. */
  lemma LostRowLiftsTheSwitch(first: Sent, paused: Sent)
    requires Taken(first) && first.stored && !SwitchedOff(Get(first.body, "web_search"))
    requires Taken(paused) && !paused.stored && SwitchedOff(Get(paused.body, "web_search"))
    requires |first.replies| + |paused.replies| < 500
    ensures Resumed(OptionsFound(Rows([first, paused]), false), Null, None).webSearch && !Asked(paused.body).webSearch
  {
    SwitchOffIff(Get(first.body, "web_search"));
    SwitchOffIff(Get(paused.body, "web_search"));
    RowsOfTwo(first, paused);
    LastStoredTurnDecides([], first, [paused], false);
  }

  /** A failed read lifts it too. */
  lemma FailedReadLiftsTheSwitch(turn: Sent)
    requires Taken(turn) && turn.stored && SwitchedOff(Get(turn.body, "web_search"))
    requires |turn.replies| < 500
    ensures !Resumed(OptionsFound(Rows([turn]), false), Null, None).webSearch
    ensures Resumed(OptionsFound(Rows([turn]), true), Null, None).webSearch
  {
    SwitchOffIff(Get(turn.body, "web_search"));
    RowsOfOne(turn);
    LastStoredTurnDecides([], turn, [], false);
    LastStoredTurnDecides([], turn, [], true);
  }
}
