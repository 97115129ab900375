/** The approvals and rejections that resume a paused run in blueprints/agent.py: a mapping of call ids to
 * booleans, or a list of objects, read into one decision a call.
 */
module AgentDecisions {
  import opened Wrappers
  import opened Text
  import opened AgentRunOptions

  const MAX_NAME := 120

  /** One valid entry: the call, the verdict, the tool name if one is given. */
  datatype Decision = Decision(id: string, approved: bool, name: string)

  datatype Reading = Bad | Read(decisions: map<string, bool>, names: map<string, string>)

  /** `str(value or "").strip()`; `show` prints what is not text. */
  function Named(value: Json, show: Json -> string): string {
    if !Truthy(value) then "" else Strip(if value.Text? then value.text else show(value))
  }

  function FromField(field: (string, Json)): Option<Decision> {
    if Strip(field.0) == "" || !field.1.Bool? then None else Some(Decision(Strip(field.0), field.1.b, ""))
  }

  function FromItem(item: Json, show: Json -> string): Option<Decision> {
    if !item.Object? || Named(Get(item, "id"), show) == "" || !Get(item, "approved").Bool? then None
    else Some(Decision(Named(Get(item, "id"), show), Get(item, "approved").b,
                       Cut(Named(Get(item, "tool"), show), MAX_NAME)))
  }

  function FieldEntries(fields: seq<(string, Json)>): seq<Option<Decision>> {
    seq(|fields|, i requires 0 <= i < |fields| => FromField(fields[i]))
  }

  function ItemEntries(items: seq<Json>, show: Json -> string): seq<Option<Decision>> {
    seq(|items|, i requires 0 <= i < |items| => FromItem(items[i], show))
  }

  /** The entries of either shape, each valid or not; no entries at all for another shape. */
  function Entries(raw: Json, show: Json -> string): Option<seq<Option<Decision>>> {
    match raw
    case Object(fields) => Some(FieldEntries(fields))
    case List(items) => Some(ItemEntries(items, show))
    case _ => None
  }

  /** A field decides a call if it names one and is true or false. */
  lemma FieldIff(field: (string, Json), d: Decision)
    ensures FromField(field) == Some(d)
       <==> d.id != "" && d.id == Strip(field.0) && field.1 == Bool(d.approved) && d.name == ""
  {
  }

  /** An item decides a call if it is an object whose `id` names one and whose `approved` is true or false;
    * its `tool`, up to 120 characters, is the name. */
  lemma ItemIff(item: Json, show: Json -> string, d: Decision)
    ensures FromItem(item, show) == Some(d)
       <==> item.Object? && d.id != "" && d.id == Said(Find(item.fields, "id"), show)
            && Find(item.fields, "approved") == Bool(d.approved)
            && var name := Said(Find(item.fields, "tool"), show); d.name == if |name| <= 120 then name else name[..120]
  {
    if item.Object? {
      SaidIsNamed(Find(item.fields, "id"), show);
      SaidIsNamed(Find(item.fields, "tool"), show);
    }
  }

  /** What a field says: nothing where it is missing, false, zero or empty; else its text, or as it prints,
    * without white space round it. */
  function Said(value: Json, show: Json -> string): string {
    if value == Null || value == Bool(false) || (value.Number? && value.zero) then ""
    else if value == List([]) || value == Object([]) then ""
    else Strip(if value.Text? then value.text else show(value))
  }

  lemma SaidIsNamed(value: Json, show: Json -> string)
    ensures Said(value, show) == Named(value, show)
  {
    assert Strip("") == "";
  }

  function Add(r: Reading, d: Decision): Reading
    requires r.Read?
  {
    Read(r.decisions[d.id := d.approved], if d.name == "" then r.names else r.names[d.id := d.name])
  }

  /** Entry by entry; the first invalid one refuses them all. */
  function ReadAll(entries: seq<Option<Decision>>): Reading {
    if entries == [] then Read(map[], map[])
    else
      var before, last := ReadAll(entries[..|entries| - 1]), entries[|entries| - 1];
      if before.Bad? || last.None? then Bad else Add(before, last.value)
  }

  function ReadingOf(raw: Json, show: Json -> string): Reading {
    match Entries(raw, show)
    case None => Bad
    case Some(entries) => ReadAll(entries)
  }

  method ReadDecisions(raw: Json, show: Json -> string) returns (r: Reading)
    ensures r == ReadingOf(raw, show)
  {
    if raw.Object? {
      r := ReadFields(raw.fields);
    } else if raw.List? {
      r := ReadItems(raw.items, show);
    } else {
      r := Bad;
    }
  }

  method ReadFields(fields: seq<(string, Json)>) returns (r: Reading)
    ensures r == ReadAll(FieldEntries(fields))
  {
    var decisions: map<string, bool> := map[];
    ghost var all := FieldEntries(fields);
    for i := 0 to |fields|
      invariant ReadAll(all[..i]) == Read(decisions, map[])
    {
      ReadStep(all, i);
      var (key, value) := fields[i];
      var id := Strip(key);
      if id == "" || !value.Bool? {
        BadStays(all, i);
        return Bad;
      }
      decisions := decisions[id := value.b];
    }
    assert all[..|fields|] == all;
    return Read(decisions, map[]);
  }

  method ReadItems(items: seq<Json>, show: Json -> string) returns (r: Reading)
    ensures r == ReadAll(ItemEntries(items, show))
  {
    var decisions: map<string, bool>, names: map<string, string> := map[], map[];
    ghost var all := ItemEntries(items, show);
    for i := 0 to |items|
      invariant ReadAll(all[..i]) == Read(decisions, names)
    {
      ReadStep(all, i);
      var entry := FromItem(items[i], show);
      if entry.None? {
        BadStays(all, i);
        return Bad;
      }
      decisions := decisions[entry.value.id := entry.value.approved];
      if entry.value.name != "" { names := names[entry.value.id := entry.value.name]; }
    }
    assert all[..|items|] == all;
    return Read(decisions, names);
  }

  lemma ReadStep(entries: seq<Option<Decision>>, i: nat)
    requires i < |entries|
    ensures ReadAll(entries[..i + 1])
         == if ReadAll(entries[..i]).Bad? || entries[i].None? then Bad else Add(ReadAll(entries[..i]), entries[i].value)
  {
    assert entries[..i + 1][..i] == entries[..i];
  }

  lemma {:induction false} BadStays(entries: seq<Option<Decision>>, i: nat)
    requires i < |entries| && entries[i].None?
    ensures ReadAll(entries) == Bad
  {
    var n := |entries| - 1;
    if i < n { BadStays(entries[..n], i); }
  }

  /** A payload is refused exactly when it is of neither shape or one of its entries is invalid. */
  lemma {:induction false} RefusedIff(entries: seq<Option<Decision>>)
    ensures ReadAll(entries).Bad? <==> exists i :: 0 <= i < |entries| && entries[i].None?
  {
    if entries != [] {
      var n := |entries| - 1;
      RefusedIff(entries[..n]);
      if exists i :: 0 <= i < n && entries[..n][i].None? {
        var i :| 0 <= i < n && entries[..n][i].None?;
        assert entries[i].None?;
      }
      if i: int :| 0 <= i < |entries| && entries[i].None? {
        if i < n { assert entries[..n][i].None?; }
      }
    }
  }

  /** The last entry about a call. */
  function LastAbout(entries: seq<Option<Decision>>, id: string): Option<bool> {
    if entries == [] then None
    else
      var last := entries[|entries| - 1];
      if last.Some? && last.value.id == id then Some(last.value.approved) else LastAbout(entries[..|entries| - 1], id)
  }

  /** The last tool name given for a call, which need not stand in the entry that decides it. */
  function LastName(entries: seq<Option<Decision>>, id: string): Option<string> {
    if entries == [] then None
    else
      var last := entries[|entries| - 1];
      if last.Some? && last.value.id == id && last.value.name != "" then Some(last.value.name)
      else LastName(entries[..|entries| - 1], id)
  }

  /** A call is approved only if the last entry about it says so; a call no entry is about stays undecided. */
  lemma {:induction false} LastDecisionWins(entries: seq<Option<Decision>>, id: string)
    requires ReadAll(entries).Read?
    ensures var r := ReadAll(entries);
            && (id in r.decisions <==> LastAbout(entries, id).Some?)
            && (id in r.decisions ==> r.decisions[id] == LastAbout(entries, id).value)
            && (id in r.names <==> LastName(entries, id).Some?)
            && (id in r.names ==> r.names[id] == LastName(entries, id).value)
  {
    if entries != [] { LastDecisionWins(entries[..|entries| - 1], id); }
  }

  /** A mapping written as a list. */
  function AsList(fields: seq<(string, Json)>): Json {
    List(seq(|fields|, i requires 0 <= i < |fields| => Object([("id", Text(fields[i].0)), ("approved", fields[i].1)])))
  }

  lemma SameEntry(field: (string, Json), show: Json -> string)
    ensures FromItem(Object([("id", Text(field.0)), ("approved", field.1)]), show) == FromField(field)
  {
    var fields := [("id", Text(field.0)), ("approved", field.1)];
    assert fields[1..] == [("approved", field.1)];
    assert Find(fields, "approved") == Find(fields[1..], "approved") == field.1;
    assert Find(fields[1..][1..], "tool") == Null;
    assert Find(fields, "tool") == Find(fields[1..], "tool") == Null;
    assert Named(Text(field.0), show) == Strip(field.0) by { if field.0 == "" { assert Strip("") == ""; } }
    assert Cut("", MAX_NAME) == "";
  }

  /** Both shapes say the same: a mapping and the list of its entries are read alike. */
  lemma ShapesAgree(fields: seq<(string, Json)>, show: Json -> string)
    ensures ReadingOf(Object(fields), show) == ReadingOf(AsList(fields), show)
  {
    var a, b := Entries(Object(fields), show).value, Entries(AsList(fields), show).value;
    forall i | 0 <= i < |fields| ensures a[i] == b[i] { SameEntry(fields[i], show); }
    assert a == b;
  }
}
