/** Both `.env` editors on one file: what any sequence of their edits leaves readable, and the requests
 * that make them.
 */
module EnvEdits {
  import opened Wrappers
  import opened Lines
  import opened EnvText
  import opened EnvSubstitution
  import opened EnvLines

  // ---------------------------------------------------------------- the substitution on pieces

  /** The pieces with a line appended. */
  function Appended(pieces: seq<string>, line: string): seq<string>
    requires pieces != []
  {
    WithoutBlank(pieces) + [line, ""]
  }

  /** The pieces without the blank one after a final newline. */
  function WithoutBlank(pieces: seq<string>): (r: seq<string>)
    requires pieces != []
    ensures r != []
  {
    if |pieces| > 1 && pieces[|pieces| - 1] == "" then pieces[..|pieces| - 1] else pieces
  }

  /** The pieces after `update_env_value`. */
  function UpdatePieces(pieces: seq<string>, key: string, value: string): (r: seq<string>)
    requires pieces != []
    ensures r != []
  {
    if Count(pieces, key) > 0 then AllUpdated(pieces, key, Quoted(value)) else Appended(pieces, FreshLine(key, value))
  }

  lemma {:induction false} JoinedAppend(pieces: seq<string>, more: seq<string>)
    requires pieces != [] && more != []
    ensures Joined(pieces + more) == Joined(pieces) + "\n" + Joined(more)
  {
    if |pieces| == 1 {
      assert pieces == [pieces[0]];
      JoinedCons(pieces[0], more);
    } else {
      JoinedAppend(pieces[1..], more);
      assert pieces + more == [pieces[0]] + (pieces[1..] + more);
      JoinedCons(pieces[0], pieces[1..] + more);
      assert Joined(pieces) == pieces[0] + "\n" + Joined(pieces[1..]);
    }
  }

  lemma {:induction false} EndsInNewlineIff(pieces: seq<string>)
    requires pieces != [] && forall i :: 0 <= i < |pieces| ==> OneLine(pieces[i])
    ensures EndsInNewline(Joined(pieces)) <==> |pieces| > 1 && pieces[|pieces| - 1] == ""
  {
    var n := |pieces| - 1;
    if n > 0 {
      var last := pieces[n];
      assert pieces == pieces[..n] + [last];
      JoinedAppend(pieces[..n], [last]);
      var t := Joined(pieces[..n]) + "\n" + last;
      if last != "" { assert t[|t| - 1] == last[|last| - 1]; }
    } else if pieces[0] != "" {
      assert pieces[0][|pieces[0]| - 1] != '\n';
    }
  }

  lemma {:induction false} NoneUpdated(pieces: seq<string>, key: string, text: string)
    requires Count(pieces, key) == 0
    ensures AllUpdated(pieces, key, text) == pieces
  {
    if pieces != [] { NoneUpdated(pieces[1..], key, text); }
  }

  lemma TailText(line: string)
    ensures Joined([line, ""]) == line + "\n"
  {
    JoinedCons(line, [""]);
    assert [line] + [""] == [line, ""];
    assert line + "\n" + "" == line + "\n";
  }

  lemma JoinedBlank(kept: seq<string>)
    requires kept != []
    ensures Joined(kept + [""]) == Joined(kept) + "\n"
  {
    JoinedAppend(kept, [""]);
    assert Joined(kept) + "\n" + "" == Joined(kept) + "\n";
  }

  lemma WithoutBlankText(pieces: seq<string>)
    requires pieces != [] && (EndsInNewline(Joined(pieces)) <==> WithoutBlank(pieces) != pieces)
    ensures Joined(WithoutBlank(pieces)) + "\n" == Terminated(Joined(pieces))
  {
    if WithoutBlank(pieces) != pieces {
      assert pieces == WithoutBlank(pieces) + [""];
      JoinedBlank(WithoutBlank(pieces));
    }
  }

  lemma AppendedText(pieces: seq<string>, line: string)
    requires pieces != [] && forall i :: 0 <= i < |pieces| ==> OneLine(pieces[i])
    ensures Joined(Appended(pieces, line)) == Terminated(Joined(pieces)) + (line + "\n")
  {
    EndsInNewlineIff(pieces);
    WithoutBlankText(pieces);
    JoinedAppend(WithoutBlank(pieces), [line, ""]);
    TailText(line);
  }

  /** Without bare names, with something to the right of the key, updating the text is updating the pieces. */
  lemma UpdateIsUpdatePieces(pieces: seq<string>, key: string, value: string, expand: string -> Option<string>)
    requires pieces != [] && IsName(key) && AllLoose(pieces) && NoBlankValue(pieces, key)
    requires PlainValue(value) && ExpandsTemplates(expand)
    ensures UpdateEnvValue(Joined(pieces), key, value, expand) == Some(Joined(UpdatePieces(pieces, key, value)))
  {
    var text := Quoted(value);
    assert Replacement(value) == text && '\\' !in text;
    SubstitutedIsLinewise(pieces, key, text);
    if Count(pieces, key) == 0 {
      NoneUpdated(pieces, key, text);
      AppendedText(pieces, FreshLine(key, value));
    }
  }

  // ---------------------------------------------------------------- a tidy file

  /** A line of a tidy file: plain, without odd line breaks, with a value if it is an assignment. */
  predicate TidyLine(line: string) {
    PlainLine(line) && IsClean(line) && !HasBlankValue(line)
  }

  /** Tidy lines, at most one of them for each key. */
  ghost predicate Tidy(pieces: seq<string>) {
    && pieces != []
    && TidyLines(pieces)
    && (forall key :: Readers(pieces, key) <= 1)
  }

  predicate TidyLines(pieces: seq<string>) {
    forall i :: 0 <= i < |pieces| ==> TidyLine(pieces[i])
  }

  predicate AllPlain(pieces: seq<string>) {
    forall i :: 0 <= i < |pieces| ==> PlainLine(pieces[i])
  }

  lemma PlainReads(line: string, key: string)
    requires PlainLine(line)
    ensures ReadsKey(line, key) <==> AssignsKey(line, key)
  {
    if Assigns(line) {
      AssignmentIsUnindented(line);
    } else {
      assert !Assigns(Unindented(line)) by {
        if Unindented(line) == "" { NothingAssignsNothing(); } else { assert NameLen(Unindented(line)) == 0; }
      }
    }
  }

  lemma CleanRewritten(line: string, value: string)
    requires Assigns(line) && IsClean(line) && PlainValue(value)
    ensures IsClean(Rewritten(line, Quoted(value)))
  {
    var after := Rewritten(line, Quoted(value));
    var v := ValueAt(line);
    forall i | 0 <= i < |after| ensures !IsBreak(after[i]) {
      if i < v { assert after[i] == line[i]; } else { assert after[i] == Quoted(value)[i - v]; }
    }
  }

  lemma UpdatedIsTidy(line: string, key: string, value: string)
    requires TidyLine(line) && PlainValue(value)
    ensures TidyLine(Updated(line, key, Quoted(value)))
  {
    if AssignsKey(line, key) {
      RewrittenLine(line, value);
      CleanRewritten(line, value);
      CleanIsOneLine(Rewritten(line, Quoted(value)));
    }
  }

  lemma CleanIsOneLine(line: string)
    requires IsClean(line)
    ensures OneLine(line)
  {
    assert IsBreak('\n');
  }

  lemma FreshIsClean(key: string, value: string)
    requires IsName(key) && PlainValue(value)
    ensures IsClean(FreshLine(key, value))
  {
    var line := FreshLine(key, value);
    assert line == key + " = '" + value + "'";
    forall i | 0 <= i < |line| ensures !IsBreak(line[i]) {
      if i < |key| { assert line[i] == key[i]; }
      else if i < |key| + 4 { assert line[i] == " = '"[i - |key|]; }
      else if i < |key| + 4 + |value| { assert line[i] == value[i - |key| - 4]; }
    }
  }

  lemma FreshIsTidy(key: string, value: string)
    requires IsName(key) && PlainValue(value)
    ensures TidyLine(FreshLine(key, value))
  {
    FreshLineAssigns(key, value);
    FreshIsClean(key, value);
    CleanIsOneLine(FreshLine(key, value));
  }

  lemma BlankIsTidy()
    ensures TidyLine("")
  {
    assert Unindented("") == "";
    NothingAssignsNothing();
  }

  lemma AllUpdatedIsTidy(pieces: seq<string>, key: string, value: string)
    requires TidyLines(pieces) && PlainValue(value)
    ensures TidyLines(AllUpdated(pieces, key, Quoted(value)))
  {
    var after := AllUpdated(pieces, key, Quoted(value));
    forall i | 0 <= i < |after| ensures TidyLine(after[i]) {
      UpdatedAt(pieces, i, key, Quoted(value));
      UpdatedIsTidy(pieces[i], key, value);
    }
  }

  lemma {:induction false} UpdatedAt(pieces: seq<string>, i: nat, key: string, text: string)
    requires i < |AllUpdated(pieces, key, text)|
    ensures i < |pieces| && AllUpdated(pieces, key, text)[i] == Updated(pieces[i], key, text)
  {
    if i > 0 { UpdatedAt(pieces[1..], i - 1, key, text); }
  }

  lemma {:induction false} SetKeeps(pieces: seq<string>, key: string, value: string, p: string -> bool)
    requires pieces != [] && (forall i :: 0 <= i < |pieces| ==> p(pieces[i])) && p(FreshLine(key, value)) && p("")
    ensures forall i :: 0 <= i < |SetPieces(pieces, key, value)| ==> p(SetPieces(pieces, key, value)[i])
  {
    if |pieces| > 1 && !ReadsKey(pieces[0], key) { SetKeeps(pieces[1..], key, value, p); }
  }

  lemma SetIsTidy(pieces: seq<string>, key: string, value: string)
    requires pieces != [] && TidyLines(pieces) && IsName(key) && PlainValue(value)
    ensures TidyLines(SetPieces(pieces, key, value))
  {
    FreshIsTidy(key, value);
    BlankIsTidy();
    SetKeeps(pieces, key, value, TidyLine);
  }

  // ---- how many lines set a key

  lemma {:induction false} ReadersAppend(a: seq<string>, b: seq<string>, key: string)
    ensures Readers(a + b, key) == Readers(a, key) + Readers(b, key)
  {
    if a == [] { assert a + b == b; } else {
      assert (a + b)[1..] == a[1..] + b;
      ReadersAppend(a[1..], b, key);
    }
  }

  lemma ReadersCons(line: string, lines: seq<string>, key: string)
    ensures Readers([line] + lines, key) == (if ReadsKey(line, key) then 1 else 0) + Readers(lines, key)
  {
    assert ([line] + lines)[1..] == lines;
  }

  lemma FreshReaders(key: string, value: string, lines: seq<string>, other: string)
    requires IsName(key)
    ensures Readers([FreshLine(key, value)] + lines, other) == (if other == key then 1 else 0) + Readers(lines, other)
    ensures Readers([""], other) == 0
  {
    FreshLineAssigns(key, value);
    ReadersCons(FreshLine(key, value), lines, other);
    NothingAssignsNothing();
    assert Readers([""][1..], other) == 0;
  }

  lemma SetOnlyReaders(line: string, key: string, value: string, other: string)
    requires IsName(key)
    ensures Readers(SetPieces([line], key, value), other)
         == if other == key && !ReadsKey(line, key) then 1 else Readers([line], other)
  {
    var tail := [FreshLine(key, value), ""];
    FreshReaders(key, value, [""], other);
    assert [FreshLine(key, value)] + [""] == tail;
    ReadersCons(line, [], other);
    assert [line] + [] == [line];
    if ReadsKey(line, key) {
    } else if line == "" {
    } else {
      ReadersCons(line, tail, other);
      assert [line] + tail == [line, FreshLine(key, value), ""];
    }
  }

  lemma {:induction false} SetReaders(pieces: seq<string>, key: string, value: string, other: string)
    requires pieces != [] && IsName(key)
    ensures Readers(SetPieces(pieces, key, value), other)
         == if other == key && Readers(pieces, key) == 0 then 1 else Readers(pieces, other)
  {
    var line, rest := pieces[0], pieces[1..];
    if |pieces| == 1 {
      assert pieces == [line];
      SetOnlyReaders(line, key, value, other);
    } else if ReadsKey(line, key) {
      FreshReaders(key, value, rest, other);
    } else {
      SetReaders(rest, key, value, other);
      assert SetPieces(pieces, key, value) == [line] + SetPieces(rest, key, value);
      ReadersCons(line, SetPieces(rest, key, value), other);
    }
  }

  lemma UpdatedReads(line: string, key: string, value: string)
    requires PlainLine(line)
    ensures Reading(Updated(line, key, Quoted(value)))
         == if ReadsKey(line, key) then Some((key, value)) else Reading(line)
  {
    PlainReads(line, key);
    if AssignsKey(line, key) { RewrittenLine(line, value); }
  }

  lemma {:induction false} CountIsReaders(pieces: seq<string>, key: string)
    requires AllPlain(pieces)
    ensures Count(pieces, key) == Readers(pieces, key)
  {
    if pieces != [] {
      PlainReads(pieces[0], key);
      CountIsReaders(pieces[1..], key);
    }
  }

  lemma {:induction false} AllUpdatedReaders(pieces: seq<string>, key: string, value: string, other: string)
    requires AllPlain(pieces)
    ensures Readers(AllUpdated(pieces, key, Quoted(value)), other) == Readers(pieces, other)
  {
    if pieces != [] {
      UpdatedReads(pieces[0], key, value);
      AllUpdatedReaders(pieces[1..], key, value, other);
      ReadersCons(Updated(pieces[0], key, Quoted(value)), AllUpdated(pieces[1..], key, Quoted(value)), other);
    }
  }

  /** A setting given again where it was given. */
  function Reset(m: map<string, string>, key: string, value: string): map<string, string> {
    if key in m then m[key := value] else m
  }

  lemma SaidReset(r: Option<(string, string)>, key: string, value: string, below: map<string, string>)
    ensures Said(if r.Some? && r.value.0 == key then Some((key, value)) else r, Reset(below, key, value))
         == Reset(Said(r, below), key, value)
  {
  }

  lemma AboveReset(line: string, after: string, key: string, value: string, below: map<string, string>)
    requires Reading(after) == if ReadsKey(line, key) then Some((key, value)) else Reading(line)
    ensures Above(after, Reset(below, key, value)) == Reset(Above(line, below), key, value)
  {
    SaidReset(Reading(line), key, value, below);
  }

  lemma {:induction false} AllUpdatedReads(pieces: seq<string>, key: string, value: string)
    requires AllPlain(pieces)
    ensures ReadPieces(AllUpdated(pieces, key, Quoted(value))) == Reset(ReadPieces(pieces), key, value)
  {
    if pieces != [] {
      var after := Updated(pieces[0], key, Quoted(value));
      UpdatedReads(pieces[0], key, value);
      AllUpdatedReads(pieces[1..], key, value);
      ReadCons(after, AllUpdated(pieces[1..], key, Quoted(value)));
      AboveReset(pieces[0], after, key, value, ReadPieces(pieces[1..]));
    }
  }

  lemma EndReads(line: string)
    ensures ReadPieces([line, ""]) == Said(Reading(line), map[])
  {
    BlankReadsNothing();
    ReadCons(line, [""]);
    assert [line, ""] == [line] + [""];
  }

  /** A blank last piece says nothing. */
  lemma {:induction false} DropBlank(pieces: seq<string>, key: string)
    ensures ReadPieces(pieces + [""]) == ReadPieces(pieces) && Readers(pieces + [""], key) == Readers(pieces, key)
  {
    NothingAssignsNothing();
    if pieces == [] {
      BlankReadsNothing();
      assert [] + [""] == [""];
    } else {
      assert (pieces + [""])[1..] == pieces[1..] + [""];
      DropBlank(pieces[1..], key);
    }
  }

  lemma WithoutBlankReads(pieces: seq<string>, key: string)
    requires pieces != []
    ensures ReadPieces(WithoutBlank(pieces)) == ReadPieces(pieces)
    ensures Readers(WithoutBlank(pieces), key) == Readers(pieces, key)
  {
    if WithoutBlank(pieces) != pieces {
      DropBlank(WithoutBlank(pieces), key);
      assert pieces == WithoutBlank(pieces) + [""];
    }
  }

  lemma AppendedKeeps(pieces: seq<string>, line: string, p: string -> bool)
    requires pieces != [] && (forall i :: 0 <= i < |pieces| ==> p(pieces[i])) && p(line) && p("")
    ensures forall i :: 0 <= i < |Appended(pieces, line)| ==> p(Appended(pieces, line)[i])
  {
    var kept := WithoutBlank(pieces);
    assert forall i :: 0 <= i < |kept| ==> kept[i] == pieces[i];
  }

  lemma AppendedTidyLines(pieces: seq<string>, line: string)
    requires pieces != [] && TidyLines(pieces) && TidyLine(line)
    ensures TidyLines(Appended(pieces, line))
  {
    BlankIsTidy();
    AppendedKeeps(pieces, line, TidyLine);
  }

  lemma AppendedReaders(pieces: seq<string>, key: string, value: string, other: string)
    requires pieces != [] && IsName(key)
    ensures Readers(Appended(pieces, FreshLine(key, value)), other)
         == Readers(pieces, other) + if other == key then 1 else 0
  {
    var tail := [FreshLine(key, value), ""];
    ReadersAppend(WithoutBlank(pieces), tail, other);
    FreshReaders(key, value, [""], other);
    assert [FreshLine(key, value)] + [""] == tail;
    WithoutBlankReads(pieces, other);
  }

  /** Appending a line for a key sets it, whatever was read for it before. */
  lemma AppendedReads(pieces: seq<string>, key: string, value: string)
    requires pieces != [] && IsName(key)
    ensures ReadPieces(Appended(pieces, FreshLine(key, value))) == ReadPieces(pieces)[key := value]
  {
    var line := FreshLine(key, value);
    FreshLineAssigns(key, value);
    EndReads(line);
    ReadByAppend(WithoutBlank(pieces), [line, ""], key, value, Reading);
    WithoutBlankReads(pieces, key);
  }

  lemma AppendedIsTidy(pieces: seq<string>, key: string, value: string)
    requires Tidy(pieces) && Readers(pieces, key) == 0 && IsName(key) && PlainValue(value)
    ensures Tidy(Appended(pieces, FreshLine(key, value)))
    ensures ReadPieces(Appended(pieces, FreshLine(key, value))) == ReadPieces(pieces)[key := value]
  {
    var line := FreshLine(key, value);
    FreshIsTidy(key, value);
    AppendedTidyLines(pieces, line);
    AppendedReads(pieces, key, value);
    forall other ensures Readers(Appended(pieces, line), other) <= 1 {
      AppendedReaders(pieces, key, value, other);
    }
  }

  // ---------------------------------------------------------------- runs of edits

  datatype Editor = Settings | Credentials

  datatype Edit = Edit(editor: Editor, key: string, value: string)

  function EditText(t: string, e: Edit, expand: string -> Option<string>): Option<string> {
    match e.editor
    case Settings => Some(SetInText(t, e.key, e.value))
    case Credentials => UpdateEnvValue(t, e.key, e.value, expand)
  }

  function EditAll(t: string, edits: seq<Edit>, expand: string -> Option<string>): Option<string>
    decreases |edits|
  {
    if edits == [] then Some(t)
    else match EditText(t, edits[0], expand)
      case None => None
      case Some(after) => EditAll(after, edits[1..], expand)
  }

  /** The settings after a run of edits, whoever makes them. */
  function Applied(m: map<string, string>, edits: seq<Edit>): map<string, string>
    decreases |edits|
  {
    if edits == [] then m else Applied(m[edits[0].key := edits[0].value], edits[1..])
  }

  predicate PlainEdit(e: Edit) {
    IsName(e.key) && PlainValue(e.value)
  }

  lemma TidyPieces(pieces: seq<string>)
    requires Tidy(pieces)
    ensures AllPlain(pieces) && AllLoose(pieces) && AllClean(pieces)
    ensures forall i :: 0 <= i < |pieces| ==> OneLine(pieces[i])
    ensures forall key :: NoBlankValue(pieces, key)
  {
    forall i | 0 <= i < |pieces| ensures TidyLine(pieces[i]) && LooseLine(pieces[i]) { PlainIsLoose(pieces[i]); }
  }

  lemma SettingsEdit(pieces: seq<string>, key: string, value: string)
    requires Tidy(pieces) && IsName(key) && PlainValue(value)
    ensures var after := SetPieces(pieces, key, value);
            && Tidy(after) && SetInText(Joined(pieces), key, value) == Joined(after)
            && ReadPieces(after) == ReadPieces(pieces)[key := value]
  {
    TidyPieces(pieces);
    SetInTextIsSetPieces(pieces, key, value);
    SetIsTidy(pieces, key, value);
    SetPiecesReads(pieces, key, value);
    forall other ensures Readers(SetPieces(pieces, key, value), other) <= 1 { SetReaders(pieces, key, value, other); }
  }

  lemma CredentialsEdit(pieces: seq<string>, key: string, value: string, expand: string -> Option<string>)
    requires Tidy(pieces) && IsName(key) && PlainValue(value) && ExpandsTemplates(expand)
    ensures var after := UpdatePieces(pieces, key, value);
            && Tidy(after) && UpdateEnvValue(Joined(pieces), key, value, expand) == Some(Joined(after))
            && ReadPieces(after) == ReadPieces(pieces)[key := value]
  {
    TidyPieces(pieces);
    CountIsReaders(pieces, key);
    ReadIffReader(pieces, key);
    assert NoBlankValue(pieces, key);
    UpdateIsUpdatePieces(pieces, key, value, expand);
    if Count(pieces, key) > 0 {
      AllUpdatedIsTidy(pieces, key, value);
      AllUpdatedReads(pieces, key, value);
      forall other ensures Readers(AllUpdated(pieces, key, Quoted(value)), other) <= 1 {
        AllUpdatedReaders(pieces, key, value, other);
      }
    } else {
      AppendedIsTidy(pieces, key, value);
    }
  }

  /** The pieces after an edit by either page. */
  function EditPieces(pieces: seq<string>, e: Edit): (r: seq<string>)
    requires pieces != []
    ensures r != []
  {
    match e.editor
    case Settings => SetPieces(pieces, e.key, e.value)
    case Credentials => UpdatePieces(pieces, e.key, e.value)
  }

  lemma EditKeepsTidy(pieces: seq<string>, e: Edit, expand: string -> Option<string>)
    requires Tidy(pieces) && PlainEdit(e) && ExpandsTemplates(expand)
    ensures var after := EditPieces(pieces, e);
            && Tidy(after) && EditText(Joined(pieces), e, expand) == Some(Joined(after))
            && ReadPieces(after) == ReadPieces(pieces)[e.key := e.value]
  {
    match e.editor {
      case Settings => SettingsEdit(pieces, e.key, e.value);
      case Credentials => CredentialsEdit(pieces, e.key, e.value, expand);
    }
  }

  /** On a tidy file, after any sequence of plain edits by either page, every edited key reads as the last
    * value set for it, every other key reads as before, and the file is still tidy. */
  lemma {:induction false} EditsAreRead(t: string, edits: seq<Edit>, expand: string -> Option<string>)
    requires Tidy(Pieces(t)) && ExpandsTemplates(expand)
    requires forall i :: 0 <= i < |edits| ==> PlainEdit(edits[i])
    ensures var after := EditAll(t, edits, expand);
            after.Some? && Tidy(Pieces(after.value)) && ReadEnv(after.value) == Applied(ReadEnv(t), edits)
    decreases |edits|
  {
    if edits != [] {
      var after := EditPieces(Pieces(t), edits[0]);
      EditKeepsTidy(Pieces(t), edits[0], expand);
      TidyPieces(after);
      PiecesOfJoined(after);
      EditsAreRead(Joined(after), edits[1..], expand);
    }
  }

  /** The same keys and values, whichever page sets them. */
  predicate SameSettings(a: seq<Edit>, b: seq<Edit>) {
    |a| == |b| && forall i :: 0 <= i < |a| ==> a[i].key == b[i].key && a[i].value == b[i].value
  }

  lemma {:induction false} AppliedIgnoresEditor(m: map<string, string>, a: seq<Edit>, b: seq<Edit>)
    requires SameSettings(a, b)
    ensures Applied(m, a) == Applied(m, b)
    decreases |a|
  {
    if a != [] {
      assert forall i :: 0 <= i < |a| - 1 ==> a[1..][i] == a[i + 1] && b[1..][i] == b[i + 1];
      AppliedIgnoresEditor(m[a[0].key := a[0].value], a[1..], b[1..]);
    }
  }

  /** The two editors are interchangeable, edit by edit. */
  lemma EditorsAgree(pieces: seq<string>, a: seq<Edit>, b: seq<Edit>, expand: string -> Option<string>)
    requires Tidy(pieces) && ExpandsTemplates(expand) && SameSettings(a, b)
    requires forall i :: 0 <= i < |a| ==> PlainEdit(a[i])
    ensures var t := Joined(pieces);
            && EditAll(t, a, expand).Some? && EditAll(t, b, expand).Some?
            && ReadEnv(EditAll(t, a, expand).value) == ReadEnv(EditAll(t, b, expand).value)
  {
    var t := Joined(pieces);
    TidyPieces(pieces);
    PiecesOfJoined(pieces);
    EditsAreRead(t, a, expand);
    assert forall i :: 0 <= i < |b| ==> PlainEdit(a[i]) && b[i].key == a[i].key && b[i].value == a[i].value;
    EditsAreRead(t, b, expand);
    AppliedIgnoresEditor(ReadEnv(t), a, b);
  }

  // ---- repeating an edit

  lemma SetHit(pieces: seq<string>, key: string, value: string)
    requires |pieces| > 1 && ReadsKey(pieces[0], key)
    ensures SetPieces(pieces, key, value) == [FreshLine(key, value)] + pieces[1..]
  {
  }

  lemma SetMiss(line: string, rest: seq<string>, key: string, value: string)
    requires rest != [] && !ReadsKey(line, key)
    ensures SetPieces([line] + rest, key, value) == [line] + SetPieces(rest, key, value)
  {
    assert ([line] + rest)[1..] == rest;
  }

  lemma SetHitTwice(rest: seq<string>, key: string, value: string)
    requires rest != [] && ReadsKey(FreshLine(key, value), key)
    ensures SetPieces([FreshLine(key, value)] + rest, key, value) == [FreshLine(key, value)] + rest
  {
    var all := [FreshLine(key, value)] + rest;
    SetHit(all, key, value);
    assert all[1..] == rest;
  }

  lemma {:induction false} SetTwice(pieces: seq<string>, key: string, value: string)
    requires pieces != [] && IsName(key)
    ensures SetPieces(SetPieces(pieces, key, value), key, value) == SetPieces(pieces, key, value)
  {
    var line, f := pieces[0], FreshLine(key, value);
    assert ReadsKey(f, key) by { FreshLineAssigns(key, value); }
    SetHitTwice([""], key, value);
    assert [f] + [""] == [f, ""];
    if ReadsKey(line, key) {
      if |pieces| > 1 { SetHitTwice(pieces[1..], key, value); }
    } else if |pieces| > 1 {
      SetTwice(pieces[1..], key, value);
      SetMiss(line, SetPieces(pieces[1..], key, value), key, value);
    } else if line != "" {
      SetMiss(line, [f, ""], key, value);
      assert [line] + [f, ""] == [line, f, ""];
    }
  }

  lemma UpdatedTwice(line: string, key: string, value: string)
    ensures var after := Updated(line, key, Quoted(value));
            Updated(after, key, Quoted(value)) == after && Hits(after, key) == Hits(line, key)
  {
    if AssignsKey(line, key) { RewrittenLine(line, value); }
  }

  lemma {:induction false} AllUpdatedTwice(pieces: seq<string>, key: string, value: string)
    ensures AllUpdated(AllUpdated(pieces, key, Quoted(value)), key, Quoted(value))
         == AllUpdated(pieces, key, Quoted(value))
    ensures Count(AllUpdated(pieces, key, Quoted(value)), key) == Count(pieces, key)
  {
    if pieces != [] {
      var line, rest := Updated(pieces[0], key, Quoted(value)), AllUpdated(pieces[1..], key, Quoted(value));
      AllUpdatedTwice(pieces[1..], key, value);
      UpdatedTwice(pieces[0], key, value);
      assert ([line] + rest)[1..] == rest;
    }
  }

  lemma AllUpdatedCons(line: string, rest: seq<string>, key: string, text: string)
    ensures AllUpdated([line] + rest, key, text) == [Updated(line, key, text)] + AllUpdated(rest, key, text)
    ensures Count([line] + rest, key) == Hits(line, key) + Count(rest, key)
  {
    assert ([line] + rest)[1..] == rest;
  }

  lemma UpdateFresh(key: string, value: string)
    requires IsName(key)
    ensures AllUpdated([FreshLine(key, value)] + [""], key, Quoted(value)) == [FreshLine(key, value)] + [""]
    ensures Count([FreshLine(key, value)] + [""], key) == 1
  {
    var line := FreshLine(key, value);
    FreshLineAssigns(key, value);
    NothingAssignsNothing();
    assert Rewritten(line, Quoted(value)) == line;
    AllUpdatedCons(line, [""], key, Quoted(value));
    AllUpdatedCons("", [], key, Quoted(value));
    assert [""] + [] == [""];
  }

  lemma {:induction false} UpdateAppended(pieces: seq<string>, key: string, value: string)
    requires IsName(key) && Count(pieces, key) == 0
    ensures var all := pieces + [FreshLine(key, value), ""];
            AllUpdated(all, key, Quoted(value)) == all && Count(all, key) == 1
  {
    var tail := [FreshLine(key, value), ""];
    if pieces == [] {
      UpdateFresh(key, value);
      assert pieces + tail == [FreshLine(key, value)] + [""];
    } else {
      assert pieces + tail == [pieces[0]] + (pieces[1..] + tail);
      AllUpdatedCons(pieces[0], pieces[1..] + tail, key, Quoted(value));
      UpdateAppended(pieces[1..], key, value);
    }
  }

  lemma UpdateTwice(pieces: seq<string>, key: string, value: string)
    requires pieces != [] && IsName(key)
    ensures UpdatePieces(UpdatePieces(pieces, key, value), key, value) == UpdatePieces(pieces, key, value)
  {
    if Count(pieces, key) > 0 {
      AllUpdatedTwice(pieces, key, value);
    } else {
      if WithoutBlank(pieces) != pieces { CountPrefix(pieces, |pieces| - 1, key); }
      UpdateAppended(WithoutBlank(pieces), key, value);
    }
  }

  lemma {:induction false} CountPrefix(pieces: seq<string>, n: nat, key: string)
    requires n <= |pieces|
    ensures Count(pieces[..n], key) <= Count(pieces, key)
  {
    if n > 0 {
      assert pieces[..n][1..] == pieces[1..][..n - 1];
      CountPrefix(pieces[1..], n - 1, key);
    }
  }

  lemma EditPiecesTwice(pieces: seq<string>, e: Edit)
    requires pieces != [] && PlainEdit(e)
    ensures EditPieces(EditPieces(pieces, e), e) == EditPieces(pieces, e)
  {
    match e.editor {
      case Settings => SetTwice(pieces, e.key, e.value);
      case Credentials => UpdateTwice(pieces, e.key, e.value);
    }
  }

  /** Making the same edit again changes nothing in the file, not even a blank. */
  lemma EditIsIdempotent(pieces: seq<string>, e: Edit, expand: string -> Option<string>)
    requires Tidy(pieces) && PlainEdit(e) && ExpandsTemplates(expand)
    ensures var once := EditText(Joined(pieces), e, expand);
            once.Some? && EditText(once.value, e, expand) == once
  {
    EditKeepsTidy(pieces, e, expand);
    EditKeepsTidy(EditPieces(pieces, e), e, expand);
    EditPiecesTwice(pieces, e);
  }
}
