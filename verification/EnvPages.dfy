/** The two pages that edit `.env`, each with the keys it sets, on one file: over any sequence of their
 * edits, when one page undoes or hides what the other set, and when it cannot.
 */
module EnvPages {
  import opened Wrappers
  import opened Lines
  import opened EnvText
  import opened EnvSubstitution
  import opened EnvLines
  import opened EnvEdits
  import opened EnvRoutes

  const SETTINGS_KEYS :=
    ["MCP_HTTP_ENABLED", "MCP_PUBLIC_URL", "MCP_OAUTH_REQUIRE_APPROVAL", "MCP_OAUTH_WRITE_SCOPE_ENABLED"]

  /** The keys a page sets. */
  predicate SetBy(key: string, editor: Editor) {
    if editor.Settings? then key in SETTINGS_KEYS else key in KEYS
  }

  predicate OfPage(e: Edit) {
    SetBy(e.key, e.editor) && PlainValue(e.value)
  }

  lemma PagesShareNoKey(key: string)
    ensures key in SETTINGS_KEYS ==> IsName(key) && key !in KEYS
    ensures key in KEYS ==> IsName(key)
  {
    KeysAreNames();
    assert forall i :: 0 <= i < |SETTINGS_KEYS| ==> SETTINGS_KEYS[i][0] == 'M';
    assert forall i :: 0 <= i < |KEYS| ==> KEYS[i][0] != 'M';
  }

  ghost predicate OfPages(edits: seq<Edit>) {
    forall i :: 0 <= i < |edits| ==> OfPage(edits[i])
  }

  lemma GivenIsOfPage(k: nat, value: string)
    requires k < |KEYS| && PlainValue(value)
    ensures OfPages(Given(KEYS[k], value))
  {
  }

  lemma OfPagesJoin(a: seq<Edit>, b: seq<Edit>)
    requires OfPages(a) && OfPages(b)
    ensures OfPages(a + b)
  {
  }

  lemma BrokerOfPage(r: Request)
    requires PlainRequest(r)
    ensures OfPages(BrokerEdits(r))
  {
    var a, b := Given(KEYS[0], r.apiKey), Given(KEYS[1], r.apiSecret);
    var c, d := Given(KEYS[2], r.apiKeyMarket), Given(KEYS[3], r.apiSecretMarket);
    GivenIsOfPage(0, r.apiKey);
    GivenIsOfPage(1, r.apiSecret);
    GivenIsOfPage(2, r.apiKeyMarket);
    GivenIsOfPage(3, r.apiSecretMarket);
    OfPagesJoin(a, b);
    OfPagesJoin(a + b, c);
    OfPagesJoin(a + b + c, d);
  }

  lemma NgrokOfPage(r: Request)
    ensures OfPages(NgrokEdits(r))
  {
    if r.ngrok.Some? {
      NgrokIsPlain(r.ngrok.value);
      GivenIsOfPage(5, NgrokValue(r.ngrok.value));
    }
  }

  /** What a credentials request edits are the credentials page's own keys. */
  lemma RequestIsOfPage(r: Request)
    requires PlainRequest(r)
    ensures OfPages(EditsOf(r))
  {
    var a, b, c := BrokerEdits(r), Given(KEYS[4], r.redirectUrl), NgrokEdits(r);
    var d, e := Given(KEYS[6], r.hostServer), Given(KEYS[7], r.websocketUrl);
    BrokerOfPage(r);
    NgrokOfPage(r);
    GivenIsOfPage(4, r.redirectUrl);
    GivenIsOfPage(6, r.hostServer);
    GivenIsOfPage(7, r.websocketUrl);
    OfPagesJoin(a, b);
    OfPagesJoin(a + b, c);
    OfPagesJoin(a + b + c, d);
    OfPagesJoin(a + b + c + d, e);
  }

  // ---------------------------------------------------------------- the lines of a key

  function Where(pieces: seq<string>, p: string -> bool): seq<string> {
    if pieces == [] then [] else (if p(pieces[0]) then [pieces[0]] else []) + Where(pieces[1..], p)
  }

  function Reads(key: string): string -> bool {
    line => ReadsKey(line, key)
  }

  function LinesOf(pieces: seq<string>, key: string): seq<string> {
    Where(pieces, Reads(key))
  }

  lemma WhereCons(line: string, rest: seq<string>, p: string -> bool)
    ensures Where([line] + rest, p) == if p(line) then [line] + Where(rest, p) else Where(rest, p)
  {
    assert ([line] + rest)[1..] == rest;
  }

  lemma {:induction false} WhereJoin(a: seq<string>, b: seq<string>, p: string -> bool)
    ensures Where(a + b, p) == Where(a, p) + Where(b, p)
  {
    if a == [] {
      assert a + b == b;
    } else {
      assert (a + b)[1..] == a[1..] + b;
      WhereJoin(a[1..], b, p);
    }
  }

  lemma LinesCons(line: string, rest: seq<string>, key: string)
    ensures LinesOf([line] + rest, key)
         == if ReadsKey(line, key) then [line] + LinesOf(rest, key) else LinesOf(rest, key)
    ensures LinesOf([], key) == []
    ensures LinesOf([line], key) == if ReadsKey(line, key) then [line] else []
  {
    WhereCons(line, rest, Reads(key));
    WhereCons(line, [], Reads(key));
    assert [line] + [] == [line];
  }

  /** What is read for a key. */
  function ReadAt(m: map<string, string>, key: string): Option<string> {
    if key in m then Some(m[key]) else None
  }

  function ValueIn(line: string, read: string -> Option<(string, string)>): Option<string> {
    if read(line).Some? then Some(read(line).value.1) else None
  }

  function LastValue(lines: seq<string>): Option<string> {
    if lines == [] then None else ValueIn(lines[|lines| - 1], Reading)
  }

  /** The lines of a key decide what is read for it: the last one does. */
  lemma {:induction false} LinesDecide(pieces: seq<string>, key: string)
    ensures ReadAt(ReadPieces(pieces), key) == LastValue(LinesOf(pieces, key))
  {
    if pieces != [] {
      assert pieces == [pieces[0]] + pieces[1..];
      LinesCons(pieces[0], pieces[1..], key);
      ReadCons(pieces[0], pieces[1..]);
      LinesDecide(pieces[1..], key);
      AllRead(pieces[1..], key);
      OneMoreLine(pieces[0], ReadPieces(pieces[1..]), LinesOf(pieces[1..], key), key);
    }
  }

  lemma OneMoreLine(line: string, below: map<string, string>, lines: seq<string>, key: string)
    requires ReadAt(below, key) == LastValue(lines)
    requires forall i :: 0 <= i < |lines| ==> ReadsKey(lines[i], key)
    ensures ReadAt(Above(line, below), key) == LastValue(if ReadsKey(line, key) then [line] + lines else lines)
  {
    SaidAt(Reading(line), below, key);
    if lines == [] {
      assert [line] + lines == [line];
    } else {
      assert ReadsKey(lines[|lines| - 1], key);
      LastOfCons(line, lines);
    }
  }

  lemma LastOfCons(line: string, lines: seq<string>)
    requires lines != []
    ensures ([line] + lines)[|[line] + lines| - 1] == lines[|lines| - 1]
  {
  }

  lemma SaidAt(reading: Option<(string, string)>, below: map<string, string>, key: string)
    ensures ReadAt(Said(reading, below), key)
         == if reading.Some? && reading.value.0 == key && ReadAt(below, key).None? then Some(reading.value.1)
            else ReadAt(below, key)
  {
  }

  lemma {:induction false} AllWhere(pieces: seq<string>, p: string -> bool)
    ensures forall i :: 0 <= i < |Where(pieces, p)| ==> p(Where(pieces, p)[i])
  {
    if pieces != [] { AllWhere(pieces[1..], p); }
  }

  lemma AllRead(pieces: seq<string>, key: string)
    ensures forall i :: 0 <= i < |LinesOf(pieces, key)| ==> ReadsKey(LinesOf(pieces, key)[i], key)
  {
    AllWhere(pieces, Reads(key));
    assert forall i :: 0 <= i < |LinesOf(pieces, key)| ==> Reads(key)(LinesOf(pieces, key)[i]);
  }

  // ---------------------------------------------------------------- what a settings edit does to them

  lemma FreshLines(key: string, value: string, lines: seq<string>, other: string)
    requires IsName(key)
    ensures LinesOf([FreshLine(key, value)] + lines, other)
         == (if other == key then [FreshLine(key, value)] else []) + LinesOf(lines, other)
    ensures LinesOf([FreshLine(key, value), ""], other) == if other == key then [FreshLine(key, value)] else []
  {
    var line := FreshLine(key, value);
    assert ReadsKey(line, other) <==> other == key by { FreshLineAssigns(key, value); }
    assert !ReadsKey("", other) by { NothingAssignsNothing(); }
    LinesCons(line, lines, other);
    LinesCons(line, [""], other);
    LinesCons("", [], other);
    assert [line] + [""] == [line, ""];
  }

  /** The first line of the key is replaced, or the only one appended; other keys keep their lines. */
  function SetLines(lines: seq<string>, key: string, value: string): seq<string> {
    [FreshLine(key, value)] + if lines == [] then [] else lines[1..]
  }

  lemma SetOnlyLines(line: string, key: string, value: string, other: string)
    requires IsName(key)
    ensures LinesOf(SetPieces([line], key, value), other)
         == if other == key then SetLines(LinesOf([line], key), key, value) else LinesOf([line], other)
  {
    var tail := [FreshLine(key, value), ""];
    FreshLines(key, value, [], other);
    LinesCons(line, [], other);
    assert [line] + [] == [line];
    if !ReadsKey(line, key) && line != "" {
      LinesCons(line, tail, other);
      assert [line] + tail == [line, FreshLine(key, value), ""];
    } else if line == "" {
      NothingAssignsNothing();
    }
  }

  lemma {:induction false} SettingsEditLines(pieces: seq<string>, key: string, value: string, other: string)
    requires pieces != [] && IsName(key)
    ensures LinesOf(SetPieces(pieces, key, value), other)
         == if other == key then SetLines(LinesOf(pieces, key), key, value) else LinesOf(pieces, other)
  {
    var line, rest := pieces[0], pieces[1..];
    assert pieces == [line] + rest;
    LinesCons(line, rest, other);
    if |pieces| == 1 {
      assert pieces == [line];
      SetOnlyLines(line, key, value, other);
    } else if ReadsKey(line, key) {
      FreshLines(key, value, rest, other);
    } else {
      SettingsEditLines(rest, key, value, other);
      LinesCons(line, SetPieces(rest, key, value), other);
      assert SetPieces(pieces, key, value) == [line] + SetPieces(rest, key, value);
    }
  }

  // ---------------------------------------------------------------- what a credentials edit does to them

  /** The pieces after an edit by the credentials page. */
  function UpdatePage(pieces: seq<string>, key: string, value: string): (r: seq<string>)
    requires pieces != []
    ensures r != []
  {
    if Count(pieces, key) > 0 then Linewise(pieces, key, Quoted(value)) else Appended(pieces, FreshLine(key, value))
  }

  lemma {:induction false} NoneLinewise(pieces: seq<string>, key: string, text: string)
    requires Count(pieces, key) == 0
    ensures Linewise(pieces, key, text) == pieces && Eaten(pieces, key) == []
  {
    if pieces != [] { NoneLinewise(pieces[1..], key, text); }
  }

  /** The text edit is the edit of the pieces, on any file without bare names. */
  lemma CredentialsText(pieces: seq<string>, key: string, value: string, expand: string -> Option<string>)
    requires pieces != [] && AllLoose(pieces) && IsName(key) && PlainValue(value) && ExpandsTemplates(expand)
    ensures UpdateEnvValue(Joined(pieces), key, value, expand) == Some(Joined(UpdatePage(pieces, key, value)))
  {
    var text := Quoted(value);
    assert Replacement(value) == text && '\\' !in text;
    SubstitutedExactly(pieces, key, text);
    ReplacesIff(pieces, key, text);
    if Count(pieces, key) == 0 {
      NoneLinewise(pieces, key, text);
      AppendedText(pieces, FreshLine(key, value));
    }
  }

  predicate AllBlanks(t: string) {
    forall i :: 0 <= i < |t| ==> IsBlank(t[i])
  }

  /** The new text after blanks alone is no line anyone reads. */
  lemma StrayText(blanks: string, value: string)
    requires AllBlanks(blanks)
    ensures Reading(blanks + Quoted(value)) == None && NameLen(blanks + Quoted(value)) == 0
  {
    var t := blanks + Quoted(value);
    assert t[|blanks|] == '\'' && !IsBlank('\'');
    RunIs(t, IsBlank, |blanks|);
    assert t[|blanks|..] == Quoted(value);
    RunIs(Quoted(value), IsNameChar, 0);
    RunIs(t, IsNameChar, 0);
  }

  lemma BlankLineReads(line: string)
    requires Unindented(line) == ""
    ensures Reading(line) == None && AllBlanks(line)
  {
    NothingAssignsNothing();
    AllBlank(line);
  }

  /** Other keys' lines, before and after: the eaten ones are missing. */
  ghost predicate LosesEaten(before: seq<string>, after: seq<string>, eaten: seq<string>, other: string) {
    && |LinesOf(after, other)| + |LinesOf(eaten, other)| == |LinesOf(before, other)|
    && (LinesOf(eaten, other) == [] ==> LinesOf(after, other) == LinesOf(before, other))
  }

  lemma KeepsHead(line: string, next: string, before: seq<string>, after: seq<string>, eaten: seq<string>,
                  other: string)
    requires LosesEaten(before, after, eaten, other)
    requires ReadsKey(line, other) || ReadsKey(next, other) ==> line == next
    ensures LosesEaten([line] + before, [next] + after, eaten, other)
  {
    LinesCons(line, before, other);
    LinesCons(next, after, other);
  }

  lemma LosesHead(line: string, stray: string, before: seq<string>, after: seq<string>, eaten: seq<string>,
                  other: string)
    requires LosesEaten(before, after, eaten, other) && !ReadsKey(stray, other)
    ensures LosesEaten([line] + before, [stray] + after, [line] + eaten, other)
  {
    LinesCons(line, before, other);
    LinesCons(stray, after, other);
    LinesCons(line, eaten, other);
  }

  lemma RewrittenReadsKey(line: string, key: string, value: string, other: string)
    requires AssignsKey(line, key) && other != key
    ensures !ReadsKey(line, other) && !ReadsKey(Rewritten(line, Quoted(value)), other)
  {
    ReadsOneKey(line, key, other);
    assert AssignsKey(Rewritten(line, Quoted(value)), key) by { RewrittenLine(line, value); }
    ReadsOneKey(Rewritten(line, Quoted(value)), key, other);
  }

  lemma BlankIsRewritten(line: string, text: string)
    requires HasBlankValue(line)
    ensures Rewritten(line, text) == line + text
  {
  }

  lemma ReadsOneKey(line: string, key: string, other: string)
    requires AssignsKey(line, key) && other != key
    ensures !ReadsKey(line, other)
  {
    AssignmentReads(line, key);
  }

  lemma {:induction false} LinewiseLoses(pieces: seq<string>, key: string, value: string, other: string)
    requires other != key
    ensures LosesEaten(pieces, Linewise(pieces, key, Quoted(value)), Eaten(pieces, key), other)
    decreases |pieces|
  {
    if pieces != [] {
      var line, rest, text := pieces[0], pieces[1..], Quoted(value);
      assert pieces == [line] + rest;
      if !AssignsKey(line, key) {
        LinewiseLoses(rest, key, value, other);
        KeepsHead(line, line, rest, Linewise(rest, key, text), Eaten(rest, key), other);
      } else {
        RewrittenReadsKey(line, key, value, other);
        if !HasBlankValue(line) {
          LinewiseLoses(rest, key, value, other);
          KeepsHead(line, Rewritten(line, text), rest, Linewise(rest, key, text), Eaten(rest, key), other);
        } else if rest == [] {
          BlankIsRewritten(line, text);
          KeepsHead(line, line + text, [], [], [], other);
          assert [line + text] + [] == [line + text];
        } else {
          FedLoses(rest, key, value, other);
          KeepsHead(line, line, rest, Fed(rest, key, text), EatenBelow(rest, key), other);
        }
      }
    }
  }

  lemma {:induction false} FedLoses(pieces: seq<string>, key: string, value: string, other: string)
    requires other != key
    ensures LosesEaten(pieces, Fed(pieces, key, Quoted(value)), EatenBelow(pieces, key), other)
    decreases |pieces|
  {
    if pieces != [] {
      var line, rest, text := pieces[0], pieces[1..], Quoted(value);
      assert pieces == [line] + rest;
      if Unindented(line) != "" {
        LinewiseLoses(rest, key, value, other);
        StrayText(Indent(line), value);
        LosesHead(line, Indent(line) + text, rest, Linewise(rest, key, text), Eaten(rest, key), other);
      } else {
        BlankLineReads(line);
        if rest == [] {
          StrayText(line, value);
          KeepsHead(line, line + text, [], [], [], other);
          assert [line + text] + [] == [line + text];
        } else {
          FedLoses(rest, key, value, other);
          KeepsHead(line, line, rest, Fed(rest, key, text), EatenBelow(rest, key), other);
        }
      }
    }
  }

  lemma {:induction false} WithoutBlankLines(pieces: seq<string>, key: string)
    requires pieces != []
    ensures LinesOf(WithoutBlank(pieces), key) == LinesOf(pieces, key)
  {
    if WithoutBlank(pieces) != pieces {
      NothingAssignsNothing();
      assert pieces == WithoutBlank(pieces) + [""];
      WhereJoin(WithoutBlank(pieces), [""], Reads(key));
      LinesCons("", [], key);
      assert [""] + [] == [""];
    }
  }

  lemma AppendedLines(pieces: seq<string>, key: string, value: string, other: string)
    requires pieces != [] && IsName(key)
    ensures LinesOf(Appended(pieces, FreshLine(key, value)), other)
         == LinesOf(pieces, other) + if other == key then [FreshLine(key, value)] else []
  {
    WhereJoin(WithoutBlank(pieces), [FreshLine(key, value), ""], Reads(other));
    FreshLines(key, value, [], other);
    WithoutBlankLines(pieces, other);
  }

  /** A credentials edit keeps the lines of another key exactly when it eats none of them. */
  lemma OtherLinesKeptIff(pieces: seq<string>, key: string, value: string, other: string)
    requires pieces != [] && IsName(key) && other != key
    ensures LinesOf(UpdatePage(pieces, key, value), other) == LinesOf(pieces, other)
       <==> LinesOf(Eaten(pieces, key), other) == []
  {
    if Count(pieces, key) > 0 {
      LinewiseLoses(pieces, key, value, other);
    } else {
      NoneLinewise(pieces, key, Quoted(value));
      AppendedLines(pieces, key, value, other);
      assert LinesOf(pieces, other) + [] == LinesOf(pieces, other);
    }
  }

  // ---------------------------------------------------------------- runs of edits

  /** The pieces after one edit, and after a run of edits. */
  function Page(pieces: seq<string>, e: Edit): (r: seq<string>)
    requires pieces != []
    ensures r != []
  {
    if e.editor.Settings? then SetPieces(pieces, e.key, e.value) else UpdatePage(pieces, e.key, e.value)
  }

  function After(pieces: seq<string>, edits: seq<Edit>): (r: seq<string>)
    requires pieces != []
    ensures r != []
  {
    if edits == [] then pieces else Page(After(pieces, edits[..|edits| - 1]), edits[|edits| - 1])
  }

  /** Any file without bare names and without line breaks other than newlines. */
  predicate AllSound(pieces: seq<string>) {
    pieces != [] && forall i :: 0 <= i < |pieces| ==> Sound(pieces[i])
  }

  predicate Sound(line: string) {
    LooseLine(line) && IsClean(line)
  }

  lemma SoundCons(line: string, rest: seq<string>)
    requires Sound(line) && (rest == [] || AllSound(rest))
    ensures AllSound([line] + rest)
  {
  }

  lemma FreshIsSound(key: string, value: string)
    requires IsName(key) && PlainValue(value)
    ensures Sound(FreshLine(key, value)) && Sound("")
  {
    FreshIsTidy(key, value);
    PlainIsLoose(FreshLine(key, value));
    BlankIsTidy();
    PlainIsLoose("");
  }

  lemma RewrittenIsSound(line: string, value: string)
    requires Assigns(line) && IsClean(line) && PlainValue(value)
    ensures Sound(Rewritten(line, Quoted(value)))
  {
    RewrittenLine(line, value);
    CleanRewritten(line, value);
    CleanIsOneLine(Rewritten(line, Quoted(value)));
  }

  lemma StrayIsSound(blanks: string, value: string)
    requires AllBlanks(blanks) && IsClean(blanks) && PlainValue(value)
    ensures Sound(blanks + Quoted(value))
  {
    var t := blanks + Quoted(value);
    StrayText(blanks, value);
    forall i | 0 <= i < |t| ensures !IsBreak(t[i]) {
      if i < |blanks| { assert t[i] == blanks[i]; } else { assert t[i] == Quoted(value)[i - |blanks|]; }
    }
    CleanIsOneLine(t);
  }

  lemma {:induction false} LinewiseIsSound(pieces: seq<string>, key: string, value: string)
    requires AllSound(pieces) && PlainValue(value)
    ensures AllSound(Linewise(pieces, key, Quoted(value)))
    decreases |pieces|
  {
    var line, rest, text := pieces[0], pieces[1..], Quoted(value);
    assert Sound(line);
    if rest != [] { RestIsSound(pieces); }
    if !AssignsKey(line, key) {
      if rest != [] { LinewiseIsSound(rest, key, value); }
      SoundCons(line, Linewise(rest, key, text));
    } else {
      RewrittenIsSound(line, value);
      if !HasBlankValue(line) {
        if rest != [] { LinewiseIsSound(rest, key, value); }
        SoundCons(Rewritten(line, text), Linewise(rest, key, text));
      } else if rest == [] {
        BlankIsRewritten(line, text);
      } else {
        FedIsSound(rest, key, value);
        SoundCons(line, Fed(rest, key, text));
      }
    }
  }

  lemma {:induction false} FedIsSound(pieces: seq<string>, key: string, value: string)
    requires AllSound(pieces) && PlainValue(value)
    ensures AllSound(Fed(pieces, key, Quoted(value)))
    decreases |pieces|
  {
    var line, rest, text := pieces[0], pieces[1..], Quoted(value);
    assert Sound(line);
    if rest != [] { RestIsSound(pieces); }
    if Unindented(line) != "" {
      if rest != [] { LinewiseIsSound(rest, key, value); }
      StrayIsSound(Indent(line), value);
      SoundCons(Indent(line) + text, Linewise(rest, key, text));
    } else {
      BlankLineReads(line);
      if rest == [] {
        StrayIsSound(line, value);
      } else {
        FedIsSound(rest, key, value);
        SoundCons(line, Fed(rest, key, text));
      }
    }
  }

  lemma RestIsSound(pieces: seq<string>)
    requires AllSound(pieces) && |pieces| > 1
    ensures AllSound(pieces[1..])
  {
  }

  lemma PageIsSound(pieces: seq<string>, e: Edit)
    requires AllSound(pieces) && OfPage(e)
    ensures AllSound(Page(pieces, e))
  {
    PagesShareNoKey(e.key);
    FreshIsSound(e.key, e.value);
    if e.editor.Settings? {
      SetKeeps(pieces, e.key, e.value, Sound);
    } else if Count(pieces, e.key) > 0 {
      LinewiseIsSound(pieces, e.key, e.value);
    } else {
      AppendedKeeps(pieces, FreshLine(e.key, e.value), Sound);
    }
  }

  lemma PageText(pieces: seq<string>, e: Edit, expand: string -> Option<string>)
    requires AllSound(pieces) && OfPage(e) && ExpandsTemplates(expand)
    ensures EditText(Joined(pieces), e, expand) == Some(Joined(Page(pieces, e)))
  {
    PagesShareNoKey(e.key);
    SoundIsLooseAndClean(pieces);
    if e.editor.Settings? {
      SetInTextIsSetPieces(pieces, e.key, e.value);
    } else {
      CredentialsText(pieces, e.key, e.value, expand);
    }
  }

  lemma SoundIsLooseAndClean(pieces: seq<string>)
    requires AllSound(pieces)
    ensures AllLoose(pieces) && AllClean(pieces) && forall i :: 0 <= i < |pieces| ==> OneLine(pieces[i])
  {
    assert forall i :: 0 <= i < |pieces| ==> Sound(pieces[i]);
  }

  /** A run of edits of the text is the run of edits of the pieces. */
  lemma {:induction false} RunText(pieces: seq<string>, edits: seq<Edit>, expand: string -> Option<string>)
    requires AllSound(pieces) && OfPages(edits) && ExpandsTemplates(expand)
    ensures AllSound(After(pieces, edits))
    ensures EditAll(Joined(pieces), edits, expand) == Some(Joined(After(pieces, edits)))
  {
    if edits != [] {
      var n := |edits| - 1;
      assert edits == edits[..n] + [edits[n]];
      RunText(pieces, edits[..n], expand);
      PageIsSound(After(pieces, edits[..n]), edits[n]);
      PageText(After(pieces, edits[..n]), edits[n], expand);
      EditAllAppend(Joined(pieces), edits[..n], [edits[n]], expand);
      OneEdit(Joined(After(pieces, edits[..n])), edits[n], expand);
    }
  }

  lemma OneEdit(t: string, e: Edit, expand: string -> Option<string>)
    ensures EditAll(t, [e], expand) == EditText(t, e, expand)
  {
    assert [e][1..] == [];
  }

  /** The edits one page makes. */
  function Only(edits: seq<Edit>, editor: Editor): seq<Edit> {
    if edits == [] then []
    else Only(edits[..|edits| - 1], editor) + if edits[|edits| - 1].editor == editor then [edits[|edits| - 1]] else []
  }

  lemma AfterOnly(pieces: seq<string>, edits: seq<Edit>, e: Edit, editor: Editor)
    requires pieces != []
    ensures After(pieces, edits + [e]) == Page(After(pieces, edits), e)
    ensures After(pieces, Only(edits + [e], editor))
         == if e.editor == editor then Page(After(pieces, Only(edits, editor)), e)
            else After(pieces, Only(edits, editor))
  {
    assert (edits + [e])[..|edits|] == edits;
    var only := Only(edits, editor);
    assert (only + [e])[..|only|] == only;
    assert only + [] == only;
  }

  // ---- when the settings are safe from the credentials page

  /** The two files have the same lines for every key of this page. */
  ghost predicate SameLines(p: seq<string>, q: seq<string>, editor: Editor) {
    forall key :: SetBy(key, editor) ==> LinesOf(p, key) == LinesOf(q, key)
  }

  /** An edit by the credentials page that eats a line of one of the settings. */
  ghost predicate EatsSetting(pieces: seq<string>, e: Edit) {
    e.editor.Credentials? && exists key :: SetBy(key, Settings) && LinesOf(Eaten(pieces, e.key), key) != []
  }

  lemma SettingsStepIff(p: seq<string>, q: seq<string>, e: Edit)
    requires p != [] && q != [] && OfPage(e) && SameLines(p, q, Settings)
    ensures SameLines(Page(p, e), if e.editor.Settings? then Page(q, e) else q, Settings) <==> !EatsSetting(p, e)
  {
    PagesShareNoKey(e.key);
    if e.editor.Settings? {
      forall key | SetBy(key, Settings) ensures LinesOf(Page(p, e), key) == LinesOf(Page(q, e), key) {
        SettingsEditLines(p, e.key, e.value, key);
        SettingsEditLines(q, e.key, e.value, key);
      }
    } else {
      forall key | SetBy(key, Settings)
        ensures LinesOf(Page(p, e), key) == LinesOf(q, key) <==> LinesOf(Eaten(p, e.key), key) == [] {
        PagesShareNoKey(key);
        OtherLinesKeptIff(p, e.key, e.value, key);
      }
    }
  }

  /** Every run so far has `p`, and every edit `q` of the run before it. */
  ghost predicate Prefixes(edits: seq<Edit>, p: seq<Edit> -> bool) {
    forall k :: 0 <= k <= |edits| ==> p(edits[..k])
  }

  ghost predicate Steps(edits: seq<Edit>, q: (seq<Edit>, Edit) -> bool) {
    forall k :: 0 <= k < |edits| ==> q(edits[..k], edits[k])
  }

  lemma PrefixesStep(before: seq<Edit>, e: Edit, p: seq<Edit> -> bool)
    ensures Prefixes(before + [e], p) <==> Prefixes(before, p) && p(before + [e])
  {
    var edits := before + [e];
    assert edits[..|edits|] == edits;
    assert forall k :: 0 <= k <= |before| ==> edits[..k] == before[..k];
  }

  lemma StepsStep(before: seq<Edit>, e: Edit, q: (seq<Edit>, Edit) -> bool)
    ensures Steps(before + [e], q) <==> Steps(before, q) && q(before, e)
  {
    var edits := before + [e];
    assert edits[..|before|] == before && edits[|before|] == e;
    assert forall k :: 0 <= k < |before| ==> edits[..k] == before[..k] && edits[k] == before[k];
  }

  ghost predicate SameAfter(pieces: seq<string>, edits: seq<Edit>)
    requires pieces != []
  {
    SameLines(After(pieces, edits), After(pieces, Only(edits, Settings)), Settings)
  }

  /** At all times the settings have the lines that the settings page alone would have left. */
  ghost predicate AlwaysSame(pieces: seq<string>, edits: seq<Edit>)
    requires pieces != []
  {
    Prefixes(edits, run => SameAfter(pieces, run))
  }

  /** No edit of the run eats a line of a setting in the file it meets. */
  ghost predicate NeverEats(pieces: seq<string>, edits: seq<Edit>)
    requires pieces != []
  {
    Steps(edits, (run, e) => !EatsSetting(After(pieces, run), e))
  }

  /** Exactly when the credentials page leaves the settings alone, over any run of edits by both pages on
    * any file without bare names: at all times the settings have the lines the settings page alone would
    * have left if and only if no credentials edit eats one of them in the file it meets. */
  lemma {:induction false} SettingsKeptIff(pieces: seq<string>, edits: seq<Edit>)
    requires pieces != [] && OfPages(edits)
    ensures AlwaysSame(pieces, edits) <==> NeverEats(pieces, edits)
  {
    if edits == [] {
      assert edits[..0] == [] && Only(edits, Settings) == [];
    } else {
      var before, e := edits[..|edits| - 1], edits[|edits| - 1];
      assert edits == before + [e];
      SettingsKeptIff(pieces, before);
      PrefixesStep(before, e, run => SameAfter(pieces, run));
      StepsStep(before, e, (run, e) => !EatsSetting(After(pieces, run), e));
      if AlwaysSame(pieces, before) {
        assert SameAfter(pieces, before) by { assert before[..|before|] == before; }
        SameAfterStep(pieces, before, e);
      }
    }
  }

  lemma SameAfterStep(pieces: seq<string>, before: seq<Edit>, e: Edit)
    requires pieces != [] && OfPage(e) && SameAfter(pieces, before)
    ensures SameAfter(pieces, before + [e]) <==> !EatsSetting(After(pieces, before), e)
  {
    AfterOnly(pieces, before, e, Settings);
    SettingsStepIff(After(pieces, before), After(pieces, Only(before, Settings)), e);
  }

  // ---- when neither page touches the other's keys

  /** No line of a credentials key has a blank right-hand side. */
  ghost predicate NoHunger(pieces: seq<string>) {
    forall key :: key in KEYS ==> NoBlankValue(pieces, key)
  }

  lemma {:induction false} FullLinewise(pieces: seq<string>, key: string, text: string)
    requires NoBlankValue(pieces, key)
    ensures Linewise(pieces, key, text) == AllUpdated(pieces, key, text) && Eaten(pieces, key) == []
  {
    if pieces != [] {
      assert forall i :: 0 <= i < |pieces[1..]| ==> pieces[1..][i] == pieces[i + 1];
      FullLinewise(pieces[1..], key, text);
    }
  }

  /** The lines of the key after the page has set it, from its lines before. */
  function UpdateLines(lines: seq<string>, key: string, value: string): seq<string> {
    if Count(lines, key) > 0 then AllUpdated(lines, key, Quoted(value)) else lines + [FreshLine(key, value)]
  }

  lemma {:induction false} UpdatedOwnLines(pieces: seq<string>, key: string, value: string)
    ensures LinesOf(AllUpdated(pieces, key, Quoted(value)), key) == AllUpdated(LinesOf(pieces, key), key, Quoted(value))
    ensures Count(LinesOf(pieces, key), key) == Count(pieces, key)
  {
    if pieces != [] {
      var line, rest, text := pieces[0], pieces[1..], Quoted(value);
      UpdatedOwnLines(rest, key, value);
      assert pieces == [line] + rest;
      LinesCons(line, rest, key);
      UpdatedReadsOwn(line, key, value);
      LinesCons(EnvSubstitution.Updated(line, key, text), AllUpdated(rest, key, text), key);
      UpdatedCons(line, LinesOf(rest, key), key, text);
      UpdatedCons(line, rest, key, text);
    }
  }

  lemma UpdatedReadsOwn(line: string, key: string, value: string)
    ensures ReadsKey(EnvSubstitution.Updated(line, key, Quoted(value)), key) <==> ReadsKey(line, key)
    ensures Hits(line, key) > 0 ==> ReadsKey(line, key)
  {
    if AssignsKey(line, key) {
      AssignmentReads(line, key);
      RewrittenLine(line, value);
    }
  }

  lemma UpdatedCons(line: string, rest: seq<string>, key: string, text: string)
    ensures AllUpdated([line] + rest, key, text)
         == [EnvSubstitution.Updated(line, key, text)] + AllUpdated(rest, key, text)
    ensures Count([line] + rest, key) == Hits(line, key) + Count(rest, key)
  {
    assert ([line] + rest)[1..] == rest;
  }

  lemma OwnLines(pieces: seq<string>, key: string, value: string)
    requires pieces != [] && IsName(key) && NoBlankValue(pieces, key)
    ensures LinesOf(UpdatePage(pieces, key, value), key) == UpdateLines(LinesOf(pieces, key), key, value)
  {
    UpdatedOwnLines(pieces, key, value);
    if Count(pieces, key) > 0 {
      FullLinewise(pieces, key, Quoted(value));
    } else {
      AppendedLines(pieces, key, value, key);
    }
  }

  predicate Filled(line: string, key: string) {
    AssignsKey(line, key) ==> !HasBlankValue(line)
  }

  lemma FreshIsFilled(key: string, value: string, other: string)
    requires IsName(key)
    ensures Filled(FreshLine(key, value), other) && Filled("", other)
  {
    FreshLineAssigns(key, value);
    NothingAssignsNothing();
  }

  lemma PageStaysFull(pieces: seq<string>, e: Edit)
    requires pieces != [] && NoHunger(pieces) && OfPage(e)
    ensures NoHunger(Page(pieces, e))
  {
    PagesShareNoKey(e.key);
    forall key | key in KEYS ensures NoBlankValue(Page(pieces, e), key) { KeyStaysFull(pieces, e, key); }
  }

  lemma KeyStaysFull(pieces: seq<string>, e: Edit, key: string)
    requires pieces != [] && IsName(e.key) && NoBlankValue(pieces, key)
    requires e.editor.Credentials? ==> NoBlankValue(pieces, e.key)
    ensures NoBlankValue(Page(pieces, e), key)
  {
    var filled := (line: string) => Filled(line, key);
    FreshIsFilled(e.key, e.value, key);
    assert forall i :: 0 <= i < |pieces| ==> filled(pieces[i]);
    if e.editor.Settings? {
      SetKeeps(pieces, e.key, e.value, filled);
      assert forall i :: 0 <= i < |Page(pieces, e)| ==> filled(Page(pieces, e)[i]);
    } else if Count(pieces, e.key) > 0 {
      FullLinewise(pieces, e.key, Quoted(e.value));
      UpdatedStaysFull(pieces, e.key, e.value, key);
    } else {
      AppendedKeeps(pieces, FreshLine(e.key, e.value), filled);
      assert forall i :: 0 <= i < |Page(pieces, e)| ==> filled(Page(pieces, e)[i]);
    }
  }

  lemma UpdatedStaysFull(pieces: seq<string>, key: string, value: string, other: string)
    requires NoBlankValue(pieces, other)
    ensures NoBlankValue(AllUpdated(pieces, key, Quoted(value)), other)
  {
    var after := AllUpdated(pieces, key, Quoted(value));
    forall i | 0 <= i < |after| ensures Filled(after[i], other) {
      UpdatedAt(pieces, i, key, Quoted(value));
      if AssignsKey(pieces[i], key) { RewrittenLine(pieces[i], value); }
    }
  }

  lemma BothStep(p: seq<string>, q: seq<string>, e: Edit, editor: Editor)
    requires p != [] && q != [] && OfPage(e) && NoHunger(p) && NoHunger(q) && SameLines(p, q, editor)
    ensures SameLines(Page(p, e), if e.editor == editor then Page(q, e) else q, editor)
  {
    PagesShareNoKey(e.key);
    forall key | SetBy(key, editor)
      ensures LinesOf(Page(p, e), key) == LinesOf(if e.editor == editor then Page(q, e) else q, key) {
      PagesShareNoKey(key);
      PageLines(p, e, key);
      PageLines(q, e, key);
    }
  }

  /** On a file without hungry lines an edit changes the lines of its own key only, from those lines alone. */
  lemma PageLines(p: seq<string>, e: Edit, key: string)
    requires p != [] && OfPage(e) && NoHunger(p)
    ensures LinesOf(Page(p, e), key)
         == if key != e.key then LinesOf(p, key)
            else if e.editor.Settings? then SetLines(LinesOf(p, key), key, e.value)
            else UpdateLines(LinesOf(p, key), key, e.value)
  {
    PagesShareNoKey(e.key);
    if e.editor.Settings? {
      SettingsEditLines(p, e.key, e.value, key);
    } else if key == e.key {
      OwnLines(p, key, e.value);
    } else {
      assert NoBlankValue(p, e.key);
      FullLinewise(p, e.key, Quoted(e.value));
      OtherLinesKeptIff(p, e.key, e.value, key);
    }
  }

  lemma {:induction false} BothKeepLines(pieces: seq<string>, edits: seq<Edit>, editor: Editor)
    requires pieces != [] && NoHunger(pieces) && OfPages(edits)
    ensures NoHunger(After(pieces, edits)) && NoHunger(After(pieces, Only(edits, editor)))
    ensures SameLines(After(pieces, edits), After(pieces, Only(edits, editor)), editor)
  {
    if edits != [] {
      var n := |edits| - 1;
      assert edits == edits[..n] + [edits[n]];
      BothKeepLines(pieces, edits[..n], editor);
      AfterOnly(pieces, edits[..n], edits[n], editor);
      PageStaysFull(After(pieces, edits[..n]), edits[n]);
      PageStaysFull(After(pieces, Only(edits[..n], editor)), edits[n]);
      BothStep(After(pieces, edits[..n]), After(pieces, Only(edits[..n], editor)), edits[n], editor);
    }
  }

  lemma {:induction false} OnlyOfPages(edits: seq<Edit>, editor: Editor)
    requires OfPages(edits)
    ensures OfPages(Only(edits, editor))
  {
    if edits != [] { OnlyOfPages(edits[..|edits| - 1], editor); }
  }

  /** On a file without bare names where every line of a credentials key has something to the right, neither
    * page ever undoes or hides what the other set: after any run of edits by both, each page's keys read as
    * if it had been the only one. */
  lemma PagesDoNotInterfere(pieces: seq<string>, edits: seq<Edit>, expand: string -> Option<string>, editor: Editor,
                            key: string)
    requires AllSound(pieces) && NoHunger(pieces) && OfPages(edits) && ExpandsTemplates(expand) && SetBy(key, editor)
    ensures var both := EditAll(Joined(pieces), edits, expand);
            var alone := EditAll(Joined(pieces), Only(edits, editor), expand);
            both.Some? && alone.Some? && ReadAt(ReadEnv(both.value), key) == ReadAt(ReadEnv(alone.value), key)
  {
    OnlyOfPages(edits, editor);
    RunText(pieces, edits, expand);
    RunText(pieces, Only(edits, editor), expand);
    BothKeepLines(pieces, edits, editor);
    ReadsItsLines(After(pieces, edits), key);
    ReadsItsLines(After(pieces, Only(edits, editor)), key);
  }

  lemma ReadsItsLines(pieces: seq<string>, key: string)
    requires AllSound(pieces)
    ensures ReadAt(ReadEnv(Joined(pieces)), key) == LastValue(LinesOf(pieces, key))
  {
    SoundIsLooseAndClean(pieces);
    PiecesOfJoined(pieces);
    LinesDecide(pieces, key);
  }

  // ---- the input on which it fails

  function HungryLine(key: string): string {
    key + " ="
  }

  lemma HungryAssigns(key: string)
    requires IsName(key)
    ensures AssignsKey(HungryLine(key), key) && HasBlankValue(HungryLine(key)) && Sound(HungryLine(key))
  {
    var line, k := HungryLine(key), |key|;
    assert line[k] == ' ' && line[k + 1] == '=' && line[..k] == key;
    Shape(line, k, k + 1, k + 2);
    forall i | 0 <= i < |line| ensures !IsBreak(line[i]) {
      if i < k { assert line[i] == key[i]; } else { assert line[i] == " ="[i - k]; }
    }
    CleanIsOneLine(line);
  }

  /** A credentials key left blank in front of a setting: the next credentials edit takes the setting away. */
  lemma BlankCredentialEatsSetting(key: string, setting: string, on: string, value: string,
                                   expand: string -> Option<string>)
    requires SetBy(key, Credentials) && SetBy(setting, Settings) && PlainValue(on) && PlainValue(value)
    requires ExpandsTemplates(expand)
    ensures var pieces := [HungryLine(key)] + [FreshLine(setting, on)];
            var after := UpdateEnvValue(Joined(pieces), key, value, expand);
            && EatsSetting(pieces, Edit(Credentials, key, value))
            && ReadAt(ReadEnv(Joined(pieces)), setting) == Some(on)
            && after.Some? && ReadAt(ReadEnv(after.value), setting) == None
  {
    var pieces, e := [HungryLine(key)] + [FreshLine(setting, on)], Edit(Credentials, key, value);
    PagesShareNoKey(key);
    PagesShareNoKey(setting);
    HungryAssigns(key);
    FreshIsSound(setting, on);
    FreshLineAssigns(setting, on);
    EatsTheSetting(HungryLine(key), FreshLine(setting, on), key, setting);
    SoundCons(FreshLine(setting, on), []);
    SoundCons(HungryLine(key), [FreshLine(setting, on)]);
    PageText(pieces, e, expand);
    PageIsSound(pieces, e);
    ReadsItsLines(pieces, setting);
    ReadsItsLines(Page(pieces, e), setting);
    assert LastValue([FreshLine(setting, on)]) == Some(on);
    assert LinesOf(Page(pieces, e), setting) == [] by { NothingLeft(pieces, key, value, setting); }
  }

  lemma NothingLeft(pieces: seq<string>, key: string, value: string, setting: string)
    requires pieces != [] && Count(pieces, key) > 0 && key != setting
    requires |LinesOf(pieces, setting)| == |LinesOf(Eaten(pieces, key), setting)|
    ensures LinesOf(UpdatePage(pieces, key, value), setting) == []
  {
    LinewiseLoses(pieces, key, value, setting);
  }

  lemma EatsTheSetting(line: string, next: string, key: string, setting: string)
    requires AssignsKey(line, key) && HasBlankValue(line) && key != setting
    requires AssignsKey(next, setting)
    ensures LinesOf([line] + [next], setting) == [next]
    ensures Eaten([line] + [next], key) == [next] && LinesOf([next], setting) == [next]
    ensures Count([line] + [next], key) > 0
  {
    assert LinesOf([next], setting) == [next] by {
      AssignmentReads(next, setting);
      LinesCons(next, [], setting);
    }
    assert LinesOf([line] + [next], setting) == [next] by {
      ReadsOneKey(line, key, setting);
      LinesCons(line, [next], setting);
    }
    UpdatedCons(line, [next], key, "");
    EatenNext(line, next, key);
  }

  lemma EatenNext(line: string, next: string, key: string)
    requires AssignsKey(line, key) && HasBlankValue(line) && Assigns(next)
    ensures Eaten([line] + [next], key) == [next]
  {
    assert ([line] + [next])[1..] == [next] && [next][1..] == [];
    AssignmentIsUnindented(next);
    NothingAssignsNothing();
    assert EatenBelow([next], key) == [next] + Eaten([], key);
  }
}
