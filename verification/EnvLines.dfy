/** `_set_env_value` of blueprints/admin.py: the file as a list of lines, the first line of the key
 * replaced or a new one appended.
 */
module EnvLines {
  import opened Wrappers
  import opened Lines
  import opened EnvText

  /** `str.splitlines(keepends=True)`. */
  function SplitKeep(t: string): seq<string> {
    if t == "" then [] else [t[..NextLine(t)]] + SplitKeep(t[NextLine(t)..])
  }

  /** The pattern `^\s*KEY\s*=` at the start of a line. */
  predicate Matches(line: string, key: string) {
    MatchesUnindented(Unindented(line), key)
  }

  predicate MatchesUnindented(s: string, key: string) {
    && key <= s
    && var at := |key| + Run(s[|key|..], IsBlank);
       at < |s| && s[at] == '='
  }

  function Ended(line: string): string {
    if line != "" && line[|line| - 1] == '\n' then line else line + "\n"
  }

  /** The lines with the first one for the key replaced, or `newLine` appended after an ended last line. */
  function Edited(lines: seq<string>, key: string, newLine: string): seq<string> {
    if lines == [] then [newLine]
    else if Matches(lines[0], key) then [newLine] + lines[1..]
    else if |lines| == 1 then [Ended(lines[0]), newLine]
    else [lines[0]] + Edited(lines[1..], key, newLine)
  }

  function SetInText(t: string, key: string, value: string): string {
    Concat(Edited(SplitKeep(t), key, FreshLine(key, value) + "\n"))
  }

  /** The key pattern: capitals, digits and underscores, with one newline let through at the end. */
  predicate IsEnvKey(key: string) {
    || IsCapitalName(key)
    || (key != "" && key[|key| - 1] == '\n' && IsCapitalName(key[..|key| - 1]))
  }

  predicate IsCapitalName(key: string) {
    && key != "" && 'A' <= key[0] <= 'Z'
    && forall i :: 0 <= i < |key| ==> 'A' <= key[i] <= 'Z' || '0' <= key[i] <= '9' || key[i] == '_'
  }

  predicate IsRefused(value: string) {
    '\'' in value || '\\' in value || '\n' in value
  }

  datatype Saving = BadKey | BadValue | NoFile | Saved

  lemma EditedCons(line: string, rest: seq<string>, key: string, newLine: string)
    requires rest != [] && !Matches(line, key)
    ensures Edited([line] + rest, key, newLine) == [line] + Edited(rest, key, newLine)
  {
    assert ([line] + rest)[1..] == rest;
  }

  lemma UpdateRest(lines: seq<string>, n: nat, line: string)
    requires 0 < n < |lines|
    ensures lines[n := line] == [lines[0]] + lines[1..][n - 1 := line]
  {
  }

  lemma {:induction false} EditedHit(lines: seq<string>, n: nat, key: string, newLine: string)
    requires n < |lines| && (forall j :: 0 <= j < n ==> !Matches(lines[j], key)) && Matches(lines[n], key)
    ensures Edited(lines, key, newLine) == lines[n := newLine]
  {
    if n > 0 {
      var rest := lines[1..];
      assert forall j :: 0 <= j < n ==> rest[j] == lines[j + 1];
      EditedHit(rest, n - 1, key, newLine);
      assert lines == [lines[0]] + rest;
      EditedCons(lines[0], rest, key, newLine);
      UpdateRest(lines, n, newLine);
    } else {
      assert lines[0 := newLine] == [newLine] + lines[1..];
    }
  }

  lemma {:induction false} EditedMiss(lines: seq<string>, key: string, newLine: string)
    requires lines != [] && forall j :: 0 <= j < |lines| ==> !Matches(lines[j], key)
    ensures Edited(lines, key, newLine) == lines[|lines| - 1 := Ended(lines[|lines| - 1])] + [newLine]
  {
    var n := |lines| - 1;
    if n > 0 {
      var rest := lines[1..];
      assert forall j :: 0 <= j < n ==> rest[j] == lines[j + 1];
      EditedMiss(rest, key, newLine);
      assert lines == [lines[0]] + rest;
      EditedCons(lines[0], rest, key, newLine);
      UpdateRest(lines, n, Ended(lines[n]));
    } else {
      assert lines[0 := Ended(lines[0])] + [newLine] == [Ended(lines[0]), newLine];
    }
  }

  /** The loop that edits the list in place. */
  method EditLines(text: string, key: string, value: string) returns (after: string)
    ensures after == SetInText(text, key, value)
  {
    var newLine := FreshLine(key, value) + "\n";
    var lines := SplitKeep(text);
    ghost var before := lines;
    var found := false;
    var i := 0;
    while i < |lines|
      invariant i <= |lines| && lines == before && !found
      invariant forall j :: 0 <= j < i ==> !Matches(lines[j], key)
    {
      if Matches(lines[i], key) {
        EditedHit(lines, i, key, newLine);
        lines := lines[i := newLine];
        found := true;
        break;
      }
      i := i + 1;
    }
    if !found {
      if lines != [] {
        var n := |lines| - 1;
        EditedMiss(lines, key, newLine);
        if lines[n] == "" || lines[n][|lines[n]| - 1] != '\n' { lines := lines[n := lines[n] + "\n"]; }
        assert lines == before[n := Ended(before[n])];
      }
      lines := lines + [newLine];
    }
    assert lines == Edited(before, key, newLine);
    after := Concat(lines);
  }

  // ---------------------------------------------------------------- on pieces

  /** The kept lines of a text without other line breaks. */
  function Kept(pieces: seq<string>): seq<string>
    requires pieces != []
  {
    if |pieces| == 1 then (if pieces[0] == "" then [] else [pieces[0]])
    else [pieces[0] + "\n"] + Kept(pieces[1..])
  }

  lemma {:induction false} SplitKeepJoined(pieces: seq<string>)
    requires pieces != [] && AllClean(pieces)
    ensures SplitKeep(Joined(pieces)) == Kept(pieces)
  {
    var t := Joined(pieces);
    if |pieces| == 1 {
      assert pieces[0] + "" == pieces[0];
      LineLengthOf(pieces[0], "");
      if t != "" { assert t[NextLine(t)..] == "" && t[..NextLine(t)] == t; }
    } else {
      var rest := "\n" + Joined(pieces[1..]);
      assert t == pieces[0] + rest;
      LineLengthOf(pieces[0], rest);
      assert t[|pieces[0]|] == '\n';
      assert t[..NextLine(t)] == pieces[0] + "\n" && t[NextLine(t)..] == Joined(pieces[1..]);
      SplitKeepJoined(pieces[1..]);
    }
  }

  lemma {:induction false} ConcatKept(pieces: seq<string>)
    requires pieces != []
    ensures Concat(Kept(pieces)) == Joined(pieces)
  {
    if |pieces| == 1 {
      if pieces[0] != "" { assert Concat([pieces[0]][1..]) == ""; }
    } else {
      ConcatKept(pieces[1..]);
      assert Kept(pieces)[1..] == Kept(pieces[1..]);
    }
  }

  lemma UnindentedEnding(line: string, ending: string)
    requires ending == "" || ending == "\n"
    ensures Unindented(line + ending) == if Unindented(line) == "" then "" else Unindented(line) + ending
  {
    var t, n := line + ending, Run(line, IsBlank);
    if n == |line| {
      RunIs(t, IsBlank, |t|);
    } else {
      RunIs(t, IsBlank, n);
      assert t[n..] == line[n..] + ending;
    }
  }

  lemma NothingAssignsNothing()
    ensures !Assigns("") && Reading("").None?
  {
    assert NameLen("") == 0;
    assert Unindented("") == "";
  }

  lemma ReadsIffAssigns(line: string, key: string)
    ensures ReadsKey(line, key) <==> AssignsKey(Unindented(line), key)
  {
  }

  /** The pattern finds a line exactly when the line is read as setting the key. */
  lemma MatchesIffReads(line: string, ending: string, key: string)
    requires OneLine(line) && IsName(key) && (ending == "" || ending == "\n")
    ensures Matches(line + ending, key) <==> ReadsKey(line, key)
  {
    var s := Unindented(line);
    UnindentedEnding(line, ending);
    ReadsIffAssigns(line, key);
    if s == "" {
      NothingAssignsNothing();
    } else {
      if MatchesUnindented(s + ending, key) { MatchIsAssignment(s, ending, key); }
      if AssignsKey(s, key) { AssignmentMatches(s, ending, key); }
    }
  }

  lemma MatchIsAssignment(s: string, ending: string, key: string)
    requires OneLine(s) && IsName(key) && (ending == "" || ending == "\n") && MatchesUnindented(s + ending, key)
    ensures AssignsKey(s, key)
  {
    var at := MatchSpan(s + ending, key);
    assert (s + ending)[at] == '=' && at < |s|;
    var v := BlanksAfter(s, at);
    NameThenEquals(s, ending, key, at, v);
    Shape(s, |key|, at, v);
    assert s[..|key|] == (s + ending)[..|key|] == key;
  }

  /** A match is the key, blanks, and an equals sign. */
  lemma MatchSpan(t: string, key: string) returns (at: nat)
    requires MatchesUnindented(t, key)
    ensures key <= t && |key| <= at < |t| && t[at] == '=' && forall i :: |key| <= i < at ==> IsBlank(t[i])
  {
    at := |key| + Run(t[|key|..], IsBlank);
    RunSpan(t, |key|, IsBlank);
  }

  lemma BlanksAfter(s: string, at: nat) returns (v: nat)
    requires at < |s|
    ensures at < v <= |s| && (forall i :: at < i < v ==> IsBlank(s[i])) && (v < |s| ==> !IsBlank(s[v]))
  {
    v := at + 1 + Run(s[at + 1..], IsBlank);
    RunSpan(s, at + 1, IsBlank);
  }

  lemma NameThenEquals(s: string, ending: string, key: string, at: nat, v: nat)
    requires IsName(key) && key <= s + ending && |key| <= at < v <= |s| && s[at] == '='
    requires forall i :: |key| <= i < at ==> IsBlank((s + ending)[i])
    requires forall i :: at < i < v ==> IsBlank(s[i])
    ensures Shaped(s, |key|, at, v)
  {
    var t := s + ending;
    assert forall i :: 0 <= i < |s| ==> t[i] == s[i];
    assert forall i :: 0 <= i < |key| ==> t[i] == key[i];
  }

  lemma AssignmentMatches(s: string, ending: string, key: string)
    requires AssignsKey(s, key)
    ensures MatchesUnindented(s + ending, key)
  {
    var t, k, e := s + ending, |key|, EqualsAt(s);
    AssignmentIsShaped(s);
    forall i | 0 <= i < e - k ensures IsBlank(t[k..][i]) { assert t[k..][i] == s[k + i]; }
    assert t[k..][e - k] == '=' && !IsBlank('=');
    RunIs(t[k..], IsBlank, e - k);
  }

  /** The pieces after an edit. */
  function SetPieces(pieces: seq<string>, key: string, value: string): (r: seq<string>)
    requires pieces != []
    ensures r != []
  {
    var newLine := FreshLine(key, value);
    if ReadsKey(pieces[0], key) then (if |pieces| == 1 then [newLine, ""] else [newLine] + pieces[1..])
    else if |pieces| == 1 then (if pieces[0] == "" then [newLine, ""] else [pieces[0], newLine, ""])
    else [pieces[0]] + SetPieces(pieces[1..], key, value)
  }

  lemma ConcatOne(line: string)
    ensures Concat([line]) == line
  {
    assert Concat([line][1..]) == "";
  }

  lemma ConcatCons(line: string, lines: seq<string>)
    ensures Concat([line] + lines) == line + Concat(lines)
  {
    assert ([line] + lines)[1..] == lines;
  }

  lemma JoinedCons(line: string, lines: seq<string>)
    requires lines != []
    ensures Joined([line] + lines) == line + "\n" + Joined(lines)
  {
    assert ([line] + lines)[1..] == lines;
  }

  lemma EditedLast(piece: string, key: string, value: string)
    requires OneLine(piece) && IsName(key)
    ensures Concat(Edited(Kept([piece]), key, FreshLine(key, value) + "\n")) == Joined(SetPieces([piece], key, value))
  {
    var newLine := FreshLine(key, value);
    MatchesIffReads(piece, "", key);
    assert piece + "" == piece;
    JoinedCons(newLine, [""]);
    ConcatOne(newLine + "\n");
    if piece != "" && !Matches(piece, key) {
      JoinedCons(piece, [newLine, ""]);
      ConcatCons(piece + "\n", [newLine + "\n"]);
    } else if piece == "" {
      assert Unindented("") == "";
    }
  }

  /** Editing the line list is editing the pieces. */
  lemma {:induction false} SetInTextIsSetPieces(pieces: seq<string>, key: string, value: string)
    requires pieces != [] && AllClean(pieces) && IsName(key)
    ensures SetInText(Joined(pieces), key, value) == Joined(SetPieces(pieces, key, value))
  {
    SplitKeepJoined(pieces);
    EditedKept(pieces, key, value);
  }

  lemma {:induction false} EditedKept(pieces: seq<string>, key: string, value: string)
    requires pieces != [] && AllClean(pieces) && IsName(key)
    ensures Concat(Edited(Kept(pieces), key, FreshLine(key, value) + "\n")) == Joined(SetPieces(pieces, key, value))
  {
    var newLine := FreshLine(key, value);
    assert OneLine(pieces[0]) by { assert IsBreak('\n'); }
    if |pieces| == 1 {
      assert pieces == [pieces[0]];
      EditedLast(pieces[0], key, value);
    } else {
      var rest := pieces[1..];
      MatchesIffReads(pieces[0], "\n", key);
      if ReadsKey(pieces[0], key) {
        ConcatCons(newLine + "\n", Kept(rest));
        ConcatKept(rest);
        JoinedCons(newLine, rest);
        assert Kept(pieces)[1..] == Kept(rest);
      } else if Kept(rest) == [] {
        assert rest == [""];
        ConcatCons(pieces[0] + "\n", [newLine + "\n"]);
        ConcatOne(newLine + "\n");
        JoinedCons(newLine, [""]);
        JoinedCons(pieces[0], [newLine, ""]);
        EditedLast("", key, value);
      } else {
        EditedKept(rest, key, value);
        assert Kept(pieces)[1..] == Kept(rest) && |Kept(pieces)| > 1;
        ConcatCons(pieces[0] + "\n", Edited(Kept(rest), key, newLine + "\n"));
        JoinedCons(pieces[0], SetPieces(rest, key, value));
      }
    }
  }

  // ---------------------------------------------------------------- what is read

  /** How many lines set a key. */
  function Readers(pieces: seq<string>, key: string): nat {
    if pieces == [] then 0 else (if ReadsKey(pieces[0], key) then 1 else 0) + Readers(pieces[1..], key)
  }

  lemma {:induction false} ReadIffReader(pieces: seq<string>, key: string)
    ensures key in ReadPieces(pieces) <==> Readers(pieces, key) > 0
  {
    if pieces != [] { ReadIffReader(pieces[1..], key); }
  }

  lemma ReadCons(line: string, lines: seq<string>)
    ensures ReadPieces([line] + lines) == Above(line, ReadPieces(lines))
  {
    assert ([line] + lines)[1..] == lines;
  }

  lemma BlankReadsNothing()
    ensures Reading("") == None && ReadPieces([""]) == map[]
  {
    NothingAssignsNothing();
    assert ReadPieces([""][1..]) == map[];
  }

  lemma FreshReads(key: string, value: string, lines: seq<string>)
    requires IsName(key)
    ensures var below := ReadPieces(lines);
            ReadPieces([FreshLine(key, value)] + lines) == if key in below then below else below[key := value]
  {
    FreshLineAssigns(key, value);
    ReadCons(FreshLine(key, value), lines);
  }

  /** The edit sets the key and nothing else if at most one line set it before; if several did, what is
    * read does not change at all, as the last one still wins. */
  lemma {:induction false} SetPiecesReads(pieces: seq<string>, key: string, value: string)
    requires pieces != [] && IsName(key)
    ensures ReadPieces(SetPieces(pieces, key, value))
         == if Readers(pieces, key) <= 1 then ReadPieces(pieces)[key := value] else ReadPieces(pieces)
  {
    var line, rest := pieces[0], pieces[1..];
    ReadIffReader(rest, key);
    if |pieces| == 1 {
      assert pieces == [line];
      SetOnlyPieceReads(line, key, value);
    } else if ReadsKey(line, key) {
      FreshReads(key, value, rest);
      AboveSameKey(line, key, value, ReadPieces(rest));
    } else {
      SetPiecesReads(rest, key, value);
      ReadCons(line, SetPieces(rest, key, value));
      AboveOtherKey(line, key, value, ReadPieces(rest));
    }
  }

  lemma AboveSameKey(line: string, key: string, value: string, below: map<string, string>)
    requires ReadsKey(line, key)
    ensures key in below ==> Above(line, below) == below
    ensures key !in below ==> Above(line, below)[key := value] == below[key := value]
  {
  }

  lemma AboveOtherKey(line: string, key: string, value: string, below: map<string, string>)
    requires !ReadsKey(line, key)
    ensures Above(line, below[key := value]) == Above(line, below)[key := value]
  {
  }

  lemma SetOnlyPieceReads(line: string, key: string, value: string)
    requires IsName(key)
    ensures ReadPieces(SetPieces([line], key, value)) == ReadPieces([line])[key := value]
  {
    BlankReadsNothing();
    FreshReads(key, value, [""]);
    ReadCons(line, []);
    assert [line] + [] == [line];
    if ReadsKey(line, key) {
      AboveSameKey(line, key, value, map[]);
      assert [FreshLine(key, value)] + [""] == [FreshLine(key, value), ""];
    } else {
      AboveOtherKey(line, key, value, map[]);
      ReadCons(line, [FreshLine(key, value), ""]);
      assert [FreshLine(key, value)] + [""] == [FreshLine(key, value), ""];
    }
  }

  /** So the edit is read back exactly when at most one line set the key, or it held the value already. */
  lemma SetReadBackIff(pieces: seq<string>, key: string, value: string)
    requires pieces != [] && AllClean(pieces) && IsName(key)
    ensures var m := ReadPieces(pieces);
            var after := SetPieces(pieces, key, value);
            && SetInText(Joined(pieces), key, value) == Joined(after)
            && ((key in ReadPieces(after) && ReadPieces(after)[key] == value)
                <==> Readers(pieces, key) <= 1 || (key in m && m[key] == value))
  {
    SetInTextIsSetPieces(pieces, key, value);
    SetPiecesReads(pieces, key, value);
    ReadIffReader(pieces, key);
  }
}
