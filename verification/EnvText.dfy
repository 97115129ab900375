/** `.env` text: the pattern the credentials page rewrites a key with, the lines the settings page
 * edits, and a plain reading of the file that both must agree with.
 */
module EnvText {
  import opened Wrappers
  import opened Lines

  /** The characters `\s` matches. */
  predicate IsBlank(c: char) {
    || c == ' ' || '\t' <= c <= '\r' || '\U{001C}' <= c <= '\U{001F}' || c == '\U{0085}' || c == '\U{00A0}'
    || c == '\U{1680}' || '\U{2000}' <= c <= '\U{200A}' || c == '\U{2028}' || c == '\U{2029}'
    || c == '\U{202F}' || c == '\U{205F}' || c == '\U{3000}'
  }

  predicate IsNameChar(c: char) {
    'A' <= c <= 'Z' || 'a' <= c <= 'z' || '0' <= c <= '9' || c == '_'
  }

  predicate NotNewline(c: char) {
    c != '\n'
  }

  predicate OneLine(t: string) {
    '\n' !in t
  }

  predicate IsName(key: string) {
    key != "" && forall i :: 0 <= i < |key| ==> IsNameChar(key[i])
  }

  /** How many leading characters satisfy `p`. */
  function Run(t: string, p: char -> bool): (n: nat)
    ensures n <= |t| && (forall i :: 0 <= i < n ==> p(t[i])) && (n < |t| ==> !p(t[n]))
  {
    if t == "" || !p(t[0]) then 0 else 1 + Run(t[1..], p)
  }

  lemma {:induction false} RunIs(t: string, p: char -> bool, n: nat)
    requires n <= |t| && (forall i :: 0 <= i < n ==> p(t[i])) && (n < |t| ==> !p(t[n]))
    ensures Run(t, p) == n
  {
    if n > 0 { RunIs(t[1..], p, n - 1); }
  }

  /** What a run from a position on spans. */
  lemma RunSpan(t: string, from: nat, p: char -> bool)
    requires from <= |t|
    ensures var to := from + Run(t[from..], p);
            to <= |t| && (forall i :: from <= i < to ==> p(t[i])) && (to < |t| ==> !p(t[to]))
  {
    var s := t[from..];
    assert forall i :: 0 <= i < |s| ==> s[i] == t[from + i];
    forall i | from <= i < from + Run(s, p) ensures p(t[i]) { assert p(s[i - from]); }
  }

  // ---------------------------------------------------------------- one line

  function NameLen(line: string): nat {
    Run(line, IsNameChar)
  }

  function EqualsAt(line: string): (n: nat)
    ensures n <= |line|
  {
    NameLen(line) + Run(line[NameLen(line)..], IsBlank)
  }

  /** The line starts with a name, blanks and an equals sign. */
  predicate Assigns(line: string) {
    NameLen(line) > 0 && EqualsAt(line) < |line| && line[EqualsAt(line)] == '='
  }

  function KeyOf(line: string): string {
    line[..NameLen(line)]
  }

  predicate AssignsKey(line: string, key: string) {
    Assigns(line) && KeyOf(line) == key
  }

  /** Where the right-hand side starts. */
  function ValueAt(line: string): (n: nat)
    requires Assigns(line)
    ensures EqualsAt(line) < n <= |line|
  {
    EqualsAt(line) + 1 + Run(line[EqualsAt(line) + 1..], IsBlank)
  }

  predicate HasBlankValue(line: string) {
    Assigns(line) && ValueAt(line) == |line|
  }

  function TrimRight(t: string): string {
    if t == "" then "" else if IsBlank(t[|t| - 1]) then TrimRight(t[..|t| - 1]) else t
  }

  function Unquoted(t: string): string {
    if |t| >= 2 && t[0] == '\'' == t[|t| - 1] then t[1..|t| - 1] else t
  }

  function Unindented(line: string): string {
    line[Run(line, IsBlank)..]
  }

  /** What a line says: a key and its value, the single quotes taken off. */
  function Reading(line: string): Option<(string, string)> {
    var s := Unindented(line);
    if Assigns(s) then Some((KeyOf(s), Unquoted(TrimRight(s[ValueAt(s)..])))) else None
  }

  /** A line is blank, a comment, or an assignment that is not indented. */
  predicate PlainLine(line: string) {
    OneLine(line) && (Unindented(line) == "" || Unindented(line)[0] == '#' || Assigns(line))
  }

  /** Any line that is not a bare name, which an equals sign below it would complete. */
  predicate LooseLine(line: string) {
    OneLine(line) && (NameLen(line) == 0 || EqualsAt(line) < |line|)
  }

  lemma PlainIsLoose(line: string)
    requires PlainLine(line)
    ensures LooseLine(line)
  {
    if line != "" && IsNameChar(line[0]) { RunIs(line, IsBlank, 0); }
  }

  // ---------------------------------------------------------------- the file as lines

  /** The pieces between newlines; a file that ends in a newline has an empty last piece. */
  function Pieces(t: string): (r: seq<string>)
    ensures r != [] && (forall i :: 0 <= i < |r| ==> OneLine(r[i])) && Joined(r) == t
  {
    var n := Run(t, NotNewline);
    if n == |t| then [t]
    else
      var rest := Pieces(t[n + 1..]);
      assert t == t[..n] + "\n" + t[n + 1..];
      assert ([t[..n]] + rest)[1..] == rest;
      [t[..n]] + rest
  }

  lemma {:induction false} PiecesOfJoined(pieces: seq<string>)
    requires pieces != [] && forall i :: 0 <= i < |pieces| ==> OneLine(pieces[i])
    ensures Pieces(Joined(pieces)) == pieces
  {
    var t := Joined(pieces);
    RunIs(t, NotNewline, |pieces[0]|);
    if |pieces| == 1 {
      assert pieces == [pieces[0]];
    } else {
      assert t == pieces[0] + "\n" + Joined(pieces[1..]);
      assert t[|pieces[0]| + 1..] == Joined(pieces[1..]) && t[..|pieces[0]|] == pieces[0];
      assert pieces == [pieces[0]] + pieces[1..];
      PiecesOfJoined(pieces[1..]);
    }
  }

  /** What a line and the settings of the lines below it say together. */
  function Above(line: string, below: map<string, string>): map<string, string> {
    Said(Reading(line), below)
  }

  function Said(reading: Option<(string, string)>, below: map<string, string>): map<string, string> {
    match reading
    case Some((key, value)) => if key in below then below else below[key := value]
    case None => below
  }

  /** The settings of some lines, each read by `read`; the last line for a key wins. */
  function ReadBy(pieces: seq<string>, read: string -> Option<(string, string)>): map<string, string> {
    if pieces == [] then map[] else Said(read(pieces[0]), ReadBy(pieces[1..], read))
  }

  lemma {:induction false} ReadByAppend(pieces: seq<string>, tail: seq<string>, key: string, value: string,
                                        read: string -> Option<(string, string)>)
    requires ReadBy(tail, read) == map[key := value]
    ensures ReadBy(pieces + tail, read) == ReadBy(pieces, read)[key := value]
  {
    if pieces == [] {
      assert [] + tail == tail;
    } else {
      assert (pieces + tail)[1..] == pieces[1..] + tail;
      ReadByAppend(pieces[1..], tail, key, value, read);
    }
  }

  /** The settings a file holds. */
  function ReadPieces(pieces: seq<string>): map<string, string> {
    ReadBy(pieces, Reading)
  }

  function ReadEnv(t: string): map<string, string> {
    ReadPieces(Pieces(t))
  }

  predicate ReadsKey(line: string, key: string) {
    Reading(line).Some? && Reading(line).value.0 == key
  }

  /** A value both editors write between single quotes as it is. */
  predicate PlainValue(value: string) {
    '\'' !in value && '\\' !in value && IsClean(value)
  }

  function Quoted(value: string): string {
    "'" + value + "'"
  }

  lemma QuotedIsUnquoted(value: string)
    ensures Unquoted(TrimRight(Quoted(value))) == value
  {
    var q := Quoted(value);
    assert q[|q| - 1] == '\'';
    assert q[1..|q| - 1] == value;
  }

  /** A name, blanks, an equals sign at `e`, blanks up to `v`. */
  ghost predicate Shaped(t: string, n: nat, e: nat, v: nat) {
    && 0 < n <= e < v <= |t| && t[e] == '='
    && (forall i :: 0 <= i < n ==> IsNameChar(t[i]))
    && (forall i :: n <= i < e ==> IsBlank(t[i]))
    && (forall i :: e < i < v ==> IsBlank(t[i]))
  }

  lemma AssignmentIsShaped(line: string)
    requires Assigns(line)
    ensures Shaped(line, NameLen(line), EqualsAt(line), ValueAt(line))
  {
    var n, e, v := NameLen(line), EqualsAt(line), ValueAt(line);
    forall i | n <= i < e ensures IsBlank(line[i]) { assert line[n..][i - n] == line[i]; }
    forall i | e < i < v ensures IsBlank(line[i]) { assert line[e + 1..][i - e - 1] == line[i]; }
  }

  lemma SameShape(a: string, b: string, n: nat, e: nat, v: nat)
    requires Shaped(a, n, e, v) && v <= |b| && a[..v] == b[..v]
    ensures Shaped(b, n, e, v)
  {
    assert forall i :: 0 <= i < v ==> b[..v][i] == b[i] && a[..v][i] == a[i];
  }

  /** A line of this shape is an assignment, and its parts are where they seem. */
  lemma Shape(t: string, n: nat, e: nat, v: nat)
    requires Shaped(t, n, e, v) && (v < |t| ==> !IsBlank(t[v]))
    ensures Assigns(t) && NameLen(t) == n && EqualsAt(t) == e && ValueAt(t) == v
  {
    RunIs(t, IsNameChar, n);
    RunIs(t[n..], IsBlank, e - n);
    RunIs(t[e + 1..], IsBlank, v - e - 1);
  }

  lemma AssignmentIsUnindented(t: string)
    requires Assigns(t)
    ensures Unindented(t) == t
  {
    RunIs(t, IsBlank, 0);
  }

  lemma ReadingOfQuoted(t: string, value: string)
    requires Assigns(t) && t[ValueAt(t)..] == Quoted(value)
    ensures Reading(t) == Some((KeyOf(t), value))
  {
    AssignmentIsUnindented(t);
    QuotedIsUnquoted(value);
  }

  /** The line with its right-hand side rewritten. */
  function Rewritten(line: string, text: string): string
    requires Assigns(line)
  {
    line[..ValueAt(line)] + text
  }

  lemma RewrittenShape(line: string, text: string)
    requires Assigns(line) && text != "" && !IsBlank(text[0])
    ensures var after := Rewritten(line, text);
            && Assigns(after) && NameLen(after) == NameLen(line) && ValueAt(after) == ValueAt(line)
            && EqualsAt(after) == EqualsAt(line)
  {
    var after := Rewritten(line, text);
    var v := ValueAt(line);
    assert after[v] == text[0] && after[..v] == line[..v];
    AssignmentIsShaped(line);
    SameShape(line, after, NameLen(line), EqualsAt(line), v);
    Shape(after, NameLen(line), EqualsAt(line), v);
  }

  /** Rewriting the right-hand side of an assignment keeps its key and start, and reads as the value. */
  lemma RewrittenLine(line: string, value: string)
    requires Assigns(line)
    ensures var after := Rewritten(line, Quoted(value));
            && Assigns(after) && KeyOf(after) == KeyOf(line) && ValueAt(after) == ValueAt(line)
            && Reading(after) == Some((KeyOf(line), value))
  {
    var after := Rewritten(line, Quoted(value));
    RewrittenShape(line, Quoted(value));
    assert after[ValueAt(line)..] == Quoted(value) && after[..NameLen(line)] == line[..NameLen(line)];
    ReadingOfQuoted(after, value);
  }

  function FreshLine(key: string, value: string): string {
    key + " = " + Quoted(value)
  }

  lemma FreshLineAssigns(key: string, value: string)
    requires IsName(key)
    ensures AssignsKey(FreshLine(key, value), key) && ValueAt(FreshLine(key, value)) == |key| + 3
    ensures Reading(FreshLine(key, value)) == Some((key, value))
  {
    var line := FreshLine(key, value);
    var k := |key|;
    assert line[k] == ' ' && line[k + 1] == '=' && line[k + 2] == ' ' && line[k + 3] == '\'';
    assert line[k + 3..] == Quoted(value) && line[..k] == key;
    Shape(line, k, k + 1, k + 3);
    ReadingOfQuoted(line, value);
  }
}
