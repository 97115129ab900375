/** `update_env_value` of blueprints/broker_credentials.py: a multi-line pattern substitution over the
 * whole text, and when that is the same as rewriting one line.
 */
module EnvSubstitution {
  import opened Wrappers
  import opened Lines
  import opened EnvText

  /** A match of `^(KEY\s*=\s*).*$` at the start of `t`: where the group and the match end. `\s` crosses
    * line ends, `.` does not. */
  function Match(t: string, key: string): (m: Option<(nat, nat)>)
    ensures m.Some? ==> |key| < m.value.0 <= m.value.1 <= |t|
  {
    if !(key <= t) then None else MatchFrom(t, |key| + Run(t[|key|..], IsBlank))
  }

  /** The rest of a match, from where its equals sign should be. */
  function MatchFrom(t: string, at: nat): (m: Option<(nat, nat)>)
    requires at <= |t|
    ensures m.Some? ==> at < m.value.0 <= m.value.1 <= |t|
  {
    if at == |t| || t[at] != '=' then None
    else
      var p := at + 1 + Run(t[at + 1..], IsBlank);
      Some((p, p + Run(t[p..], NotNewline)))
  }

  /** A text with some replacements made in it. */
  datatype Result = Result(text: string, count: nat)

  function Prepend(text: string, count: nat, r: Result): Result {
    Result(text + r.text, count + r.count)
  }

  lemma PrependTwice(a: string, m: nat, b: string, n: nat, r: Result)
    ensures Prepend(a, m, Prepend(b, n, r)) == Prepend(a + b, m + n, r)
  {
    assert a + (b + r.text) == (a + b) + r.text;
  }

  /** `re.subn` with a group reference followed by `text`; `atStart` says whether a line starts here. */
  function Substituted(t: string, key: string, text: string, atStart: bool): Result
    decreases |t|
  {
    if t == "" then Result("", 0)
    else if atStart && Match(t, key).Some? then
      var (p, end) := Match(t, key).value;
      Prepend(t[..p] + text, 1, Substituted(t[end..], key, text, t[end - 1] == '\n'))
    else
      Prepend([t[0]], 0, Substituted(t[1..], key, text, t[0] == '\n'))
  }

  /** The replacement text before template expansion. */
  function Replacement(value: string): string {
    if '\'' in value then "\"" + Escaped(value) + "\"" else Quoted(value)
  }

  function Escaped(value: string): string {
    if value == "" then ""
    else (if value[0] == '\\' then "\\\\" else if value[0] == '"' then "\\\"" else [value[0]]) + Escaped(value[1..])
  }

  /** Every character after a backslash as it is. */
  function Unescaped(t: string): string {
    if t == "" then ""
    else if t[0] == '\\' && |t| > 1 then [t[1]] + Unescaped(t[2..])
    else [t[0]] + Unescaped(t[1..])
  }

  lemma UnescapedStep(c: char, rest: string)
    ensures Unescaped("\\" + [c] + rest) == [c] + Unescaped(rest)
    ensures c != '\\' ==> Unescaped([c] + rest) == [c] + Unescaped(rest)
  {
    assert ("\\" + [c] + rest)[2..] == rest;
    assert ([c] + rest)[1..] == rest;
  }

  lemma {:induction false} EscapedReadsBack(value: string)
    ensures Unescaped(Escaped(value)) == value
  {
    if value != "" {
      EscapedReadsBack(value[1..]);
      UnescapedStep(value[0], Escaped(value[1..]));
      assert "\\\\" == "\\" + ['\\'] && "\\\"" == "\\" + ['"'];
      assert value == [value[0]] + value[1..];
    }
  }

  /** A value goes between single quotes as it is, unless it holds one: then between double quotes, escaped so
    * that taking the backslashes away gives it back. */
  lemma ReplacementIs(value: string)
    ensures '\'' !in value ==> Replacement(value) == "'" + value + "'"
    ensures '\'' in value ==>
              exists text :: Replacement(value) == "\"" + text + "\"" && Unescaped(text) == value
  {
    EscapedReadsBack(value);
    if '\'' in value { assert Replacement(value) == "\"" + Escaped(value) + "\""; }
  }

  predicate EndsInNewline(t: string) {
    t != "" && t[|t| - 1] == '\n'
  }

  function Terminated(t: string): string {
    if EndsInNewline(t) then t else t + "\n"
  }

  /** `expand` is what template expansion makes of the replacement text; none when it raises. */
  function UpdateEnvValue(content: string, key: string, value: string, expand: string -> Option<string>)
    : Option<string>
  {
    match expand(Replacement(value))
    case None => None
    case Some(text) =>
      var after := Substituted(content, key, text, true);
      if after.count > 0 then Some(after.text)
      else Some(Terminated(after.text) + (key + " = " + Replacement(value) + "\n"))
  }

  /** Expansion leaves text without a backslash alone. */
  ghost predicate ExpandsTemplates(expand: string -> Option<string>) {
    forall text :: '\\' !in text ==> expand(text) == Some(text)
  }

  // ---------------------------------------------------------------- what a match is

  predicate StartsALine(rest: string) {
    rest == "" || rest[0] == '\n'
  }

  /** A run in a text, by position. */
  lemma RunFrom(t: string, from: nat, p: char -> bool, to: nat)
    requires from <= to <= |t| && (forall i :: from <= i < to ==> p(t[i])) && (to < |t| ==> !p(t[to]))
    ensures from + Run(t[from..], p) == to
  {
    var s := t[from..];
    assert forall i :: 0 <= i < |s| ==> s[i] == t[from + i];
    RunIs(s, p, to - from);
  }

  lemma MatchFromAt(t: string, e: nat, v: nat, end: nat)
    requires e < |t| && t[e] == '='
    requires e + 1 + Run(t[e + 1..], IsBlank) == v && v + Run(t[v..], NotNewline) == end
    ensures MatchFrom(t, e) == Some((v, end))
  {
  }

  lemma MatchShaped(t: string, key: string, e: nat, v: nat, end: nat)
    requires Shaped(t, |key|, e, v) && key <= t && (v < |t| ==> !IsBlank(t[v]))
    requires v <= end <= |t| && (forall i :: v <= i < end ==> t[i] != '\n') && (end < |t| ==> t[end] == '\n')
    ensures Match(t, key) == Some((v, end))
  {
    assert |key| + Run(t[|key|..], IsBlank) == e by { RunFrom(t, |key|, IsBlank, e); }
    MatchFromShaped(t, |key|, e, v, end);
  }

  lemma MatchFromShaped(t: string, n: nat, e: nat, v: nat, end: nat)
    requires Shaped(t, n, e, v) && (v < |t| ==> !IsBlank(t[v]))
    requires v <= end <= |t| && (forall i :: v <= i < end ==> t[i] != '\n') && (end < |t| ==> t[end] == '\n')
    ensures MatchFrom(t, e) == Some((v, end))
  {
    assert e + 1 + Run(t[e + 1..], IsBlank) == v by { RunFrom(t, e + 1, IsBlank, v); }
    assert v + Run(t[v..], NotNewline) == end by { RunFrom(t, v, NotNewline, end); }
    MatchFromAt(t, e, v, end);
  }

  lemma MatchOfAssignment(line: string, rest: string, key: string)
    requires OneLine(line) && AssignsKey(line, key) && !HasBlankValue(line) && StartsALine(rest)
    ensures Match(line + rest, key) == Some((ValueAt(line), |line|))
  {
    var t, n, e, v := line + rest, NameLen(line), EqualsAt(line), ValueAt(line);
    AssignmentIsShaped(line);
    assert t[..v] == line[..v];
    SameShape(line, t, n, e, v);
    assert t[v] == line[v] == line[e + 1..][v - e - 1];
    assert forall i :: v <= i < |line| ==> t[i] == line[i];
    MatchShaped(t, key, e, v, |line|);
  }

  lemma NoMatchElsewhere(line: string, rest: string, key: string)
    requires LooseLine(line) && IsName(key) && !AssignsKey(line, key) && StartsALine(rest)
    ensures Match(line + rest, key) == None
  {
    if key <= line + rest {
      KeyInLine(line, rest, key);
      NoMatchInLine(line, rest, key);
    }
  }

  /** A name at the start of a line lies within the line. */
  lemma KeyInLine(line: string, rest: string, key: string)
    requires IsName(key) && StartsALine(rest) && key <= line + rest
    ensures key <= line
  {
    var t, k := line + rest, |key|;
    assert forall i :: 0 <= i < k ==> IsNameChar(t[i]);
    assert k <= |line| by { assert k > |line| ==> t[|line|] == '\n' && !IsNameChar('\n'); }
    assert key == t[..k] == line[..k];
  }

  /** A longer name is no match, and neither is a name that something else than an equals sign follows. */
  lemma NoMatchInLine(line: string, rest: string, key: string)
    requires LooseLine(line) && IsName(key) && !AssignsKey(line, key) && key <= line
    ensures Match(line + rest, key) == None
  {
    var t, k, n := line + rest, |key|, NameLen(line);
    NameIsPrefix(line, key);
    assert n > 0 && EqualsAt(line) < |line|;
    if n == k {
      RunSpan(line, k, IsBlank);
      RunFrom(t, k, IsBlank, EqualsAt(line));
    } else {
      assert IsNameChar(line[k]) && t[k] == line[k];
      RunFrom(t, k, IsBlank, k);
    }
  }

  lemma NameIsPrefix(line: string, key: string)
    requires key <= line && IsName(key)
    ensures NameLen(line) >= |key| && (NameLen(line) == |key| ==> KeyOf(line) == key)
  {
    assert forall i :: 0 <= i < |key| ==> line[i] == key[i];
    if NameLen(line) < |key| { assert false; }
  }

  lemma Step(t: string, key: string, text: string, atStart: bool)
    requires t != "" && (atStart ==> Match(t, key).None?)
    ensures Substituted(t, key, text, atStart) == Prepend([t[0]], 0, Substituted(t[1..], key, text, t[0] == '\n'))
  {
  }

  lemma Take(t: string, rest: string, key: string, text: string, p: nat)
    requires |rest| < |t| && t[|t| - |rest|..] == rest && t[|t| - |rest| - 1] != '\n'
    requires p <= |t| - |rest| && Match(t, key) == Some((p, |t| - |rest|))
    ensures Substituted(t, key, text, true) == Prepend(t[..p] + text, 1, Substituted(rest, key, text, false))
  {
    var end := |t| - |rest|;
    assert Substituted(t, key, text, true)
        == Prepend(t[..p] + text, 1, Substituted(t[end..], key, text, t[end - 1] == '\n'));
  }

  lemma {:induction false} SkipToNewline(s: string, rest: string, key: string, text: string)
    requires OneLine(s)
    ensures Substituted(s + rest, key, text, false) == Prepend(s, 0, Substituted(rest, key, text, false))
  {
    var r := Substituted(rest, key, text, false);
    if s == "" {
      assert s + rest == rest && s + r.text == r.text;
    } else {
      assert (s + rest)[1..] == s[1..] + rest && (s + rest)[0] == s[0];
      Step(s + rest, key, text, false);
      SkipToNewline(s[1..], rest, key, text);
      PrependTwice([s[0]], 0, s[1..], 0, r);
      assert [s[0]] + s[1..] == s;
    }
  }

  // ---------------------------------------------------------------- line by line

  function Updated(line: string, key: string, text: string): string {
    if AssignsKey(line, key) then Rewritten(line, text) else line
  }

  function AllUpdated(pieces: seq<string>, key: string, text: string): seq<string> {
    if pieces == [] then [] else [Updated(pieces[0], key, text)] + AllUpdated(pieces[1..], key, text)
  }

  function Count(pieces: seq<string>, key: string): nat {
    if pieces == [] then 0 else Hits(pieces[0], key) + Count(pieces[1..], key)
  }

  function Hits(line: string, key: string): nat {
    if AssignsKey(line, key) then 1 else 0
  }

  lemma LineHit(line: string, rest: string, key: string, text: string)
    requires OneLine(line) && StartsALine(rest) && AssignsKey(line, key) && !HasBlankValue(line)
    ensures Substituted(line + rest, key, text, true)
         == Prepend(Rewritten(line, text), 1, Substituted(rest, key, text, false))
  {
    var t := line + rest;
    MatchOfAssignment(line, rest, key);
    assert t[|t| - |rest|..] == rest && t[|line| - 1] == line[|line| - 1];
    Take(t, rest, key, text, ValueAt(line));
    assert t[..ValueAt(line)] == line[..ValueAt(line)];
  }

  lemma LineMissed(line: string, rest: string, key: string, text: string)
    requires LooseLine(line) && IsName(key) && StartsALine(rest) && !AssignsKey(line, key)
    ensures Substituted(line + rest, key, text, true) == Prepend(line, 0, Substituted(rest, key, text, false))
  {
    var t := line + rest;
    NoMatchElsewhere(line, rest, key);
    if line == "" {
      assert t == rest;
      StartDoesNotMatter(rest, key, text);
      assert "" + Substituted(rest, key, text, false).text == Substituted(rest, key, text, false).text;
    } else {
      var r := Substituted(rest, key, text, false);
      assert Substituted(t, key, text, true) == Prepend([line[0]], 0, Prepend(line[1..], 0, r)) by {
        assert t[1..] == line[1..] + rest && t[0] == line[0] != '\n';
        Step(t, key, text, true);
        SkipToNewline(line[1..], rest, key, text);
      }
      PrependTwice([line[0]], 0, line[1..], 0, r);
      assert [line[0]] + line[1..] == line;
    }
  }

  lemma StartDoesNotMatter(rest: string, key: string, text: string)
    requires Match(rest, key).None?
    ensures Substituted(rest, key, text, true) == Substituted(rest, key, text, false)
  {
    if rest != "" {
      Step(rest, key, text, true);
      Step(rest, key, text, false);
    }
  }

  lemma SubstitutedLine(line: string, rest: string, key: string, text: string)
    requires LooseLine(line) && IsName(key) && StartsALine(rest)
    requires AssignsKey(line, key) ==> !HasBlankValue(line)
    ensures Substituted(line + rest, key, text, true)
         == Prepend(Updated(line, key, text), Hits(line, key), Substituted(rest, key, text, false))
  {
    if AssignsKey(line, key) { LineHit(line, rest, key, text); } else { LineMissed(line, rest, key, text); }
  }

  lemma OverNewline(t: string, key: string, text: string)
    ensures Substituted("\n" + t, key, text, false) == Prepend("\n", 0, Substituted(t, key, text, true))
  {
    assert ("\n" + t)[1..] == t;
    Step("\n" + t, key, text, false);
  }

  /** No line that assigns the key has a blank right-hand side. */
  predicate NoBlankValue(pieces: seq<string>, key: string) {
    forall i :: 0 <= i < |pieces| ==> AssignsKey(pieces[i], key) ==> !HasBlankValue(pieces[i])
  }

  predicate AllLoose(pieces: seq<string>) {
    forall i :: 0 <= i < |pieces| ==> LooseLine(pieces[i])
  }

  /** One line, then the rest of the file. */
  lemma FirstLine(line: string, rest: string, key: string, text: string)
    requires LooseLine(line) && IsName(key) && (AssignsKey(line, key) ==> !HasBlankValue(line))
    ensures Substituted(line + "\n" + rest, key, text, true)
         == Prepend(Updated(line, key, text) + "\n", Hits(line, key), Substituted(rest, key, text, true))
  {
    var r, after, n := Substituted(rest, key, text, true), Updated(line, key, text), Hits(line, key);
    assert line + "\n" + rest == line + ("\n" + rest);
    assert Substituted("\n" + rest, key, text, false) == Prepend("\n", 0, r) by { OverNewline(rest, key, text); }
    assert Substituted(line + ("\n" + rest), key, text, true) == Prepend(after, n, Prepend("\n", 0, r)) by {
      SubstitutedLine(line, "\n" + rest, key, text);
    }
    PrependTwice(after, n, "\n", 0, r);
  }

  lemma OnlyLine(line: string, key: string, text: string)
    requires LooseLine(line) && IsName(key) && (AssignsKey(line, key) ==> !HasBlankValue(line))
    ensures Substituted(line, key, text, true) == Result(Updated(line, key, text), Hits(line, key))
  {
    SubstitutedLine(line, "", key, text);
    assert line + "" == line && Updated(line, key, text) + "" == Updated(line, key, text);
  }

  lemma UpdatedUnfold(pieces: seq<string>, key: string, text: string)
    requires pieces != []
    ensures var after := AllUpdated(pieces, key, text);
            && |after| == |pieces| && after[0] == Updated(pieces[0], key, text)
            && after[1..] == AllUpdated(pieces[1..], key, text)
  {
    if |pieces| > 1 { UpdatedUnfold(pieces[1..], key, text); }
  }

  /** On a file without bare names, with something to the right of the key, the substitution rewrites exactly
    * the lines that assign it, in place. */
  lemma {:induction false} SubstitutedIsLinewise(pieces: seq<string>, key: string, text: string)
    requires pieces != [] && IsName(key) && AllLoose(pieces) && NoBlankValue(pieces, key)
    ensures Substituted(Joined(pieces), key, text, true)
         == Result(Joined(AllUpdated(pieces, key, text)), Count(pieces, key))
  {
    UpdatedUnfold(pieces, key, text);
    if |pieces| == 1 {
      OnlyLine(pieces[0], key, text);
    } else {
      FirstLine(pieces[0], Joined(pieces[1..]), key, text);
      SubstitutedIsLinewise(pieces[1..], key, text);
    }
  }

  // ---------------------------------------------------------------- where it goes wrong

  lemma ShapedOverBlanks(line: string, blanks: string)
    requires Assigns(line) && HasBlankValue(line) && forall i :: 0 <= i < |blanks| ==> IsBlank(blanks[i])
    ensures Shaped(line + blanks, NameLen(line), EqualsAt(line), |line| + |blanks|)
  {
    var t := line + blanks;
    AssignmentIsShaped(line);
    assert forall i :: 0 <= i < |line| ==> t[i] == line[i];
    assert forall i :: |line| <= i < |line| + |blanks| ==> t[i] == blanks[i - |line|];
  }

  lemma MatchOverBlanks(line: string, blanks: string, victim: string, rest: string, key: string)
    requires OneLine(line) && AssignsKey(line, key) && HasBlankValue(line)
    requires forall i :: 0 <= i < |blanks| ==> IsBlank(blanks[i])
    requires OneLine(victim) && (victim != "" ==> !IsBlank(victim[0])) && (victim == "" ==> rest == "")
    requires StartsALine(rest)
    ensures Match(line + blanks + victim + rest, key) == Some((|line| + |blanks|, |line| + |blanks| + |victim|))
  {
    var head := line + blanks;
    ShapedOverBlanks(line, blanks);
    assert key <= head by { assert head[..|key|] == line[..|key|]; }
    MatchOverHead(head, victim, rest, key, EqualsAt(line));
  }

  /** A match whose group is `head`, of the victim up to the line's end. */
  lemma MatchOverHead(head: string, victim: string, rest: string, key: string, e: nat)
    requires Shaped(head, |key|, e, |head|) && key <= head
    requires OneLine(victim) && (victim != "" ==> !IsBlank(victim[0])) && (victim == "" ==> rest == "")
    requires StartsALine(rest)
    ensures Match(head + victim + rest, key) == Some((|head|, |head| + |victim|))
  {
    var t := head + victim + rest;
    AtEnd(head, victim, rest);
    SameShape(head, t, |key|, e, |head|);
    assert key <= t by { assert t[..|key|] == head[..|key|]; }
    MatchShaped(t, key, e, |head|, |head| + |victim|);
  }

  /** The middle of three texts, by position. */
  lemma AtEnd(a: string, victim: string, rest: string)
    ensures var t, v := a + victim + rest, |a|;
            && (forall i :: v <= i < v + |victim| ==> t[i] == victim[i - v])
            && (rest != "" ==> t[v + |victim|] == rest[0])
            && t[v + |victim|..] == rest && t[..v] == a
  {
  }

  /** Such a match takes the victim away. */
  lemma HeadTakes(head: string, victim: string, rest: string, key: string, text: string, e: nat)
    requires Shaped(head, |key|, e, |head|) && key <= head
    requires OneLine(victim) && victim != "" && !IsBlank(victim[0]) && StartsALine(rest)
    ensures Substituted(head + victim + rest, key, text, true)
         == Prepend(head + text, 1, Substituted(rest, key, text, false))
  {
    var t := head + victim + rest;
    MatchOverHead(head, victim, rest, key, e);
    AtEnd(head, victim, rest);
    assert t[|head| + |victim| - 1] == victim[|victim| - 1];
    Take(t, rest, key, text, |head|);
  }

  lemma BlankValueTakes(line: string, gap: string, victim: string, rest: string, key: string, text: string)
    requires OneLine(line) && AssignsKey(line, key) && HasBlankValue(line)
    requires forall i :: 0 <= i < |gap| ==> IsBlank(gap[i])
    requires OneLine(victim) && victim != "" && !IsBlank(victim[0]) && StartsALine(rest)
    ensures Substituted(line + gap + victim + rest, key, text, true)
         == Prepend(line + gap + text, 1, Substituted(rest, key, text, false))
  {
    ShapedOverBlanks(line, gap);
    assert key <= line + gap by { assert (line + gap)[..|key|] == line[..|key|]; }
    HeadTakes(line + gap, victim, rest, key, text, EqualsAt(line));
  }

  /** A key whose right-hand side is blank takes the next line that is not blank with it: that line, be
    * it another key's, is replaced by the value. */
  lemma BlankValueSwallowsNextLine(line: string, blanks: string, victim: string, rest: string, key: string,
                                   text: string)
    requires OneLine(line) && AssignsKey(line, key) && HasBlankValue(line)
    requires forall i :: 0 <= i < |blanks| ==> IsBlank(blanks[i])
    requires OneLine(victim) && victim != "" && !IsBlank(victim[0]) && StartsALine(rest)
    ensures Substituted(line + ("\n" + blanks) + victim + rest, key, text, true).text
         == line + ("\n" + blanks) + text + Substituted(rest, key, text, false).text
  {
    BlankValueTakes(line, "\n" + blanks, victim, rest, key, text);
  }

  /** A line break and what follows: blanks, one line's worth of text, the rest. */
  lemma AfterNewline(rest: string) returns (gap: string, victim: string, more: string)
    ensures "\n" + rest == gap + victim + more && "\n" <= gap
    ensures forall i :: 0 <= i < |gap| ==> IsBlank(gap[i])
    ensures OneLine(victim) && (victim != "" ==> !IsBlank(victim[0])) && (victim == "" ==> more == "")
    ensures StartsALine(more)
  {
    var r := "\n" + rest;
    var b := Run(r, IsBlank);
    var m := Run(r[b..], NotNewline);
    gap, victim, more := r[..b], r[b..][..m], r[b..][m..];
    assert IsBlank(r[0]) && IsBlank('\n');
  }

  lemma BlankThenMore(line: string, rest: string, key: string, text: string)
    requires OneLine(line) && AssignsKey(line, key) && HasBlankValue(line)
    ensures line + "\n" <= Substituted(line + "\n" + rest, key, text, true).text
  {
    var gap, victim, more := AfterNewline(rest);
    assert line + "\n" + rest == line + ("\n" + rest) == line + gap + victim + more;
    assert line + "\n" <= line + gap;
    if victim == "" {
      NothingAfterBlanks(line, gap, key, text);
      assert line + gap + "" + "" == line + gap;
    } else {
      BlankValueTakes(line, gap, victim, more, key, text);
    }
  }

  lemma NothingAfterBlanks(line: string, gap: string, key: string, text: string)
    requires OneLine(line) && AssignsKey(line, key) && HasBlankValue(line)
    requires forall i :: 0 <= i < |gap| ==> IsBlank(gap[i])
    ensures Substituted(line + gap, key, text, true) == Result(line + gap + text, 1)
  {
    var t := line + gap;
    MatchOverBlanks(line, gap, "", "", key);
    assert line + gap + "" + "" == t;
    assert t[|t|..] == "" && t[..|t|] == t;
    assert t + text + "" == t + text;
  }

  lemma PlainFirst(line: string, pieces: seq<string>, key: string, text: string)
    requires pieces != [] && IsName(key) && LooseLine(line) && (AssignsKey(line, key) ==> !HasBlankValue(line))
    ensures Substituted(line + "\n" + Joined(pieces), key, text, true).text
            == Updated(line, key, text) + "\n" + Joined(AllUpdated(pieces, key, text))
       <==> Substituted(Joined(pieces), key, text, true).text == Joined(AllUpdated(pieces, key, text))
  {
    FirstLine(line, Joined(pieces), key, text);
    SamePrefix(Updated(line, key, text) + "\n", Substituted(Joined(pieces), key, text, true).text,
               Joined(AllUpdated(pieces, key, text)));
  }

  /** The substitution rewrites the lines of the key in place exactly when each of them, the last line of
    * the file aside, has something to the right of the equals sign. */
  lemma {:induction false} RewritesInPlaceIff(pieces: seq<string>, key: string, value: string)
    requires pieces != [] && IsName(key) && AllLoose(pieces)
    ensures Substituted(Joined(pieces), key, Quoted(value), true).text == Joined(AllUpdated(pieces, key, Quoted(value)))
       <==> NoBlankValue(pieces[..|pieces| - 1], key)
  {
    var line, rest, text := pieces[0], pieces[1..], Quoted(value);
    UpdatedUnfold(pieces, key, text);
    if |pieces| == 1 {
      OnlyPieceInPlace(line, key, text);
    } else {
      var early := pieces[..|pieces| - 1];
      assert early[0] == line && early[1..] == rest[..|rest| - 1];
      if AssignsKey(line, key) && HasBlankValue(line) {
        BlankDiffers(line, Joined(rest), key, text, Joined(AllUpdated(rest, key, text)));
      } else {
        RewritesInPlaceIff(rest, key, value);
        PlainFirst(line, rest, key, text);
        NoBlankSplit(early, key);
      }
    }
  }

  lemma OnlyPieceInPlace(line: string, key: string, text: string)
    requires LooseLine(line) && IsName(key)
    ensures Substituted(line, key, text, true).text == Updated(line, key, text)
  {
    if AssignsKey(line, key) && HasBlankValue(line) {
      NothingAfterBlanks(line, "", key, text);
      assert line + "" == line && line[..|line|] == line;
    } else {
      OnlyLine(line, key, text);
    }
  }

  lemma BlankDiffers(line: string, rest: string, key: string, text: string, more: string)
    requires OneLine(line) && AssignsKey(line, key) && HasBlankValue(line) && text != "" && text[0] == '\''
    ensures Substituted(line + "\n" + rest, key, text, true).text != Updated(line, key, text) + "\n" + more
  {
    BlankThenMore(line, rest, key, text);
    assert (line + "\n")[|line|] == '\n';
    assert (Updated(line, key, text) + "\n" + more)[|line|] == '\'';
  }

  lemma SamePrefix(a: string, b: string, c: string)
    ensures a + b == a + c <==> b == c
  {
    if a + b == a + c { assert b == (a + b)[|a|..] && c == (a + c)[|a|..]; }
  }

  lemma NoBlankSplit(pieces: seq<string>, key: string)
    requires pieces != [] && (AssignsKey(pieces[0], key) ==> !HasBlankValue(pieces[0]))
    ensures NoBlankValue(pieces, key) <==> NoBlankValue(pieces[1..], key)
  {
    assert forall i :: 0 <= i < |pieces[1..]| ==> pieces[1..][i] == pieces[i + 1];
    if NoBlankValue(pieces[1..], key) {
      forall i | 0 <= i < |pieces| ensures AssignsKey(pieces[i], key) ==> !HasBlankValue(pieces[i]) {
        if i > 0 { assert pieces[1..][i - 1] == pieces[i]; }
      }
    }
  }

  // ---------------------------------------------------------------- exactly what it does

  function Indent(line: string): string {
    line[..Run(line, IsBlank)]
  }

  /** The file after the substitution: a line of the key with something to its right is rewritten, one with
    * nothing there feeds on the lines below. */
  function Linewise(pieces: seq<string>, key: string, text: string): (r: seq<string>)
    ensures |r| == |pieces|
    decreases |pieces|
  {
    if pieces == [] then []
    else if !AssignsKey(pieces[0], key) then [pieces[0]] + Linewise(pieces[1..], key, text)
    else if !HasBlankValue(pieces[0]) then [Rewritten(pieces[0], text)] + Linewise(pieces[1..], key, text)
    else if |pieces| == 1 then [pieces[0] + text]
    else [pieces[0]] + Fed(pieces[1..], key, text)
  }

  /** The lines below a line of the key with nothing to its right: blank ones stay, the first other one is
    * replaced by the new text, which else ends up on the last line. */
  function Fed(pieces: seq<string>, key: string, text: string): (r: seq<string>)
    ensures |r| == |pieces|
    decreases |pieces|
  {
    if pieces == [] then []
    else if Unindented(pieces[0]) != "" then [Indent(pieces[0]) + text] + Linewise(pieces[1..], key, text)
    else if |pieces| == 1 then [pieces[0] + text]
    else [pieces[0]] + Fed(pieces[1..], key, text)
  }

  /** The lines that are lost this way. */
  function Eaten(pieces: seq<string>, key: string): seq<string>
    decreases |pieces|
  {
    if pieces == [] then []
    else if AssignsKey(pieces[0], key) && HasBlankValue(pieces[0]) then EatenBelow(pieces[1..], key)
    else Eaten(pieces[1..], key)
  }

  function EatenBelow(pieces: seq<string>, key: string): seq<string>
    decreases |pieces|
  {
    if pieces == [] then []
    else if Unindented(pieces[0]) != "" then [pieces[0]] + Eaten(pieces[1..], key)
    else EatenBelow(pieces[1..], key)
  }

  lemma JoinedFirst(pieces: seq<string>)
    requires pieces != []
    ensures Joined(pieces) == pieces[0] + RestText(pieces[1..])
  {
  }

  /** What follows the first line of a file. */
  function RestText(pieces: seq<string>): string {
    if pieces == [] then "" else "\n" + Joined(pieces)
  }

  lemma JoinedPair(line: string, rest: seq<string>)
    ensures Joined([line] + rest) == line + RestText(rest)
  {
    assert ([line] + rest)[1..] == rest;
  }

  /** On any file without bare names, the substitution does exactly that. */
  lemma {:induction false} SubstitutedExactly(pieces: seq<string>, key: string, text: string)
    requires pieces != [] && IsName(key) && AllLoose(pieces)
    ensures Substituted(Joined(pieces), key, text, true).text == Joined(Linewise(pieces, key, text))
    decreases |pieces|, 0
  {
    var line, rest := pieces[0], pieces[1..];
    JoinedFirst(pieces);
    if AssignsKey(line, key) && HasBlankValue(line) {
      if rest == [] {
        NothingAfterBlanks(line, "", key, text);
        assert line + "" == line;
      } else {
        FedExactly(line, "\n", rest, key, text);
        JoinedPair(line, Fed(rest, key, text));
        assert line + "\n" + Joined(rest) == line + ("\n" + Joined(rest));
      }
    } else {
      RestExactly(rest, key, text);
      SubstitutedLine(line, RestText(rest), key, text);
      JoinedPair(Updated(line, key, text), Linewise(rest, key, text));
    }
  }

  lemma {:induction false} RestExactly(rest: seq<string>, key: string, text: string)
    requires IsName(key) && AllLoose(rest)
    ensures Substituted(RestText(rest), key, text, false).text == RestText(Linewise(rest, key, text))
    decreases |rest|, 1
  {
    if rest != [] {
      SubstitutedExactly(rest, key, text);
      OverNewline(Joined(rest), key, text);
    }
  }

  /** From a line of the key with nothing to its right, over the blanks `gap`, to the lines below. */
  lemma {:induction false} FedExactly(line: string, gap: string, rest: seq<string>, key: string, text: string)
    requires OneLine(line) && AssignsKey(line, key) && HasBlankValue(line) && IsName(key)
    requires rest != [] && AllLoose(rest) && forall i :: 0 <= i < |gap| ==> IsBlank(gap[i])
    ensures Substituted(line + gap + Joined(rest), key, text, true).text == line + gap + Joined(Fed(rest, key, text))
    decreases |rest|, 0
  {
    var first, below := rest[0], rest[1..];
    JoinedFirst(rest);
    if Unindented(first) != "" {
      RestExactly(below, key, text);
      EatsFirst(line, gap, first, RestText(below), key, text);
      JoinedPair(Indent(first) + text, Linewise(below, key, text));
      Regroup(line + gap, Indent(first) + text, RestText(Linewise(below, key, text)));
    } else if below == [] {
      AllBlank(first);
      BlankJoin(gap, first);
      NothingAfterBlanks(line, gap + first, key, text);
      Regroup(line, gap, first);
      Regroup(line + gap, first, text);
    } else {
      AllBlank(first);
      BlankJoin(gap, first);
      BlankJoin(gap + first, "\n");
      FedExactly(line, gap + first + "\n", below, key, text);
      JoinedPair(first, Fed(below, key, text));
      OverBlankLine(line, gap, first, Joined(below));
      OverBlankLine(line, gap, first, Joined(Fed(below, key, text)));
    }
  }

  lemma Regroup(a: string, b: string, c: string)
    ensures (a + b) + c == a + (b + c)
  {
  }

  lemma OverBlankLine(line: string, gap: string, first: string, below: string)
    ensures line + (gap + first + "\n") + below == line + gap + (first + ("\n" + below))
  {
  }

  lemma AllBlank(line: string)
    requires Unindented(line) == ""
    ensures forall i :: 0 <= i < |line| ==> IsBlank(line[i])
  {
  }

  lemma BlankJoin(a: string, b: string)
    requires (forall i :: 0 <= i < |a| ==> IsBlank(a[i])) && forall i :: 0 <= i < |b| ==> IsBlank(b[i])
    ensures forall i :: 0 <= i < |a + b| ==> IsBlank((a + b)[i])
  {
  }

  /** The first line that is not blank is taken from its first character to its end. */
  lemma EatsFirst(line: string, gap: string, first: string, more: string, key: string, text: string)
    requires OneLine(line) && AssignsKey(line, key) && HasBlankValue(line)
    requires forall i :: 0 <= i < |gap| ==> IsBlank(gap[i])
    requires OneLine(first) && Unindented(first) != "" && StartsALine(more)
    ensures Substituted(line + gap + (first + more), key, text, true).text
         == line + gap + (Indent(first) + text) + Substituted(more, key, text, false).text
  {
    assert first == Indent(first) + Unindented(first);
    EatsAt(line, gap, Indent(first), Unindented(first), more, key, text);
  }

  lemma EatsAt(line: string, gap: string, indent: string, victim: string, more: string, key: string, text: string)
    requires OneLine(line) && AssignsKey(line, key) && HasBlankValue(line)
    requires (forall i :: 0 <= i < |gap| ==> IsBlank(gap[i])) && forall i :: 0 <= i < |indent| ==> IsBlank(indent[i])
    requires OneLine(victim) && victim != "" && !IsBlank(victim[0]) && StartsALine(more)
    ensures Substituted(line + gap + ((indent + victim) + more), key, text, true).text
         == line + gap + (indent + text) + Substituted(more, key, text, false).text
  {
    BlankJoin(gap, indent);
    BlankValueTakes(line, gap + indent, victim, more, key, text);
    FourJoined(line, gap, indent, victim);
    Regroup(line + gap, indent + victim, more);
    FourJoined(line, gap, indent, text);
  }

  lemma FourJoined(a: string, b: string, c: string, d: string)
    ensures a + (b + c) + d == a + b + (c + d)
  {
  }

  /** It replaces something exactly when some line assigns the key. */
  lemma {:induction false} ReplacesIff(pieces: seq<string>, key: string, text: string)
    requires pieces != [] && IsName(key) && AllLoose(pieces)
    ensures Substituted(Joined(pieces), key, text, true).count > 0 <==> Count(pieces, key) > 0
    decreases |pieces|
  {
    var line, rest := pieces[0], pieces[1..];
    JoinedFirst(pieces);
    if AssignsKey(line, key) && HasBlankValue(line) {
      BlankReplaces(line, RestText(rest), key, text);
    } else {
      SubstitutedLine(line, RestText(rest), key, text);
      if rest != [] {
        ReplacesIff(rest, key, text);
        OverNewline(Joined(rest), key, text);
      }
    }
  }

  lemma BlankReplaces(line: string, rest: string, key: string, text: string)
    requires OneLine(line) && AssignsKey(line, key) && HasBlankValue(line) && StartsALine(rest)
    ensures Substituted(line + rest, key, text, true).count > 0
  {
    if rest == "" {
      NothingAfterBlanks(line, "", key, text);
      assert line + "" == line;
    } else {
      var gap, victim, more := AfterNewline(rest[1..]);
      assert rest == "\n" + rest[1..] && line + rest == line + gap + victim + more;
      if victim == "" {
        NothingAfterBlanks(line, gap, key, text);
        assert line + gap + "" + "" == line + gap;
      } else {
        BlankValueTakes(line, gap, victim, more, key, text);
      }
    }
  }
}
