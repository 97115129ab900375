/** Text files as lines: `str.splitlines`, joining, and what splitting the tail of a text gives. */
module Lines {

  /** The characters `str.splitlines` ends a line at. */
  predicate IsBreak(c: char) {
    || c == '\n' || c == '\r' || c == '\U{000B}' || c == '\U{000C}'
    || c == '\U{001C}' || c == '\U{001D}' || c == '\U{001E}' || c == '\U{0085}'
    || c == '\U{2028}' || c == '\U{2029}'
  }

  predicate IsClean(line: string) {
    forall i :: 0 <= i < |line| ==> !IsBreak(line[i])
  }

  predicate AllClean(lines: seq<string>) {
    forall i :: 0 <= i < |lines| ==> IsClean(lines[i])
  }

  /** The length of the first line, its break not counted. */
  function LineLength(t: string): (n: nat)
    ensures n <= |t| && IsClean(t[..n]) && (n < |t| ==> IsBreak(t[n]))
  {
    if t == "" || IsBreak(t[0]) then 0
    else
      var n := 1 + LineLength(t[1..]);
      assert t[..n] == [t[0]] + t[1..][..n - 1];
      n
  }

  /** Where the second line starts: a carriage return and a newline are one break. */
  function NextLine(t: string): (n: nat)
    ensures n <= |t| && (t != "" ==> n > 0)
  {
    var n := LineLength(t);
    if n == |t| then n
    else if t[n] == '\r' && n + 1 < |t| && t[n + 1] == '\n' then n + 2
    else n + 1
  }

  function SplitLines(t: string): seq<string> {
    if t == "" then [] else [t[..LineLength(t)]] + SplitLines(t[NextLine(t)..])
  }

  /** Every line followed by a newline. */
  function JoinLines(lines: seq<string>): string {
    if lines == [] then "" else lines[0] + "\n" + JoinLines(lines[1..])
  }

  /** `separator.join(lines)` for a newline. */
  function Joined(lines: seq<string>): string {
    if lines == [] then "" else if |lines| == 1 then lines[0] else lines[0] + "\n" + Joined(lines[1..])
  }

  lemma {:induction false} JoinedThenNewline(lines: seq<string>)
    requires lines != []
    ensures Joined(lines) + "\n" == JoinLines(lines)
  {
    if |lines| == 1 {
      assert JoinLines(lines[1..]) == "";
    } else {
      JoinedThenNewline(lines[1..]);
      assert Joined(lines) + "\n" == lines[0] + "\n" + (Joined(lines[1..]) + "\n");
    }
  }

  /** The parts one after the other. */
  function Concat(parts: seq<string>): string {
    if parts == [] then "" else parts[0] + Concat(parts[1..])
  }

  lemma {:induction false} ConcatAppend(parts: seq<string>, part: string)
    ensures Concat(parts + [part]) == Concat(parts) + part
  {
    if parts == [] {
      assert [] + [part] == [part] && Concat([part][1..]) == "";
    } else {
      assert (parts + [part])[1..] == parts[1..] + [part];
      ConcatAppend(parts[1..], part);
    }
  }

  lemma {:induction false} LineLengthOf(line: string, rest: string)
    requires IsClean(line) && (rest == "" || IsBreak(rest[0]))
    ensures LineLength(line + rest) == |line|
  {
    if line == "" {
      assert line + rest == rest;
    } else {
      assert (line + rest)[1..] == line[1..] + rest;
      LineLengthOf(line[1..], rest);
    }
  }

  /** Splitting joined lines gives them back. */
  lemma {:induction false} SplitJoined(lines: seq<string>)
    requires forall i :: 0 <= i < |lines| ==> IsClean(lines[i])
    ensures SplitLines(JoinLines(lines)) == lines
  {
    if lines != [] {
      var rest := "\n" + JoinLines(lines[1..]);
      var t := lines[0] + rest;
      assert JoinLines(lines) == t;
      LineLengthOf(lines[0], rest);
      assert t[|lines[0]|] == '\n';
      assert t[NextLine(t)..] == JoinLines(lines[1..]);
      SplitJoined(lines[1..]);
    }
  }

  lemma {:induction false} JoinAppend(lines: seq<string>, line: string)
    ensures JoinLines(lines + [line]) == JoinLines(lines) + line + "\n"
  {
    if lines == [] {
      assert [] + [line] == [line];
      assert JoinLines([line][1..]) == "";
    } else {
      assert (lines + [line])[1..] == lines[1..] + [line];
      JoinAppend(lines[1..], line);
    }
  }

  predicate IsSuffix(a: seq<string>, b: seq<string>) {
    |a| <= |b| && a == b[|b| - |a|..]
  }

  function Rest(lines: seq<string>): seq<string> {
    if lines == [] then [] else lines[1..]
  }

  lemma CutInsideLine(t: string, cut: nat)
    requires 0 < cut <= LineLength(t)
    ensures LineLength(t[cut..]) == LineLength(t) - cut
  {
    var n := LineLength(t);
    assert t[cut..] == t[cut..n] + t[n..];
    assert forall i :: 0 <= i < n - cut ==> t[cut..n][i] == t[..n][cut + i];
    LineLengthOf(t[cut..n], t[n..]);
  }

  /** A cut inside the first line, or inside its break, leaves the start of the second line in place. */
  lemma CutKeepsNextLine(t: string, cut: nat)
    requires 0 < cut < NextLine(t) && cut < |t|
    ensures NextLine(t[cut..]) == NextLine(t) - cut
  {
    if cut <= LineLength(t) {
      CutInsideLine(t, cut);
    } else {
      assert cut == LineLength(t) + 1 && t[cut..][0] == '\n';
      assert LineLength(t[cut..]) == 0;
    }
  }

  lemma RestIsSuffix(lines: seq<string>)
    ensures IsSuffix(Rest(lines), lines)
  {
  }

  lemma RestOfSplit(t: string)
    requires t != ""
    ensures Rest(SplitLines(t)) == SplitLines(t[NextLine(t)..])
  {
  }

  lemma CutInFirstLine(t: string, cut: nat)
    requires 0 < cut < NextLine(t) && cut < |t|
    ensures Rest(SplitLines(t[cut..])) == SplitLines(t[NextLine(t)..])
  {
    var tail := t[cut..];
    CutKeepsNextLine(t, cut);
    assert tail[NextLine(tail)..] == t[NextLine(t)..];
    RestOfSplit(tail);
  }

  lemma SuffixOfRest(a: seq<string>, b: seq<string>)
    requires IsSuffix(a, Rest(b))
    ensures IsSuffix(a, b)
  {
  }

  /** Cut a text anywhere but at its start: once the first line of what is left is dropped, the lines
    * are the last lines of the whole text. Even a cut inside a line or between the two characters of
    * a break never leaves a partial line behind. */
  lemma {:induction false} TailIsSuffix(t: string, cut: nat)
    requires 0 < cut <= |t|
    ensures IsSuffix(Rest(SplitLines(t[cut..])), SplitLines(t))
    decreases |t|
  {
    var m := NextLine(t);
    if cut == |t| {
      assert t[cut..] == "";
    } else if cut < m {
      CutInFirstLine(t, cut);
      RestOfSplit(t);
      RestIsSuffix(SplitLines(t));
    } else {
      assert t[m..][cut - m..] == t[cut..];
      if cut > m { TailIsSuffix(t[m..], cut - m); } else { RestIsSuffix(SplitLines(t[cut..])); }
      RestOfSplit(t);
      SuffixOfRest(Rest(SplitLines(t[cut..])), SplitLines(t));
    }
  }
}
