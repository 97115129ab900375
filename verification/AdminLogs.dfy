/** The log viewers of blueprints/admin.py: the tail window of a JSONL file, and the reverse scan with
 * early exit that both the error viewer and the MCP audit viewer run over it.
 */
module AdminLogs {
  import opened Wrappers
  import opened Text
  import opened Lines
  import opened Positions

  const MAX_TAIL_BYTES := 10 * 1024 * 1024
  const MAX_ERRORS := 200
  const MAX_AUDIT := 500

  // ---------------------------------------------------------------- the tail window

  /** The lines of the last `maxBytes` of a file; no file, or an unreadable one, has none. */
  method TailJsonl(file: Option<string>, maxBytes: nat) returns (lines: seq<string>)
    ensures file.None? ==> lines == []
    ensures file.Some? ==> IsSuffix(lines, SplitLines(file.value))
    ensures file.Some? && |file.value| <= maxBytes ==> lines == SplitLines(file.value)
    ensures file.Some? ==> lines == TailLines(file.value, maxBytes)
  {
    if file.None? { return []; }
    var size := |file.value|;
    if size == 0 { return []; }
    var readSize := if size < maxBytes then size else maxBytes;
    var chunk := file.value[size - readSize..];
    lines := SplitLines(chunk);
    if readSize < size {
      TailIsSuffix(file.value, size - readSize);
      if lines != [] { lines := lines[1..]; }
    } else {
      assert chunk == file.value;
    }
  }

  function TailLines(text: string, maxBytes: nat): seq<string> {
    if |text| <= maxBytes then SplitLines(text) else Rest(SplitLines(text[|text| - maxBytes..]))
  }

  /** Which lines of a larger file the window holds: all that start after the first line break in it, and what
    * comes before is one piece of a line and that break. */
  lemma WindowStartsAfterBreak(text: string, maxBytes: nat) returns (piece: nat, start: nat)
    requires |text| > maxBytes
    ensures |text| - maxBytes <= piece <= start <= |text|
    ensures IsClean(text[|text| - maxBytes..piece]) && (piece < |text| ==> IsBreak(text[piece]))
    ensures var crlf := piece + 1 < |text| && text[piece] == '\r' && text[piece + 1] == '\n';
            start == piece + (if piece == |text| then 0 else if crlf then 2 else 1)
    ensures TailLines(text, maxBytes) == SplitLines(text[start..])
  {
    var cut := |text| - maxBytes;
    var tail := text[cut..];
    piece, start := cut + LineLength(tail), cut + NextLine(tail);
    assert text[cut..piece] == tail[..LineLength(tail)];
    assert tail[NextLine(tail)..] == text[start..];
    if tail != "" { RestOfSplit(tail); }
  }

  // ---------------------------------------------------------------- parsing

  /** What a JSON reader makes of one line: an object, or nothing the viewers look at. */
  type Reader<!E> = string -> Option<E>

  /** The entry on a line; blank and malformed lines have none. */
  function EntryOn<E>(read: Reader<E>, line: string): Option<E> {
    if Strip(line) == "" then None else read(Strip(line))
  }

  function Parsed<E>(read: Reader<E>, lines: seq<string>): seq<E> {
    if lines == [] then []
    else
      var entry := EntryOn(read, lines[0]);
      (if entry.Some? then [entry.value] else []) + Parsed(read, lines[1..])
  }

  function Matching<E>(matches: E -> bool, entries: seq<E>): seq<E> {
    if entries == [] then []
    else (if matches(entries[0]) then [entries[0]] else []) + Matching(matches, entries[1..])
  }

  function Viewed<E, V>(view: E -> V, entries: seq<E>): seq<V> {
    seq(|entries|, i requires 0 <= i < |entries| => view(entries[i]))
  }

  /** The last `n` of a sequence, or all of it. */
  function Last<E>(s: seq<E>, n: nat): seq<E> {
    if |s| <= n then s else s[|s| - n..]
  }

  lemma MatchingCons<E>(matches: E -> bool, e: E, rest: seq<E>)
    ensures Matching(matches, [e] + rest) == (if matches(e) then [e] else []) + Matching(matches, rest)
  {
    assert ([e] + rest)[1..] == rest;
  }

  lemma Regroup<V>(a: seq<V>, b: seq<V>, c: seq<V>)
    ensures (a + b) + c == a + (b + c)
  {
  }

  lemma {:induction false} MatchingAppend<E>(matches: E -> bool, a: seq<E>, b: seq<E>)
    ensures Matching(matches, a + b) == Matching(matches, a) + Matching(matches, b)
  {
    if a == [] {
      assert a + b == b;
    } else {
      assert a + b == [a[0]] + (a[1..] + b) && a == [a[0]] + a[1..];
      MatchingCons(matches, a[0], a[1..] + b);
      MatchingCons(matches, a[0], a[1..]);
      MatchingAppend(matches, a[1..], b);
      Regroup(if matches(a[0]) then [a[0]] else [], Matching(matches, a[1..]), Matching(matches, b));
    }
  }

  function MatchesAt<E>(matches: E -> bool, entries: seq<E>): nat -> bool {
    (i: nat) => i < |entries| && matches(entries[i])
  }

  lemma MatchingLast<E>(matches: E -> bool, entries: seq<E>, n: nat)
    requires n < |entries|
    ensures Matching(matches, entries[..n + 1])
         == Matching(matches, entries[..n]) + if matches(entries[n]) then [entries[n]] else []
  {
    assert entries[..n + 1] == entries[..n] + [entries[n]];
    MatchingAppend(matches, entries[..n], [entries[n]]);
    MatchingCons(matches, entries[n], []);
    assert [entries[n]] + [] == [entries[n]];
  }

  lemma {:induction false} MatchingPositions<E>(matches: E -> bool, entries: seq<E>, n: nat)
    requires n <= |entries|
    ensures MadeAt(Matching(matches, entries[..n]), entries, Numbers(n, MatchesAt(matches, entries)), (e: E) => e)
  {
    if n > 0 {
      MatchingPositions(matches, entries, n - 1);
      MatchingLast(matches, entries, n - 1);
      OneMoreMade(Matching(matches, entries[..n - 1]), entries, Numbers(n - 1, MatchesAt(matches, entries)),
                  (e: E) => e, n - 1);
    }
  }

  /** The matching entries are those at the matching positions, in order and each once. */
  lemma MatchingIs<E>(matches: E -> bool, entries: seq<E>) returns (at: seq<nat>)
    ensures Those(at, |entries|, MatchesAt(matches, entries))
    ensures |Matching(matches, entries)| == |at|
    ensures forall j :: 0 <= j < |at| ==> at[j] < |entries| && Matching(matches, entries)[j] == entries[at[j]]
  {
    at := Numbers(|entries|, MatchesAt(matches, entries));
    NumbersAreThose(|entries|, MatchesAt(matches, entries));
    MatchingPositions(matches, entries, |entries|);
    assert entries[..|entries|] == entries;
  }

  function ParsedLine<E>(read: Reader<E>, line: string): seq<E> {
    if EntryOn(read, line).Some? then [EntryOn(read, line).value] else []
  }

  lemma ParsedCons<E>(read: Reader<E>, line: string, rest: seq<string>)
    ensures Parsed(read, [line] + rest) == ParsedLine(read, line) + Parsed(read, rest)
  {
    assert ([line] + rest)[1..] == rest;
  }

  lemma {:induction false} ParsedAppend<E>(read: Reader<E>, a: seq<string>, b: seq<string>)
    ensures Parsed(read, a + b) == Parsed(read, a) + Parsed(read, b)
  {
    if a == [] {
      assert a + b == b;
    } else {
      assert a + b == [a[0]] + (a[1..] + b) && a == [a[0]] + a[1..];
      ParsedCons(read, a[0], a[1..] + b);
      ParsedCons(read, a[0], a[1..]);
      ParsedAppend(read, a[1..], b);
      Regroup(ParsedLine(read, a[0]), Parsed(read, a[1..]), Parsed(read, b));
    }
  }

  /** A line has an entry if something is on it and it reads as an object. */
  predicate HasEntry<E>(read: Reader<E>, line: string) {
    !AllSpace(line) && read(Strip(line)).Some?
  }

  lemma HasEntryIff<E>(read: Reader<E>, line: string)
    ensures EntryOn(read, line).Some? <==> HasEntry(read, line)
    ensures HasEntry(read, line) ==> EntryOn(read, line) == read(Strip(line))
  {
    BlankIff(line);
  }

  /** The entries of a file are those of its lines that have one, in order and each once. */
  lemma {:induction false} ParsedIs<E>(read: Reader<E>, lines: seq<string>) returns (at: seq<nat>)
    ensures EntriesAt(at, read, lines, Parsed(read, lines))
  {
    if lines == [] {
      at := [];
    } else {
      var n := |lines| - 1;
      var earlier := ParsedIs(read, lines[..n]);
      HasEntryIff(read, lines[n]);
      assert lines == lines[..n] + [lines[n]];
      ParsedAppend(read, lines[..n], [lines[n]]);
      ParsedCons(read, lines[n], []);
      at := OneMoreEntry(earlier, read, lines[..n], Parsed(read, lines[..n]), lines[n]);
    }
  }

  /** These are the positions of the lines that have an entry, in order and each once, and the entries. */
  ghost predicate EntriesAt<E>(at: seq<nat>, read: Reader<E>, lines: seq<string>, entries: seq<E>) {
    && Increasing(at) && |at| == |entries|
    && (forall i: nat :: i in at <==> i < |lines| && HasEntry(read, lines[i]))
    && (forall j :: 0 <= j < |at| ==> at[j] < |lines| && read(Strip(lines[at[j]])) == Some(entries[j]))
  }

  lemma OneMoreEntry<E>(at: seq<nat>, read: Reader<E>, lines: seq<string>, entries: seq<E>, line: string)
    returns (more: seq<nat>)
    requires EntriesAt(at, read, lines, entries)
    ensures EntriesAt(more, read, lines + [line],
                      entries + if HasEntry(read, line) then [read(Strip(line)).value] else [])
  {
    more := at + if HasEntry(read, line) then [|lines|] else [];
    forall i: nat ensures i in more <==> i < |lines| + 1 && HasEntry(read, (lines + [line])[i]) {
    }
  }

  function Reversed<V>(s: seq<V>): seq<V> {
    seq(|s|, i requires 0 <= i < |s| => s[|s| - 1 - i])
  }

  // ---------------------------------------------------------------- the scan

  /** The matches among the lines from `i` on, newest first, as a viewer shows them. */
  function Found<E, V>(read: Reader<E>, matches: E -> bool, view: E -> V, lines: seq<string>): seq<V> {
    Reversed(Viewed(view, Matching(matches, Parsed(read, lines))))
  }

  /** One more line at the front adds its entry, if it has one and it matches, at the end. */
  lemma FoundStep<E, V>(read: Reader<E>, matches: E -> bool, view: E -> V, lines: seq<string>, i: nat)
    requires i < |lines|
    ensures var entry := EntryOn(read, lines[i]);
            && Parsed(read, lines[i..])
               == (if entry.Some? then [entry.value] else []) + Parsed(read, lines[i + 1..])
            && Found(read, matches, view, lines[i..])
               == Found(read, matches, view, lines[i + 1..])
                  + if entry.Some? && matches(entry.value) then [view(entry.value)] else []
  {
    assert lines[i..][1..] == lines[i + 1..];
    var entry := EntryOn(read, lines[i]);
    var rest := Parsed(read, lines[i + 1..]);
    if entry.Some? {
      assert ([entry.value] + rest)[1..] == rest;
      ReversedAdd(Viewed(view, Matching(matches, rest)), view(entry.value));
      assert matches(entry.value) ==>
          Viewed(view, Matching(matches, [entry.value] + rest))
          == [view(entry.value)] + Viewed(view, Matching(matches, rest));
    } else {
      assert Parsed(read, lines[i..]) == rest;
    }
  }

  lemma ReversedAdd<V>(s: seq<V>, v: V)
    ensures Reversed([v] + s) == Reversed(s) + [v]
  {
  }

  /** Looking at the entries from the end until `limit` of them match finds the last `limit` matches. */
  lemma SeenIsEnough<E>(matches: E -> bool, all: seq<E>, seen: seq<E>, limit: nat)
    requires IsTail(seen, all)
    requires |Matching(matches, seen)| == limit || (|Matching(matches, seen)| < limit && seen == all)
    ensures Last(Matching(matches, all), limit) == Matching(matches, seen)
  {
    var unseen := all[..|all| - |seen|];
    assert all == unseen + seen;
    MatchingAppend(matches, unseen, seen);
  }

  predicate IsTail<E(==)>(seen: seq<E>, all: seq<E>) {
    |seen| <= |all| && seen == all[|all| - |seen|..]
  }

  lemma ParsedTail<E>(read: Reader<E>, lines: seq<string>, i: nat)
    requires i <= |lines|
    ensures var all, seen := Parsed(read, lines), Parsed(read, lines[i..]);
            |seen| <= |all| && seen == Last(all, |seen|)
  {
    assert lines == lines[..i] + lines[i..];
    ParsedAppend(read, lines[..i], lines[i..]);
  }

  lemma ReversedTwice<V>(s: seq<V>)
    ensures Reversed(Reversed(s)) == s
  {
  }

  /** Newest first, stop at `limit` matches, then put them back in file order. The result is exactly
    * the last `limit` matching entries, and no entry older than the oldest one returned was looked at. */
  method ScanNewest<E(==), V>(read: Reader<E>, matches: E -> bool, view: E -> V, lines: seq<string>, limit: nat)
    returns (results: seq<V>, scanned: nat)
    requires limit > 0
    ensures results == Viewed(view, Last(Matching(matches, Parsed(read, lines)), limit))
    ensures scanned <= |Parsed(read, lines)|
    ensures scanned < |Parsed(read, lines)| ==>
              var seen := Last(Parsed(read, lines), scanned);
              |Matching(matches, seen)| == limit && seen != [] && matches(seen[0])
  {
    results, scanned := [], 0;
    var i := |lines|;
    assert lines[i..] == [];
    while i > 0 && |results| < limit
      invariant 0 <= i <= |lines|
      invariant scanned == |Parsed(read, lines[i..])|
      invariant results == Found(read, matches, view, lines[i..]) && |results| <= limit
      invariant |results| == limit ==> scanned > 0 && matches(Parsed(read, lines[i..])[0])
      decreases i
    {
      i := i - 1;
      FoundStep(read, matches, view, lines, i);
      var entry := EntryOn(read, lines[i]);
      if entry.None? { continue; }
      scanned := scanned + 1;
      if !matches(entry.value) { continue; }
      results := results + [view(entry.value)];
    }
    ghost var all, seen := Parsed(read, lines), Parsed(read, lines[i..]);
    ParsedTail(read, lines, i);
    if i == 0 { assert lines[0..] == lines; }
    SeenIsEnough(matches, all, seen, limit);
    ReversedTwice(Viewed(view, Matching(matches, seen)));
    results := Reversed(results);
  }

  // ---------------------------------------------------------------- the two viewers

  /** A JSON value as the viewers read it: a text, a list of texts, null, or something that shows as text. */
  datatype Value = Str(text: string) | List(items: seq<string>, text: string) | Null
                 | Scalar(text: string, truthy: bool)

  type Entry = map<string, Value>

  function Shown(v: Value): string {
    if v.Null? then "None" else v.text
  }

  /** The level has to be equal; the query has to occur in the message or in the exception text. */
  predicate ErrorMatches(level: string, query: string, e: Entry) {
    && (level == "" || ("level" in e && e["level"] == Str(level)))
    && (query == ""
        || Contains(Lower(if "message" in e then Shown(e["message"]) else ""), Lower(query))
        || Contains(Lower(ExceptionText(e)), Lower(query)))
  }

  function ExceptionText(e: Entry): string {
    if "exception" !in e then ""
    else
      match e["exception"]
      case List(items, _) => Concat(items)
      case Null => ""
      case Str(text) => text
      case Scalar(text, truthy) => if truthy then text else ""
  }

  /** The tool is matched by substring, whatever its case; scope and outcome have to be equal. */
  predicate AuditMatches(tool: string, scope: string, outcome: string, e: Entry) {
    && (tool == "" || Contains(Lower(if "tool" in e then Shown(e["tool"]) else ""), Lower(tool)))
    && (scope == "" || ("scope" in e && e["scope"] == Str(scope)))
    && (outcome == "" || ("outcome" in e && e["outcome"] == Str(outcome)))
  }

  /** `part` stands somewhere in `text`, in any case. */
  ghost predicate Occurs(part: string, text: string) {
    exists i: nat :: StandsAt(Lower(text), Lower(part), i)
  }

  /** Which entries the error viewer's filters let through: with a level, only those of that level; with a
    * query, only those with the query in the message or the exception, as they show. */
  lemma ErrorFilterIff(level: string, query: string, e: Entry)
    ensures ErrorMatches(level, query, e)
       <==> && (level != "" ==> "level" in e && e["level"] == Str(level))
            && (query != "" ==>
                  || Occurs(query, if "message" !in e then "" else if e["message"] == Null then "None"
                                   else e["message"].text)
                  || Occurs(query, if "exception" !in e || e["exception"] == Null then ""
                                   else if e["exception"].List? then Concat(e["exception"].items)
                                   else if e["exception"].Scalar? && !e["exception"].truthy then ""
                                   else e["exception"].text))
  {
    ContainsIff(Lower(if "message" in e then Shown(e["message"]) else ""), Lower(query));
    ContainsIff(Lower(ExceptionText(e)), Lower(query));
  }

  /** And the audit viewer's: the tool by a part of its name, scope and outcome as they are. */
  lemma AuditFilterIff(tool: string, scope: string, outcome: string, e: Entry)
    ensures AuditMatches(tool, scope, outcome, e)
       <==> && (tool != "" ==> Occurs(tool, if "tool" !in e then "" else if e["tool"] == Null then "None"
                                             else e["tool"].text))
            && (scope != "" ==> "scope" in e && e["scope"] == Str(scope))
            && (outcome != "" ==> "outcome" in e && e["outcome"] == Str(outcome))
  {
    ContainsIff(Lower(if "tool" in e then Shown(e["tool"]) else ""), Lower(tool));
  }

  function Clamped(limit: int, max: nat): nat
    requires max > 0
    ensures 1 <= Clamped(limit, max) <= max
  {
    if limit < 1 then 1 else if limit > max then max else limit
  }

  /** The error viewer: for any file and any requested limit, the last matching entries of the window,
    * in file order, with the window's total. */
  method ErrorsList<V>(read: Reader<Entry>, view: Entry -> V, file: Option<string>, limit: int,
                       level: string, query: string)
    returns (results: seq<V>, scanned: nat, total: nat)
    ensures file.Some? ==>
              var window := Parsed(read, TailLines(file.value, 10_485_760));
              && total == |window| && scanned <= total
              && results == Viewed(view, Last(Matching(e => ErrorMatches(level, query, e), window),
                                           if limit < 1 then 1 else if limit > 200 then 200 else limit))
    ensures file.None? ==> results == [] && total == 0
  {
    var lines := TailJsonl(file, MAX_TAIL_BYTES);
    results, scanned := ScanNewest(read, e => ErrorMatches(level, query, e), view, lines, Clamped(limit, MAX_ERRORS));
    total := |Parsed(read, lines)|;
  }

  /** The audit viewer, over the same window and the same scan. */
  method AuditList<V>(read: Reader<Entry>, view: Entry -> V, file: Option<string>, limit: int,
                      tool: string, scope: string, outcome: string)
    returns (results: seq<V>, scanned: nat, total: nat)
    ensures file.Some? ==>
              var window := Parsed(read, TailLines(file.value, 10_485_760));
              && total == |window| && scanned <= total
              && results == Viewed(view, Last(Matching(e => AuditMatches(tool, scope, outcome, e), window),
                                           if limit < 1 then 1 else if limit > 500 then 500 else limit))
    ensures file.None? ==> results == [] && total == 0
  {
    var lines := TailJsonl(file, MAX_TAIL_BYTES);
    results, scanned := ScanNewest(read, e => AuditMatches(tool, scope, outcome, e), view, lines,
                                   Clamped(limit, MAX_AUDIT));
    total := |Parsed(read, lines)|;
  }
}
