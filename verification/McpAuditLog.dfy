/** The rotating audit log of blueprints/mcp_http.py: one line per entry, the oldest lines dropped
 * once the file is both too large and too long.
 */
module McpAuditLog {
  import opened Lines

  const MAX_LINES := 5000
  const TRIM_SIZE := 2_000_000

  /** What may go wrong in one write: the line is not appended, or the file cannot be measured or read
    * back for trimming. Both are swallowed. */
  datatype Fault = NoFault | AppendFails | TrimFails

  datatype Write = Write(entry: string, fault: Fault)

  /** The lines left when a log of these lines is measured and perhaps trimmed. */
  function Trimmed(lines: seq<string>): seq<string> {
    if |JoinLines(lines)| <= TRIM_SIZE || |lines| <= MAX_LINES then lines else lines[|lines| - MAX_LINES..]
  }

  /** The lines of the log after one write. */
  function Logged(lines: seq<string>, w: Write): seq<string> {
    match w.fault
    case AppendFails => lines
    case TrimFails => lines + [w.entry]
    case NoFault => Trimmed(lines + [w.entry])
  }

  /** The log file. */
  class AuditLog {
    var file: string

    ghost predicate Holds(lines: seq<string>)
      reads this
    {
      AllClean(lines) && file == JoinLines(lines)
    }

    constructor ()
      ensures Holds([])
    {
      file := "";
    }

    /** An entry is one JSON object printed in ASCII, which holds no line break. */
    method Append(w: Write, ghost lines: seq<string>)
      requires Holds(lines) && IsClean(w.entry)
      modifies this
      ensures Holds(Logged(lines, w))
    {
      if w.fault.AppendFails? { return; }
      JoinAppend(lines, w.entry);
      file := file + w.entry + "\n";
      if w.fault.TrimFails? { return; }
      Trim(lines + [w.entry]);
    }

    method Trim(ghost lines: seq<string>)
      requires Holds(lines)
      modifies this
      ensures Holds(Trimmed(lines))
    {
      if |file| <= TRIM_SIZE { return; }
      SplitJoined(lines);
      var read := SplitLines(file);
      if |read| > MAX_LINES {
        var last := read[|read| - MAX_LINES..];
        JoinedThenNewline(last);
        file := Joined(last) + "\n";
      }
    }
  }

  // ---------------------------------------------------------------- runs

  /** The lines after a run of writes that starts from an empty file. */
  function Run(writes: seq<Write>): seq<string> {
    if writes == [] then [] else Logged(Run(writes[..|writes| - 1]), writes[|writes| - 1])
  }

  /** Every entry that reached the file, oldest first. */
  function History(writes: seq<Write>): seq<string> {
    if writes == [] then []
    else
      var w := writes[|writes| - 1];
      History(writes[..|writes| - 1]) + if w.fault.AppendFails? then [] else [w.entry]
  }

  function Min(a: int, b: int): int {
    if a < b then a else b
  }

  /** At all times the log is the end of the entry history, with at least the last 5000 entries. */
  lemma {:induction false} LogIsRecentHistory(writes: seq<Write>)
    ensures IsSuffix(Run(writes), History(writes))
    ensures |Run(writes)| >= Min(|History(writes)|, 5000)
  {
    if writes != [] {
      var before := writes[..|writes| - 1];
      LogIsRecentHistory(before);
      LoggedIsRecent(Run(before), History(before), writes[|writes| - 1]);
    }
  }

  /** One write keeps the log the recent end of what reached the file. */
  lemma LoggedIsRecent(lines: seq<string>, history: seq<string>, w: Write)
    requires IsSuffix(lines, history) && |lines| >= Min(|history|, MAX_LINES)
    ensures var after := history + if w.fault.AppendFails? then [] else [w.entry];
            IsSuffix(Logged(lines, w), after) && |Logged(lines, w)| >= Min(|after|, MAX_LINES)
  {
    if w.fault.AppendFails? {
      assert history + [] == history;
    } else {
      SuffixAppend(lines, history, w.entry);
      TrimmedIsSuffix(lines + [w.entry]);
      SuffixOfSuffix(Trimmed(lines + [w.entry]), lines + [w.entry], history + [w.entry]);
    }
  }

  lemma SuffixAppend(a: seq<string>, b: seq<string>, entry: string)
    requires IsSuffix(a, b)
    ensures IsSuffix(a + [entry], b + [entry])
  {
  }

  lemma SuffixOfSuffix(a: seq<string>, b: seq<string>, c: seq<string>)
    requires IsSuffix(a, b) && IsSuffix(b, c)
    ensures IsSuffix(a, c)
  {
  }

  lemma TrimmedIsSuffix(lines: seq<string>)
    ensures IsSuffix(Trimmed(lines), lines) && |Trimmed(lines)| >= Min(|lines|, MAX_LINES)
  {
  }

  /** So an entry that was just written is the last line of the log. */
  lemma NewestIsLast(writes: seq<Write>)
    requires writes != [] && !writes[|writes| - 1].fault.AppendFails?
    ensures Run(writes) != [] && Run(writes)[|Run(writes)| - 1] == writes[|writes| - 1].entry
  {
    LogIsRecentHistory(writes);
  }

  /** A write loses lines exactly when it leaves the file over the size and over the line bound, and
    * its measuring works: a log of small entries is not trimmed to 5000 lines on every write. */
  lemma TrimmedIff(lines: seq<string>, w: Write)
    requires w.fault != AppendFails
    ensures Logged(lines, w) != lines + [w.entry]
       <==> w.fault == NoFault && |JoinLines(lines)| + |w.entry| + 1 > 2_000_000 && |lines| >= 5000
  {
    JoinAppend(lines, w.entry);
  }

  lemma {:induction false} SizeOfShortLines(lines: seq<string>, width: nat, most: nat)
    requires forall i :: 0 <= i < |lines| ==> |lines[i]| <= width
    requires |lines| <= most
    ensures |JoinLines(lines)| <= most * (width + 1)
  {
    if lines != [] {
      SizeOfShortLines(lines[1..], width, most - 1);
      assert most * (width + 1) == (most - 1) * (width + 1) + (width + 1);
    }
  }

  lemma {:induction false} HistoryIsNarrow(writes: seq<Write>, width: nat)
    requires forall i :: 0 <= i < |writes| ==> |writes[i].entry| <= width
    ensures forall i :: 0 <= i < |History(writes)| ==> |History(writes)[i]| <= width
  {
    if writes != [] {
      HistoryIsNarrow(writes[..|writes| - 1], width);
    }
  }

  lemma LinesAreNarrow(writes: seq<Write>, width: nat)
    requires forall i :: 0 <= i < |writes| ==> |writes[i].entry| <= width
    ensures forall i :: 0 <= i < |Run(writes)| ==> |Run(writes)[i]| <= width
  {
    HistoryIsNarrow(writes, width);
    LogIsRecentHistory(writes);
  }

  /** After a write that is not hindered, the log is within the size bound or the line bound. */
  lemma EitherBoundHolds(lines: seq<string>, w: Write)
    requires w.fault == NoFault
    ensures |JoinLines(Logged(lines, w))| <= 2_000_000 || |Logged(lines, w)| <= 5000
  {
    JoinAppend(lines, w.entry);
  }

  /** A client cannot fill the disk: while trimming works, the file never outgrows the larger of the
    * size bound and 5000 of its widest lines, however many entries are written. */
  lemma {:induction false} FileIsBounded(writes: seq<Write>, width: nat)
    requires forall i :: 0 <= i < |writes| ==> |writes[i].entry| <= width && !writes[i].fault.TrimFails?
    ensures |JoinLines(Run(writes))| <= 2_000_000 || |JoinLines(Run(writes))| <= 5000 * (width + 1)
  {
    if writes != [] {
      var before, w := writes[..|writes| - 1], writes[|writes| - 1];
      if w.fault.AppendFails? {
        FileIsBounded(before, width);
      } else {
        EitherBoundHolds(Run(before), w);
        LinesAreNarrow(writes, width);
        if |Run(writes)| <= MAX_LINES { SizeOfShortLines(Run(writes), width, MAX_LINES); }
      }
    }
  }

  function Repeated(entry: string, n: nat): seq<Write> {
    seq(n, _ => Write(entry, NoFault))
  }

  lemma {:induction false} RepeatedRun(entry: string, n: nat)
    requires n * (|entry| + 1) <= TRIM_SIZE
    ensures |Run(Repeated(entry, n))| == n && |JoinLines(Run(Repeated(entry, n)))| == n * (|entry| + 1)
  {
    if n > 0 {
      assert Repeated(entry, n)[..n - 1] == Repeated(entry, n - 1);
      assert n * (|entry| + 1) == (n - 1) * (|entry| + 1) + (|entry| + 1);
      RepeatedRun(entry, n - 1);
      JoinAppend(Run(Repeated(entry, n - 1)), entry);
    }
  }

  /** Entries of 199 characters: ten thousand of them are all kept. */
  lemma TenThousandLinesAreKept(entry: string)
    requires |entry| == 199
    ensures |Run(Repeated(entry, 10_000))| == 10_000 > MAX_LINES
  {
    RepeatedRun(entry, 10_000);
  }
}
