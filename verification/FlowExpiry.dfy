/** Expiry codes of blueprints/flow.py: normalising the formats brokers return to DDMMMYY, sorting
 * them chronologically, and choosing the expiry a strike list is built for. */
module FlowExpiry {
  import opened Wrappers
  import opened Text

  // ---------------------------------------------------------------- dates

  datatype Date = Date(year: nat, month: nat, day: nat)

  const MONTHS: seq<string> :=
    ["JAN", "FEB", "MAR", "APR", "MAY", "JUN", "JUL", "AUG", "SEP", "OCT", "NOV", "DEC"]

  predicate Leap(year: nat) {
    year % 4 == 0 && (year % 100 != 0 || year % 400 == 0)
  }

  function DaysIn(year: nat, month: nat): nat {
    if month == 2 then (if Leap(year) then 29 else 28)
    else if month == 4 || month == 6 || month == 9 || month == 11 then 30
    else 31
  }

  predicate Valid(d: Date) {
    1 <= d.year <= 9999 && 1 <= d.month <= 12 && 1 <= d.day <= DaysIn(d.year, d.month)
  }

  predicate Before(a: Date, b: Date) {
    a.year < b.year || (a.year == b.year && (a.month < b.month || (a.month == b.month && a.day < b.day)))
  }

  /** The year a two-digit year stands for. */
  function Century(yy: nat): nat {
    if yy < 69 then 2000 + yy else 1900 + yy
  }

  // ---------------------------------------------------------------- parsing and printing

  /** How many characters the day takes: two if they read 01 to 31, else one if it is 1 to 9. */
  function DayLength(t: string): (n: nat)
    ensures n <= 2 && n <= |t| && forall i :: 0 <= i < n ==> IsDigit(t[i])
  {
    if |t| >= 2 && IsDigit(t[0]) && IsDigit(t[1]) && 1 <= Number(t[..2]) <= 31 then 2
    else if |t| >= 1 && IsDigit(t[0]) && t[0] != '0' then 1
    else 0
  }

  function Number(t: string): nat
    requires AllDigits(t)
  {
    if t == "" then 0 else 10 * Number(t[..|t| - 1]) + DigitValue(t[|t| - 1])
  }

  function MonthFrom(t: string, month: nat): nat
    requires 1 <= month <= 13
    decreases 13 - month
  {
    if month == 13 then 0 else if MONTHS[month - 1] == t then month else MonthFrom(t, month + 1)
  }

  /** One strptime format: day, month name and year, with or without dashes, year of two or four digits. */
  datatype Format = Format(dashed: bool, yearDigits: nat)

  const FORMATS := [Format(true, 2), Format(true, 4), Format(false, 2), Format(false, 4)]
  const CODE_FORMAT := Format(false, 2)

  function ParseAs(t: string, f: Format): (d: Option<Date>)
    ensures d.Some? ==> Valid(d.value)
  {
    var n := DayLength(t);
    var gap := if f.dashed then 1 else 0;
    if n == 0 || |t| != n + gap + 3 + gap + f.yearDigits then None
    else if f.dashed && (t[n] != '-' || t[n + 4] != '-') then None
    else DateFrom(t[..n], t[n + gap..n + gap + 3], t[n + gap + 3 + gap..])
  }

  predicate AllDigits(t: string) {
    forall i :: 0 <= i < |t| ==> IsDigit(t[i])
  }

  /** The date of its three pieces. */
  function DateFrom(day: string, name: string, year: string): (d: Option<Date>)
    requires AllDigits(day)
    ensures d.Some? ==> Valid(d.value)
  {
    var month := MonthFrom(name, 1);
    if month == 0 || !AllDigits(year) then None
    else
      var y := if |year| == 2 then Century(Number(year)) else Number(year);
      var date := Date(y, month, Number(day));
      if Valid(date) then Some(date) else None
  }

  /** The first format that fits. */
  function ParseAny(t: string, formats: seq<Format>): (d: Option<Date>)
    ensures d.Some? ==> Valid(d.value)
    ensures d.None? ==> forall i :: 0 <= i < |formats| ==> ParseAs(t, formats[i]).None?
  {
    if formats == [] then None
    else if ParseAs(t, formats[0]).Some? then ParseAs(t, formats[0])
    else ParseAny(t, formats[1..])
  }

  function TwoDigits(n: nat): (t: string)
    requires n < 100
    ensures |t| == 2 && IsDigit(t[0]) && IsDigit(t[1]) && 10 * DigitValue(t[0]) + DigitValue(t[1]) == n
  {
    [DigitChar(n / 10), DigitChar(n % 10)]
  }

  function Code(d: Date): string
    requires Valid(d)
  {
    TwoDigits(d.day) + MONTHS[d.month - 1] + TwoDigits(d.year % 100)
  }

  /** The date a code is sorted by: two-digit years are read back in their century. */
  function DateOf(code: string): (d: Option<Date>)
    ensures d.Some? ==> Valid(d.value)
  {
    ParseAs(code, CODE_FORMAT)
  }

  lemma MonthNameIsFound(month: nat)
    requires 1 <= month <= 12
    ensures |MONTHS[month - 1]| == 3 && MonthFrom(MONTHS[month - 1], 1) == month
  {
    MonthSearch(month, 1);
  }

  lemma {:induction false} MonthSearch(month: nat, from: nat)
    requires 1 <= from <= month <= 12
    ensures MonthFrom(MONTHS[month - 1], from) == month
    decreases month - from
  {
    if from < month {
      assert MONTHS[from - 1] != MONTHS[month - 1];
      MonthSearch(month, from + 1);
    }
  }

  lemma NumberOfTwo(t: string)
    requires |t| == 2 && IsDigit(t[0]) && IsDigit(t[1])
    ensures Number(t) == 10 * DigitValue(t[0]) + DigitValue(t[1])
  {
    assert t[..1][..0] == "";
    assert Number(t[..1]) == DigitValue(t[0]);
  }

  /** The same day and month in the century its two-digit year is read in. Leap days survive. */
  function Reread(d: Date): (r: Date)
    requires Valid(d)
    ensures Valid(r)
  {
    var yy := d.year % 100;
    assert d.month == 2 && d.day == 29 ==> Leap(Century(yy)) by {
      if Leap(d.year) && yy == 0 { assert Century(yy) == 2000; }
    }
    Date(Century(yy), d.month, d.day)
  }

  /** Reading a seven-character code from its three pieces. */
  lemma ReadPieces(t: string, d: Date)
    requires Valid(d)
    requires |t| == 7 && forall i :: 5 <= i < 7 ==> IsDigit(t[i])
    requires DayLength(t) == 2 && Number(t[..2]) == d.day
    requires MonthFrom(t[2..5], 1) == d.month
    requires Century(Number(t[5..])) == d.year
    ensures DateOf(t) == Some(d)
  {
  }

  lemma CenturyKeepsDigits(yy: nat)
    requires yy < 100
    ensures Century(yy) % 100 == yy
  {
    assert Century(yy) == 100 * 20 + yy || Century(yy) == 100 * 19 + yy;
  }

  lemma RereadKeepsCode(d: Date)
    requires Valid(d)
    ensures Code(Reread(d)) == Code(d)
  {
    CenturyKeepsDigits(d.year % 100);
    assert Reread(d).year % 100 == d.year % 100;
    assert TwoDigits(Reread(d).year % 100) == TwoDigits(d.year % 100);
  }

  /** The pieces of three concatenated texts of lengths two, three and two. */
  lemma Pieces(day: string, month: string, year: string)
    requires |day| == 2 && |month| == 3 && |year| == 2
    ensures var t := day + month + year;
            |t| == 7 && t[..2] == day && t[2..5] == month && t[5..] == year
            && t[0] == day[0] && t[1] == day[1] && t[5] == year[0] && t[6] == year[1]
  {
  }

  /** Printing then reading a code gives the date back, up to its century, and the same code. */
  lemma CodeReadsBack(d: Date)
    requires Valid(d)
    ensures DateOf(Code(d)) == Some(Reread(d)) && Code(Reread(d)) == Code(d)
  {
    RereadKeepsCode(d);
    var c := Code(d);
    MonthNameIsFound(d.month);
    Pieces(TwoDigits(d.day), MONTHS[d.month - 1], TwoDigits(d.year % 100));
    NumberOfTwo(c[..2]);
    NumberOfTwo(c[5..]);
    ReadPieces(c, Reread(d));
  }

  // ---------------------------------------------------------------- normalising a broker's list

  /** An entry of the broker's list; entries that are not text are skipped. */
  datatype Raw = Listed(text: string) | NotText

  /** The code of one entry: DDMMMYY when a format fits, the entry's own text when none does. */
  function CodeFor(raw: Raw): Option<string> {
    if raw.NotText? || Strip(raw.text) == "" then None
    else
      var text := Upper(Strip(raw.text));
      match ParseAny(text, FORMATS)
      case Some(d) => Some(Code(d))
      case None => Some(text)
  }

  function CodesBy(code: Raw -> Option<string>, raw: seq<Raw>): seq<string> {
    if raw == [] then []
    else
      var last := |raw| - 1;
      CodesBy(code, raw[..last]) + if code(raw[last]).Some? then [code(raw[last]).value] else []
  }

  function Codes(raw: seq<Raw>): seq<string> {
    CodesBy(CodeFor, raw)
  }

  /** The distinct elements in first-seen order, as dict.fromkeys keeps them. */
  function FirstSeen(codes: seq<string>): (r: seq<string>)
    ensures forall c :: c in r <==> c in codes
    ensures Distinct(r)
  {
    if codes == [] then []
    else
      var last := |codes| - 1;
      var rest := FirstSeen(codes[..last]);
      assert forall c :: c in codes <==> c in codes[..last] || c == codes[last];
      if codes[last] in rest then rest else rest + [codes[last]]
  }

  predicate Distinct(s: seq<string>) {
    forall i, j :: 0 <= i < j < |s| ==> s[i] != s[j]
  }

  /** The sort key's order: dated codes by date, all of them before every undated one. */
  predicate Earlier(date: string -> Option<Date>, a: string, b: string) {
    date(a).Some? && (date(b).Some? ==> Before(date(a).value, date(b).value))
  }

  /** Insert after everything that is not later, which keeps equals in their order. */
  function Insert(date: string -> Option<Date>, c: string, s: seq<string>): seq<string> {
    if s == [] then [c]
    else if Earlier(date, c, s[0]) then [c] + s
    else [s[0]] + Insert(date, c, s[1..])
  }

  /** A stable sort by the key. */
  function Sorted(date: string -> Option<Date>, s: seq<string>): seq<string> {
    if s == [] then [] else Insert(date, s[|s| - 1], Sorted(date, s[..|s| - 1]))
  }

  function SortedExpiryCodes(raw: seq<Raw>): seq<string> {
    Sorted(DateOf, FirstSeen(Codes(raw)))
  }

  /** The normalising loop, then the library's dedup and sort. */
  method NormalizeAndSort(raw: seq<Raw>) returns (r: seq<string>)
    ensures r == SortedExpiryCodes(raw)
  {
    var codes: seq<string> := [];
    for i := 0 to |raw|
      invariant codes == Codes(raw[..i])
    {
      assert raw[..i + 1][..i] == raw[..i];
      if raw[i].NotText? || Strip(raw[i].text) == "" { continue; }
      var text := Upper(Strip(raw[i].text));
      var parsed := ParseAny(text, FORMATS);
      codes := codes + [if parsed.Some? then Code(parsed.value) else text];
    }
    assert raw[..|raw|] == raw;
    r := Sorted(DateOf, FirstSeen(codes));
  }

  // ---------------------------------------------------------------- what the result is

  function Undated(date: string -> Option<Date>, s: seq<string>): seq<string> {
    if s == [] then []
    else Undated(date, s[..|s| - 1]) + if date(s[|s| - 1]).None? then [s[|s| - 1]] else []
  }

  lemma {:induction false} UndatedAppend(date: string -> Option<Date>, a: seq<string>, b: seq<string>)
    ensures Undated(date, a + b) == Undated(date, a) + Undated(date, b)
  {
    if b == [] {
      assert a + b == a;
    } else {
      assert (a + b)[..|a + b| - 1] == a + b[..|b| - 1];
      UndatedAppend(date, a, b[..|b| - 1]);
    }
  }

  predicate InOrder(date: string -> Option<Date>, s: seq<string>) {
    forall i, j :: 0 <= i < j < |s| ==> !Earlier(date, s[j], s[i])
  }

  lemma {:induction false} InsertKeeps(date: string -> Option<Date>, c: string, s: seq<string>)
    ensures forall x :: x in Insert(date, c, s) <==> x == c || x in s
    ensures Distinct(s) && c !in s ==> Distinct(Insert(date, c, s))
  {
    if s != [] && !Earlier(date, c, s[0]) {
      assert s == [s[0]] + s[1..];
      assert s[0] !in s[1..] || !Distinct(s);
      InsertKeeps(date, c, s[1..]);
      assert forall x :: x in Insert(date, c, s) <==> x == s[0] || x in Insert(date, c, s[1..]);
    }
  }

  lemma {:induction false} InsertKeepsUndated(date: string -> Option<Date>, c: string, s: seq<string>)
    ensures Undated(date, Insert(date, c, s)) == Undated(date, s) + if date(c).None? then [c] else []
  {
    if s == [] {
      assert Undated(date, []) == [];
      assert [c][..0] == [];
    } else if Earlier(date, c, s[0]) {
      assert [c][..0] == [];
      assert Undated(date, [c]) == [];
      UndatedAppend(date, [c], s);
    } else {
      InsertKeepsUndated(date, c, s[1..]);
      assert s == [s[0]] + s[1..];
      UndatedAppend(date, [s[0]], s[1..]);
      UndatedAppend(date, [s[0]], Insert(date, c, s[1..]));
    }
  }

  lemma {:induction false} InsertInOrder(date: string -> Option<Date>, c: string, s: seq<string>)
    requires InOrder(date, s)
    ensures InOrder(date, Insert(date, c, s))
  {
    if s == [] {
    } else if Earlier(date, c, s[0]) {
      var r := [c] + s;
      forall j | 0 < j < |r| ensures !Earlier(date, r[j], c) {
        assert r[j] == s[j - 1];
        if j > 1 { assert !Earlier(date, s[j - 1], s[0]); }
      }
    } else {
      InsertInOrder(date, c, s[1..]);
      InsertKeeps(date, c, s[1..]);
      var r := Insert(date, c, s[1..]);
      forall j | 0 <= j < |r| ensures !Earlier(date, r[j], s[0]) {
        assert r[j] in r;
        assert r[j] == c || r[j] in s[1..];
      }
    }
  }

  lemma {:induction false} SortedIsStable(date: string -> Option<Date>, s: seq<string>)
    requires Distinct(s)
    ensures forall x :: x in Sorted(date, s) <==> x in s
    ensures Distinct(Sorted(date, s))
    ensures InOrder(date, Sorted(date, s))
    ensures Undated(date, Sorted(date, s)) == Undated(date, s)
  {
    if s != [] {
      var last := |s| - 1;
      assert s == s[..last] + [s[last]];
      assert s[last] !in s[..last];
      SortedIsStable(date, s[..last]);
      InsertInOrder(date, s[last], Sorted(date, s[..last]));
      InsertKeeps(date, s[last], Sorted(date, s[..last]));
      InsertKeepsUndated(date, s[last], Sorted(date, s[..last]));
    }
  }

  /** A code as the normalising loop leaves it: normalising it again changes nothing. */
  predicate Normal(c: string) {
    CodeFor(Listed(c)) == Some(c)
  }

  lemma MonthIsUpper(month: nat)
    requires 1 <= month <= 12
    ensures |MONTHS[month - 1]| == 3 && Upper(MONTHS[month - 1]) == MONTHS[month - 1]
  {
  }

  lemma UpperJoins(a: string, b: string)
    ensures Upper(a + b) == Upper(a) + Upper(b)
  {
  }

  /** A printed code is already stripped and in upper case. */
  lemma CodeIsItsText(d: Date)
    requires Valid(d)
    ensures Upper(Strip(Code(d))) == Code(d) && Strip(Code(d)) == Code(d) && |Code(d)| == 7
  {
    var day, month, year := TwoDigits(d.day), MONTHS[d.month - 1], TwoDigits(d.year % 100);
    MonthIsUpper(d.month);
    Pieces(day, month, year);
    UpperJoins(day + month, year);
    UpperJoins(day, month);
    assert Upper(day) == day && Upper(year) == year;
  }

  /** The four formats exclude one another: a text read without dashes is not read with them. */
  lemma OnlyOneFormatFits(c: string)
    requires DateOf(c).Some?
    ensures ParseAny(c, FORMATS) == DateOf(c)
  {
    var n := DayLength(c);
    assert |c| == n + 5;
    assert ParseAs(c, Format(true, 2)).None? && ParseAs(c, Format(true, 4)).None?;
    assert FORMATS[1..] == [Format(true, 4), CODE_FORMAT, Format(false, 4)];
    assert FORMATS[1..][1..] == [CODE_FORMAT, Format(false, 4)];
    assert ParseAny(c, FORMATS) == ParseAny(c, FORMATS[1..]) == ParseAny(c, FORMATS[1..][1..]);
  }

  lemma DatedCodeIsNormal(d: Date)
    requires Valid(d)
    ensures Normal(Code(d))
  {
    CodeReadsBack(d);
    CodeIsItsText(d);
    OnlyOneFormatFits(Code(d));
  }

  lemma UndatedTextIsNormal(text: string)
    requires Strip(text) == text != "" && Upper(text) == text && ParseAny(text, FORMATS).None?
    ensures Normal(text)
  {
  }

  lemma CodeIsNormal(raw: Raw)
    requires CodeFor(raw).Some?
    ensures Normal(CodeFor(raw).value)
  {
    var text := Upper(Strip(raw.text));
    if ParseAny(text, FORMATS).Some? {
      DatedCodeIsNormal(ParseAny(text, FORMATS).value);
    } else {
      assert text[0] == UpperChar(Strip(raw.text)[0]) && text[|text| - 1] == UpperChar(Strip(raw.text)[|text| - 1]);
      assert Strip(text) == text && Upper(text) == text;
      UndatedTextIsNormal(text);
    }
  }

  lemma NormalIsItsText(c: string)
    requires Normal(c)
    ensures Upper(Strip(c)) == c
  {
    match ParseAny(Upper(Strip(c)), FORMATS)
    case Some(d) => CodeIsItsText(d);
    case None =>
  }

  /** A normal code that reads as a date is the code of that date. */
  lemma DateDecidesCode(c: string)
    requires Normal(c) && DateOf(c).Some?
    ensures c == Code(DateOf(c).value)
  {
    NormalIsItsText(c);
    OnlyOneFormatFits(c);
  }

  lemma {:induction false} CodesAreNormal(raw: seq<Raw>)
    ensures forall c :: c in Codes(raw) ==> Normal(c)
  {
    if raw != [] {
      var last := |raw| - 1;
      CodesAreNormal(raw[..last]);
      if CodeFor(raw[last]).Some? { CodeIsNormal(raw[last]); }
    }
  }

  ghost predicate AllNormal(s: seq<string>) {
    forall i :: 0 <= i < |s| ==> Normal(s[i])
  }

  /** Same codes as the list, each once; the dated ones first, in strictly increasing date order; the
    * undated ones after them, in the order they were first seen. */
  lemma SortedExpiryCodesIsChronological(raw: seq<Raw>)
    ensures var r := SortedExpiryCodes(raw);
            && (forall c :: c in r <==> c in Codes(raw))
            && Distinct(r)
            && (forall i, j :: 0 <= i < j < |r| && DateOf(r[j]).Some? ==>
                  DateOf(r[i]).Some? && Before(DateOf(r[i]).value, DateOf(r[j]).value))
            && Undated(DateOf, r) == Undated(DateOf, FirstSeen(Codes(raw)))
            && AllNormal(r)
  {
    var r := SortedExpiryCodes(raw);
    SortedIsStable(DateOf, FirstSeen(Codes(raw)));
    CodesAreNormal(raw);
    forall i, j | 0 <= i < j < |r| && DateOf(r[j]).Some?
      ensures DateOf(r[i]).Some? && Before(DateOf(r[i]).value, DateOf(r[j]).value) {
      StrictlyBefore(r, i, j);
    }
    forall i | 0 <= i < |r| ensures Normal(r[i]) { assert r[i] in r; }
  }

  lemma StrictlyBefore(r: seq<string>, i: nat, j: nat)
    requires Distinct(r) && InOrder(DateOf, r) && forall c :: c in r ==> Normal(c)
    requires i < j < |r| && DateOf(r[j]).Some?
    ensures DateOf(r[i]).Some? && Before(DateOf(r[i]).value, DateOf(r[j]).value)
  {
    assert !Earlier(DateOf, r[j], r[i]);
    if DateOf(r[i]) == DateOf(r[j]) {
      DateDecidesCode(r[i]);
      DateDecidesCode(r[j]);
    }
  }

  // ---------------------------------------------------------------- which text is which code

  function MonthName(month: nat): string {
    match month
    case 1 => "JAN" case 2 => "FEB" case 3 => "MAR" case 4 => "APR" case 5 => "MAY" case 6 => "JUN"
    case 7 => "JUL" case 8 => "AUG" case 9 => "SEP" case 10 => "OCT" case 11 => "NOV" case _ => "DEC"
  }

  predicate DayIs(t: string, day: nat) {
    1 <= |t| <= 2 && AllDigits(t) && Number(t) == day
  }

  /** A year of four digits is meant as it stands, one of two digits lies between 1969 and 2068. */
  predicate YearIs(t: string, year: nat) {
    && AllDigits(t)
    && ((|t| == 2 && 1969 <= year <= 2068 && Number(t) == year % 100) || (|t| == 4 && Number(t) == year))
  }

  predicate WrittenAs(t: string, d: Date, day: string, dash: string, year: string) {
    && Valid(d) && DayIs(day, d.day) && YearIs(year, d.year)
    && t == day + dash + MonthName(d.month) + dash + year
  }

  /** The text is day, month name and year of the date, dashed or not. */
  ghost predicate Written(t: string, d: Date) {
    exists day, dash, year :: (dash == "" || dash == "-") && WrittenAs(t, d, day, dash, year)
  }

  lemma NumberOfFour(t: string)
    requires |t| == 4 && AllDigits(t)
    ensures Number(t) == 1000 * DigitValue(t[0]) + 100 * DigitValue(t[1]) + 10 * DigitValue(t[2]) + DigitValue(t[3])
  {
    assert t[..3][..2] == t[..2];
    NumberOfTwo(t[..2]);
    assert Number(t[..3]) == 10 * Number(t[..2]) + DigitValue(t[2]);
  }

  lemma CenturyIs(yy: nat, year: nat)
    requires yy < 100
    ensures Century(yy) == year <==> 1969 <= year <= 2068 && yy == year % 100
  {
    CenturyKeepsDigits(yy);
  }

  lemma MonthIs(month: nat)
    requires 1 <= month <= 12
    ensures MonthName(month) == MONTHS[month - 1]
  {
  }

  lemma {:induction false} MonthFoundIs(t: string, from: nat)
    requires 1 <= from <= 13
    ensures var month := MonthFrom(t, from); month != 0 ==> 1 <= month <= 12 && MONTHS[month - 1] == t
    decreases 13 - from
  {
    if from < 13 { MonthFoundIs(t, from + 1); }
  }

  lemma TwoDigitsBound(t: string)
    requires |t| == 2 && AllDigits(t)
    ensures Number(t) < 100
  {
    NumberOfTwo(t);
  }

  /** Five pieces in a row, found again at their places. */
  lemma PiecesAt(t: string, day: string, dash: string, month: string, year: string)
    requires t == day + dash + month + dash + year && |month| == 3
    ensures var n, gap := |day|, |dash|;
            && |t| == n + gap + 3 + gap + |year|
            && t[..n] == day && t[n..n + gap] == dash && t[n + gap..n + gap + 3] == month
            && t[n + gap + 3..n + gap + 3 + gap] == dash && t[n + gap + 3 + gap..] == year
  {
  }

  lemma PiecesJoin(t: string, n: nat, gap: nat)
    requires n + gap + 3 + gap <= |t|
    ensures t == t[..n] + t[n..n + gap] + t[n + gap..n + gap + 3] + t[n + gap + 3..n + gap + 3 + gap]
                 + t[n + gap + 3 + gap..]
  {
  }

  lemma NumberOfOne(t: string)
    requires |t| == 1 && AllDigits(t)
    ensures Number(t) == DigitValue(t[0])
  {
    assert t[..0] == "";
  }

  /** The day is read to where its digits end. */
  lemma DayEnds(t: string, n: nat)
    requires 1 <= n <= 2 && n < |t| && !IsDigit(t[n]) && AllDigits(t[..n]) && 1 <= Number(t[..n]) <= 31
    ensures DayLength(t) == n
  {
    if n == 2 { assert t[..2][0] == t[0] && t[..2][1] == t[1]; } else { NumberOfOne(t[..1]); assert t[..1][0] == t[0]; }
  }

  lemma {:induction false} ParsedIsWritten(t: string, f: Format)
    requires f in FORMATS && ParseAs(t, f).Some?
    ensures Written(t, ParseAs(t, f).value)
  {
    var d := ParseAs(t, f).value;
    var n, gap := DayLength(t), if f.dashed then 1 else 0;
    var day, name, year, dash := t[..n], t[n + gap..n + gap + 3], t[n + gap + 3 + gap..], if f.dashed then "-" else "";
    assert DateFrom(day, name, year) == Some(d);
    PiecesJoin(t, n, gap);
    assert t[n..n + gap] == dash && t[n + gap + 3..n + gap + 3 + gap] == dash;
    DateFromIs(day, name, year, d);
    assert t == day + dash + name + dash + year;
    assert WrittenAs(t, d, day, dash, year);
  }

  /** Three pieces are a date exactly when they are its day, its month's name and its year. */
  lemma DateFromIs(day: string, name: string, year: string, d: Date)
    requires 1 <= |day| <= 2 && AllDigits(day) && (|year| == 2 || |year| == 4)
    ensures DateFrom(day, name, year) == Some(d)
       <==> Valid(d) && DayIs(day, d.day) && YearIs(year, d.year)
            && name == MonthName(d.month)
  {
    MonthMeant(name, d.month);
    if AllDigits(year) { YearMeant(year, d.year); }
  }

  lemma MonthMeant(name: string, month: nat)
    ensures MonthFrom(name, 1) == month != 0 <==> 1 <= month <= 12 && name == MonthName(month)
  {
    MonthFoundIs(name, 1);
    if 1 <= month <= 12 {
      MonthIs(month);
      MonthNameIsFound(month);
    }
  }

  lemma YearMeant(year: string, y: nat)
    requires AllDigits(year) && (|year| == 2 || |year| == 4)
    ensures (if |year| == 2 then Century(Number(year)) else Number(year)) == y <==> YearIs(year, y)
  {
    if |year| == 2 {
      TwoDigitsBound(year);
      CenturyIs(Number(year), y);
    }
  }

  /** A letter or a dash follows the day. */
  lemma MonthStarts(month: nat)
    requires 1 <= month <= 12
    ensures |MONTHS[month - 1]| == 3 && !IsDigit(MONTHS[month - 1][0]) && MONTHS[month - 1][0] != '-'
  {
  }

  lemma WrittenParses(t: string, d: Date, day: string, dash: string, year: string)
    requires (dash == "" || dash == "-") && WrittenAs(t, d, day, dash, year)
    ensures ParseAs(t, Format(dash == "-", |year|)) == Some(d)
    ensures forall f :: f in FORMATS && f != Format(dash == "-", |year|) ==> ParseAs(t, f).None?
  {
    DayStands(t, d, day, dash, year);
    PiecesAt(t, day, dash, MonthName(d.month), year);
    DateFromIs(day, MonthName(d.month), year, d);
    forall f | f in FORMATS && f != Format(dash == "-", |year|) ensures ParseAs(t, f).None? {
      if f.dashed != (dash == "-") { OtherDashFails(t, f, |day|); }
    }
  }

  /** After the day stands its dash or the month's first letter; there the day ends. */
  lemma DayStands(t: string, d: Date, day: string, dash: string, year: string)
    requires (dash == "" || dash == "-") && WrittenAs(t, d, day, dash, year)
    ensures var n := |day|;
            && n + 5 <= |t| && DayLength(t) == n
            && (dash == "-" ==> t[n] == '-' && t[n + 4] == '-') && (dash == "" ==> t[n] != '-')
  {
    var name, n := MonthName(d.month), |day|;
    MonthIs(d.month);
    MonthStarts(d.month);
    PiecesAt(t, day, dash, name, year);
    if dash == "-" {
      assert t[n] == t[n..n + 1][0] == '-' && t[n + 4] == t[n + 4..n + 5][0] == '-';
    } else {
      assert t[n] == t[n..n + 3][0] == name[0];
    }
    DayEnds(t, n);
  }

  lemma OtherDashFails(t: string, f: Format, n: nat)
    requires n == DayLength(t) < |t| && f.dashed != (t[n] == '-')
    ensures ParseAs(t, f).None?
  {
    if !f.dashed && n + 3 <= |t| { NoMonthStartsWithDash(t[n..n + 3]); }
  }

  lemma NoMonthStartsWithDash(t: string)
    requires t != "" && t[0] == '-'
    ensures MonthFrom(t, 1) == 0
  {
    MonthFoundIs(t, 1);
    var month := MonthFrom(t, 1);
    if month != 0 { MonthStarts(month); }
  }

  lemma {:induction false} OneFits(t: string, formats: seq<Format>, f: Format)
    requires f in formats && forall g :: g in formats && g != f ==> ParseAs(t, g).None?
    ensures ParseAny(t, formats) == ParseAs(t, f)
  {
    if formats[0] != f {
      OneFits(t, formats[1..], f);
    } else if ParseAs(t, f).None? {
      AllFail(t, formats);
    }
  }

  lemma {:induction false} AllFail(t: string, formats: seq<Format>)
    requires forall g :: g in formats ==> ParseAs(t, g).None?
    ensures ParseAny(t, formats).None?
  {
    if formats != [] { AllFail(t, formats[1..]); }
  }

  lemma {:induction false} SomeFits(t: string, formats: seq<Format>) returns (f: Format)
    requires ParseAny(t, formats).Some?
    ensures f in formats && ParseAs(t, f) == ParseAny(t, formats)
  {
    f := formats[0];
    if ParseAs(t, f).None? { f := SomeFits(t, formats[1..]); }
  }

  /** A text is read as a date exactly when it is written as that date in one of the four ways. */
  lemma ReadIffWritten(t: string, d: Date)
    ensures ParseAny(t, FORMATS) == Some(d) <==> Written(t, d)
  {
    if ParseAny(t, FORMATS) == Some(d) {
      var f := SomeFits(t, FORMATS);
      ParsedIsWritten(t, f);
    }
    if Written(t, d) {
      var day, dash, year :| (dash == "" || dash == "-") && WrittenAs(t, d, day, dash, year);
      WrittenParses(t, d, day, dash, year);
      OneFits(t, FORMATS, Format(dash == "-", |year|));
    }
  }

  /** A code is its date with two digits each, without dashes. */
  lemma CodeIsWritten(d: Date)
    requires Valid(d) && 1969 <= d.year <= 2068
    ensures Written(Code(d), d) && |Code(d)| == 7
  {
    CodeReadsBack(d);
    CenturyIs(d.year % 100, d.year);
    CodeIsItsText(d);
    OnlyOneFormatFits(Code(d));
    ReadIffWritten(Code(d), d);
  }

  /** What is listed for an entry: nothing if it is blank or no text; the code of the date it is written
    * as, in any case and with white space round it; its own upper-case text if it is no date. */
  lemma ListedIs(raw: Raw)
    ensures raw.NotText? || AllSpace(raw.text) <==> CodeFor(raw).None?
    ensures raw.Listed? && CodeFor(raw).Some? ==>
              var t := Upper(Strip(raw.text));
              && (forall d :: Written(t, d) ==> CodeFor(raw) == Some(Code(d)))
              && ((forall d :: !Written(t, d)) ==> CodeFor(raw) == Some(t))
  {
    if raw.Listed? {
      BlankIff(raw.text);
      var t := Upper(Strip(raw.text));
      forall d | Written(t, d) ensures ParseAny(t, FORMATS) == Some(d) { ReadIffWritten(t, d); }
      if ParseAny(t, FORMATS).Some? { ReadIffWritten(t, ParseAny(t, FORMATS).value); }
    }
  }

  /** Which codes the list has: those of its entries. */
  lemma {:induction false} CodesIff(raw: seq<Raw>, c: string)
    ensures c in Codes(raw) <==> exists i :: 0 <= i < |raw| && CodeFor(raw[i]) == Some(c)
  {
    CodesByIff(CodeFor, raw, c);
  }

  lemma {:induction false} CodesByIff(code: Raw -> Option<string>, raw: seq<Raw>, c: string)
    ensures c in CodesBy(code, raw) <==> exists i :: 0 <= i < |raw| && code(raw[i]) == Some(c)
  {
    if raw != [] {
      var n := |raw| - 1;
      CodesByIff(code, raw[..n], c);
      if i: int :| 0 <= i < n && code(raw[..n][i]) == Some(c) { assert code(raw[i]) == Some(c); }
      if i: int :| 0 <= i <= n && code(raw[i]) == Some(c) {
        if i < n { assert code(raw[..n][i]) == Some(c); }
      }
    }
  }

  /** One code was seen for the first time before another was seen at all. */
  predicate SeenBefore(codes: seq<string>, a: string, b: string, p: nat) {
    p < |codes| && codes[p] == a && b !in codes[..p + 1]
  }

  lemma {:induction false} FirstSeenOrder(codes: seq<string>, i: nat, j: nat) returns (p: nat)
    requires i < j < |FirstSeen(codes)|
    ensures SeenBefore(codes, FirstSeen(codes)[i], FirstSeen(codes)[j], p)
  {
    var last := |codes| - 1;
    var rest := FirstSeen(codes[..last]);
    if j < |rest| {
      p := FirstSeenOrder(codes[..last], i, j);
      assert codes[..last][..p + 1] == codes[..p + 1];
    } else {
      assert rest[i] in codes[..last];
      p :| 0 <= p < last && codes[..last][p] == rest[i];
      assert codes[last] !in codes[..last];
    }
  }

  // ---------------------------------------------------------------- idempotence

  function AsRaw(s: seq<string>): seq<Raw> {
    seq(|s|, i requires 0 <= i < |s| => Listed(s[i]))
  }

  lemma {:induction false} NormalCodesStay(code: Raw -> Option<string>, s: seq<string>)
    requires forall i :: 0 <= i < |s| ==> code(Listed(s[i])) == Some(s[i])
    ensures CodesBy(code, AsRaw(s)) == s
  {
    if s != [] {
      var last := |s| - 1;
      assert AsRaw(s)[..last] == AsRaw(s[..last]);
      NormalCodesStay(code, s[..last]);
    }
  }

  lemma {:induction false} DistinctStays(s: seq<string>)
    requires Distinct(s)
    ensures FirstSeen(s) == s
  {
    if s != [] {
      DistinctStays(s[..|s| - 1]);
    }
  }

  lemma {:induction false} InsertLast(date: string -> Option<Date>, c: string, s: seq<string>)
    requires forall i :: 0 <= i < |s| ==> !Earlier(date, c, s[i])
    ensures Insert(date, c, s) == s + [c]
  {
    if s != [] {
      InsertLast(date, c, s[1..]);
    }
  }

  lemma {:induction false} InOrderStays(date: string -> Option<Date>, s: seq<string>)
    requires InOrder(date, s)
    ensures Sorted(date, s) == s
  {
    if s != [] {
      InOrderStays(date, s[..|s| - 1]);
      InsertLast(date, s[|s| - 1], s[..|s| - 1]);
    }
  }

  /** Sorting an already sorted list of codes changes nothing. */
  lemma SortedExpiryCodesIsIdempotent(raw: seq<Raw>)
    ensures SortedExpiryCodes(AsRaw(SortedExpiryCodes(raw))) == SortedExpiryCodes(raw)
  {
    var r := SortedExpiryCodes(raw);
    SortedExpiryCodesIsChronological(raw);
    SortedIsStable(DateOf, FirstSeen(Codes(raw)));
    forall i | 0 <= i < |r| ensures CodeFor(Listed(r[i])) == Some(r[i]) { assert Normal(r[i]); }
    NormalCodesStay(CodeFor, r);
    DistinctStays(r);
    InOrderStays(DateOf, r);
  }

  // ---------------------------------------------------------------- choosing the expiry

  /** The expiry a strike list is built for: the requested date, else what the requested kind of
    * expiry resolves to, and the first listed one when that is not listed. */
  function ChosenExpiry(expiries: seq<string>, requested: string, kind: string, resolved: map<string, string>): string
    requires expiries != []
  {
    var wanted := if requested in expiries then requested
                  else if kind != "" && kind in resolved then resolved[kind]
                  else "";
    if wanted in expiries then wanted else expiries[0]
  }

  /** The empty text a failed resolution leaves is never listed. */
  lemma NoEmptyCode(raw: seq<Raw>)
    ensures "" !in Codes(raw)
  {
    CodesAreNormal(raw);
    assert Strip("") == "";
  }

  /** The choice is always a listed expiry; a listed request wins; with neither a listed request nor a
    * listed resolution it is the earliest date on the list, if the list has any date. */
  lemma ChosenExpiryIsListed(raw: seq<Raw>, requested: string, kind: string, resolved: map<string, string>)
    requires SortedExpiryCodes(raw) != []
    ensures var expiries := SortedExpiryCodes(raw);
            var chosen := ChosenExpiry(expiries, requested, kind, resolved);
            && chosen in Codes(raw)
            && (requested in Codes(raw) ==> chosen == requested)
            && (requested !in Codes(raw) && kind != "" && kind in resolved && resolved[kind] in Codes(raw)
                ==> chosen == resolved[kind])
            && (requested !in Codes(raw)
                && !(kind != "" && kind in resolved && resolved[kind] in Codes(raw)) ==>
                  forall c :: c in Codes(raw) && DateOf(c).Some? && c != chosen ==>
                    DateOf(chosen).Some? && Before(DateOf(chosen).value, DateOf(c).value))
  {
    var r := SortedExpiryCodes(raw);
    SortedExpiryCodesIsChronological(raw);
    NoEmptyCode(raw);
    assert r[0] in r;
    forall c | c in Codes(raw) && DateOf(c).Some? && c != r[0]
      ensures DateOf(r[0]).Some? && Before(DateOf(r[0]).value, DateOf(c).value) {
      var j :| 0 <= j < |r| && r[j] == c;
    }
  }
}
