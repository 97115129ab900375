/** The rate specifications of blueprints/mcp_http.py: "N per second", "N per minute", "N per hour". */
module McpRateSpec {
  import opened Wrappers
  import opened Text
  import opened McpQuota

  // ---------------------------------------------------------------- the parser

  /** Replace every "per " with "per_", which keeps the unit in one word. */
  function GluePer(t: string): string {
    if t == "" then ""
    else if "per " <= t then "per_" + GluePer(t[4..])
    else [t[0]] + GluePer(t[1..])
  }

  function WordLength(t: string): (n: nat)
    ensures n <= |t|
  {
    if t == "" || IsSpace(t[0]) then 0 else 1 + WordLength(t[1..])
  }

  function Words(t: string): seq<string>
    decreases |t|
  {
    if t == "" then []
    else if IsSpace(t[0]) then Words(t[1..])
    else [t[..WordLength(t)]] + Words(t[WordLength(t)..])
  }

  /** Digits, with single underscores allowed between them. */
  function NatOf(w: string): Option<nat> {
    var last := |w| - 1;
    if w == "" || !IsDigit(w[last]) then None
    else if last == 0 then Some(DigitValue(w[0]))
    else
      match NatOf(if last > 1 && w[last - 1] == '_' then w[..last - 1] else w[..last])
      case None => None
      case Some(n) => Some(10 * n + DigitValue(w[last]))
  }

  function IntOf(w: string): Option<int> {
    if w != "" && (w[0] == '-' || w[0] == '+') then
      match NatOf(w[1..])
      case None => None
      case Some(n) =>
        var value: int := n;
        Some(if w[0] == '-' then -value else value)
    else
      match NatOf(w)
      case None => None
      case Some(n) => Some(n)
  }

  /** Anything without a leading number is sixty a minute; any unit but three is a minute. */
  function ParseRateSpec(spec: string): Limit {
    var parts := Words(GluePer(Lower(spec)));
    if parts == [] || IntOf(parts[0]).None? then Limit(60, 60)
    else
      var count := IntOf(parts[0]).value;
      var unit := if |parts| > 1 then parts[|parts| - 1] else "per_minute";
      Limit(count, if unit == "per_second" then 1 else if unit == "per_hour" then 3600 else 60)
  }

  // ---------------------------------------------------------------- what it reads back

  function Decimal(n: nat): string {
    if n < 10 then [DigitChar(n)] else Decimal(n / 10) + [DigitChar(n % 10)]
  }

  datatype Unit = Second | Minute | Hour

  function UnitName(u: Unit): string {
    match u
    case Second => "second"
    case Minute => "minute"
    case Hour => "hour"
  }

  function Seconds(u: Unit): nat {
    match u
    case Second => 1
    case Minute => 60
    case Hour => 3600
  }

  predicate AllDigits(w: string) {
    w != "" && forall i :: 0 <= i < |w| ==> IsDigit(w[i])
  }

  lemma {:induction false} DecimalReadsBack(n: nat)
    ensures AllDigits(Decimal(n)) && NatOf(Decimal(n)) == Some(n)
  {
    if n >= 10 {
      DecimalReadsBack(n / 10);
      var w := Decimal(n);
      var last := |w| - 1;
      assert w[..last] == Decimal(n / 10) && w[last - 1] == Decimal(n / 10)[last - 1];
    }
  }

  /** Text in which no "per " starts is left alone. */
  lemma {:induction false} GlueSkips(w: string, rest: string)
    requires forall i :: 0 <= i < |w| ==> w[i] != 'p'
    ensures GluePer(w + rest) == w + GluePer(rest)
  {
    if w == "" {
      assert w + rest == rest;
    } else {
      assert (w + rest)[1..] == w[1..] + rest;
      assert (w + rest)[0] != "per "[0];
      GlueSkips(w[1..], rest);
    }
  }

  lemma {:induction false} WordLengthOf(w: string, rest: string)
    requires (forall i :: 0 <= i < |w| ==> !IsSpace(w[i])) && (rest == "" || IsSpace(rest[0]))
    ensures WordLength(w + rest) == |w|
  {
    if w == "" {
      assert w + rest == rest;
    } else {
      assert (w + rest)[1..] == w[1..] + rest;
      WordLengthOf(w[1..], rest);
    }
  }

  lemma FirstWord(w: string, rest: string)
    requires w != "" && (forall i :: 0 <= i < |w| ==> !IsSpace(w[i])) && (rest == "" || IsSpace(rest[0]))
    ensures Words(w + rest) == [w] + Words(rest)
  {
    WordLengthOf(w, rest);
    assert (w + rest)[..|w|] == w && (w + rest)[|w|..] == rest;
  }

  lemma DigitsAreLower(w: string)
    requires AllDigits(w)
    ensures Lower(w) == w
  {
  }

  lemma LowerJoins(a: string, b: string)
    ensures Lower(a + b) == Lower(a) + Lower(b)
  {
  }

  lemma GlueHere(t: string, w: string)
    requires t == "per " + w
    ensures GluePer(t) == "per_" + GluePer(w)
  {
    assert t[4..] == w;
  }

  lemma UnitIsGlued(w: string)
    requires forall i :: 0 <= i < |w| ==> w[i] != 'p'
    ensures GluePer(" " + ("per " + w)) == " " + ("per_" + w)
  {
    GlueSkips(" ", "per " + w);
    GlueHere("per " + w, w);
    GlueSkips(w, "");
    assert w + "" == w;
  }

  lemma GluedIsOneWord(word: string)
    requires word != "" && forall i :: 0 <= i < |word| ==> !IsSpace(word[i])
    ensures Words(" " + word) == [word]
  {
    FirstWord(word, "");
    assert word + "" == word;
    assert (" " + word)[1..] == word;
  }

  lemma UnitIsLower(w: string)
    requires Lower(w) == w
    ensures Lower(" " + ("per " + w)) == " " + ("per " + w)
  {
    LowerJoins(" ", "per " + w);
    LowerJoins("per ", w);
    assert Lower(" ") == " ";
    assert Lower("per ") == "per ";
  }

  /** The two words of a specification. */
  lemma SpecWords(d: string, w: string)
    requires AllDigits(d)
    requires Lower(w) == w && forall i :: 0 <= i < |w| ==> w[i] != 'p' && !IsSpace(w[i])
    ensures Words(GluePer(Lower(d + (" " + ("per " + w))))) == [d, "per_" + w]
  {
    LowerJoins(d, " " + ("per " + w));
    DigitsAreLower(d);
    UnitIsLower(w);
    GlueSkips(d, " " + ("per " + w));
    UnitIsGlued(w);
    FirstWord(d, " " + ("per_" + w));
    GluedIsOneWord("per_" + w);
  }

  lemma UnitIsPlain(u: Unit)
    ensures var w := UnitName(u);
            Lower(w) == w && forall i :: 0 <= i < |w| ==> w[i] != 'p' && !IsSpace(w[i])
  {
  }

  /** Every count and unit an operator writes is read back as written. */
  lemma SpecReadsBack(n: nat, u: Unit)
    ensures ParseRateSpec(Decimal(n) + (" " + ("per " + UnitName(u)))) == Limit(n, Seconds(u))
  {
    DecimalReadsBack(n);
    UnitIsPlain(u);
    SpecWords(Decimal(n), UnitName(u));
    assert IntOf(Decimal(n)) == Some(n as int);
    SameTail(UnitName(u));
  }

  lemma SameTail(w: string)
    requires w == "second" || w == "minute" || w == "hour"
    ensures "per_" + w == "per_second" <==> w == "second"
    ensures "per_" + w == "per_hour" <==> w == "hour"
  {
    assert ("per_" + w)[4..] == w && "per_second"[4..] == "second" && "per_hour"[4..] == "hour";
    assert "per_" + "second" == "per_second" && "per_" + "hour" == "per_hour";
  }

  /** A unit that is none of the three counts as a minute. */
  lemma OtherUnitIsAMinute(n: nat, w: string)
    requires Lower(w) == w && forall i :: 0 <= i < |w| ==> w[i] != 'p' && !IsSpace(w[i])
    requires w != "second" && w != "hour"
    ensures ParseRateSpec(Decimal(n) + (" " + ("per " + w))) == Limit(n, 60)
  {
    DecimalReadsBack(n);
    SpecWords(Decimal(n), w);
    assert IntOf(Decimal(n)) == Some(n as int);
    assert ("per_" + w)[4..] == w && "per_second"[4..] == "second" && "per_hour"[4..] == "hour";
  }

  /** So does no unit at all. */
  lemma BareCountIsAMinute(n: nat)
    ensures ParseRateSpec(Decimal(n)) == Limit(n, 60)
  {
    var d := Decimal(n);
    DecimalReadsBack(n);
    DigitsAreLower(d);
    assert GluePer(d) == d by { GlueSkips(d, ""); assert d + "" == d; }
    assert Words(d) == [d] by { FirstWord(d, ""); assert d + "" == d; }
    assert IntOf(d) == Some(n as int);
  }

  /** A text that does not start with a number is sixty a minute. */
  lemma NoCountIsSixtyAMinute(spec: string)
    requires spec == "" || StartsNoNumber(Lower(spec)[0])
    ensures ParseRateSpec(spec) == Limit(60, 60)
  {
    var t := GluePer(Lower(spec));
    if spec != "" {
      assert t != "" && t[0] == Lower(spec)[0] by { GlueKeepsFirst(Lower(spec)); }
      var w := t[..WordLength(t)];
      assert Words(t)[0] == w && w[0] == t[0];
      if NatOf(w).Some? { NumbersStartWithDigits(w); }
    }
  }

  predicate StartsNoNumber(c: char) {
    !IsSpace(c) && !IsDigit(c) && c != '+' && c != '-'
  }

  lemma GlueKeepsFirst(t: string)
    requires t != ""
    ensures GluePer(t) != "" && GluePer(t)[0] == t[0]
  {
    assert "per "[0] == 'p' && "per_"[0] == 'p';
  }

  lemma {:induction false} NumbersStartWithDigits(w: string)
    requires NatOf(w).Some?
    ensures w != "" && IsDigit(w[0])
  {
    var last := |w| - 1;
    if last > 0 { NumbersStartWithDigits(if last > 1 && w[last - 1] == '_' then w[..last - 1] else w[..last]); }
  }
}
