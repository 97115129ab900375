/** ASCII text helpers: stripping, upper case, decimal digits, order of strings. */
module Text {

  predicate IsSpace(c: char) {
    c == ' ' || c == '\t' || c == '\n' || c == '\r' || c == '\U{000B}' || c == '\U{000C}'
  }

  function StripLeft(t: string): (r: string)
    ensures r != "" ==> !IsSpace(r[0])
    ensures t != "" && !IsSpace(t[0]) ==> r == t
  {
    if t == "" then "" else if IsSpace(t[0]) then StripLeft(t[1..]) else t
  }

  function StripRight(t: string): (r: string)
    ensures r != "" ==> !IsSpace(r[|r| - 1])
    ensures t != "" && !IsSpace(t[|t| - 1]) ==> r == t
    ensures r <= t
  {
    if t == "" then "" else if IsSpace(t[|t| - 1]) then StripRight(t[..|t| - 1]) else t
  }

  function Strip(t: string): (r: string)
    ensures r != "" ==> !IsSpace(r[0]) && !IsSpace(r[|r| - 1])
    ensures t != "" && !IsSpace(t[0]) && !IsSpace(t[|t| - 1]) ==> r == t
  {
    StripRight(StripLeft(t))
  }

  function UpperChar(c: char): char {
    if 'a' <= c <= 'z' then (c as int - 32) as char else c
  }

  function Upper(t: string): (r: string)
    ensures |r| == |t|
    ensures forall i :: 0 <= i < |t| ==> r[i] == UpperChar(t[i])
  {
    seq(|t|, i requires 0 <= i < |t| => UpperChar(t[i]))
  }

  function LowerChar(c: char): char {
    if 'A' <= c <= 'Z' then (c as int + 32) as char else c
  }

  function Lower(t: string): (r: string)
    ensures |r| == |t|
    ensures forall i :: 0 <= i < |t| ==> r[i] == LowerChar(t[i])
  {
    seq(|t|, i requires 0 <= i < |t| => LowerChar(t[i]))
  }

  predicate Contains(text: string, part: string) {
    part <= text || (text != "" && Contains(text[1..], part))
  }

  predicate StandsAt(text: string, part: string, i: nat) {
    i + |part| <= |text| && text[i..i + |part|] == part
  }

  lemma {:induction false} ContainsIff(text: string, part: string)
    ensures Contains(text, part) <==> exists i: nat :: StandsAt(text, part, i)
  {
    assert part <= text <==> StandsAt(text, part, 0);
    if text != "" {
      ContainsIff(text[1..], part);
      if i: nat :| StandsAt(text[1..], part, i) { StandsOneOn(text, part, i); }
      if i: nat :| StandsAt(text, part, i) {
        if i > 0 { StandsOneOn(text, part, i - 1); }
      }
    } else {
      if i: nat :| StandsAt(text, part, i) { assert i == 0; }
    }
  }

  lemma StandsOneOn(text: string, part: string, i: nat)
    requires text != ""
    ensures StandsAt(text[1..], part, i) <==> StandsAt(text, part, i + 1)
  {
    if i + 1 + |part| <= |text| { assert text[1..][i..i + |part|] == text[i + 1..i + 1 + |part|]; }
  }

  predicate AllSpace(t: string) {
    forall i :: 0 <= i < |t| ==> IsSpace(t[i])
  }

  /** Stripping takes white space off both ends and nothing else. */
  lemma {:induction false} StripIs(t: string) returns (before: string, after: string)
    ensures t == before + Strip(t) + after && AllSpace(before) && AllSpace(after)
  {
    before := StripLeftIs(t);
    after := StripRightIs(StripLeft(t));
  }

  /** Nothing is left of a text of white space, and of no other. */
  lemma BlankIff(text: string)
    ensures Strip(text) == "" <==> AllSpace(text)
  {
    var before, after := StripIs(text);
    if Strip(text) == "" { assert text == before + after; }
    else { assert text[|before|] == Strip(text)[0]; }
  }

  lemma {:induction false} StripLeftIs(t: string) returns (before: string)
    ensures t == before + StripLeft(t) && AllSpace(before)
  {
    if t != "" && IsSpace(t[0]) {
      before := StripLeftIs(t[1..]);
      before := [t[0]] + before;
    } else {
      before := "";
    }
  }

  lemma {:induction false} StripRightIs(t: string) returns (after: string)
    ensures t == StripRight(t) + after && AllSpace(after)
  {
    if t != "" && IsSpace(t[|t| - 1]) {
      after := StripRightIs(t[..|t| - 1]);
      after := after + [t[|t| - 1]];
    } else {
      after := "";
    }
  }

  /** The parts with a comma between each two. */
  function JoinedByComma(parts: seq<string>): string {
    if parts == [] then "" else if |parts| == 1 then parts[0] else parts[0] + "," + JoinedByComma(parts[1..])
  }

  predicate WithoutComma(parts: seq<string>) {
    forall i :: 0 <= i < |parts| ==> ',' !in parts[i]
  }

  /** Splitting at commas: no part holds one, and with commas between them the parts are the text. */
  lemma {:induction false} SplitIs(text: string)
    ensures JoinedByComma(Split(text)) == text && WithoutComma(Split(text))
  {
    if text != "" {
      SplitIs(text[1..]);
      assert text == [text[0]] + text[1..];
      if text[0] == ',' { JoinedCons("", Split(text[1..])); }
      else { LongerFirst(text[0], text[1..], Split(text[1..])); }
    }
  }

  lemma LongerFirst(c: char, text: string, parts: seq<string>)
    requires c != ',' && parts != [] && JoinedByComma(parts) == text && WithoutComma(parts)
    ensures var longer := [[c] + parts[0]] + parts[1..];
            JoinedByComma(longer) == [c] + text && WithoutComma(longer)
  {
    var first, rest := parts[0], parts[1..];
    assert parts == [first] + rest;
    JoinedCons(first, rest);
    JoinedCons([c] + first, rest);
    if rest != [] { ThreeJoined([c], first, "," + JoinedByComma(rest)); }
    NoCommaCons([c] + first, rest);
  }

  lemma ThreeJoined(a: string, b: string, c: string)
    ensures (a + b) + c == a + (b + c)
  {
  }

  lemma NoCommaCons(first: string, rest: seq<string>)
    requires ',' !in first && WithoutComma(rest)
    ensures WithoutComma([first] + rest)
  {
  }

  lemma JoinedCons(first: string, rest: seq<string>)
    ensures JoinedByComma([first] + rest) == if rest == [] then first else first + ("," + JoinedByComma(rest))
  {
    assert ([first] + rest)[1..] == rest;
  }

  /** `text.split(",")`. */
  function Split(text: string): (parts: seq<string>)
    ensures parts != []
  {
    if text == "" then [""]
    else
      var rest := Split(text[1..]);
      if text[0] == ',' then [""] + rest else [[text[0]] + rest[0]] + rest[1..]
  }

  predicate IsDigit(c: char) {
    '0' <= c <= '9'
  }

  function DigitValue(c: char): nat
    requires IsDigit(c)
  {
    c as int - '0' as int
  }

  function DigitChar(d: nat): (c: char)
    requires d < 10
    ensures IsDigit(c) && DigitValue(c) == d
  {
    (d + '0' as int) as char
  }

  /** Lexicographic order by code point, as strings compare. */
  predicate Less(a: string, b: string) {
    b != "" && (a == "" || a[0] < b[0] || (a[0] == b[0] && Less(a[1..], b[1..])))
  }

  lemma {:induction false} LessIsTotal(a: string, b: string)
    ensures Less(a, b) || a == b || Less(b, a)
    ensures Less(a, b) ==> a != b && !Less(b, a)
  {
    if a != "" && b != "" {
      LessIsTotal(a[1..], b[1..]);
      if a[0] == b[0] && a[1..] == b[1..] {
        assert a == [a[0]] + a[1..] && b == [b[0]] + b[1..];
      }
    }
  }

  lemma {:induction false} LessIsTransitive(a: string, b: string, c: string)
    requires Less(a, b) && Less(b, c)
    ensures Less(a, c)
  {
    if a != "" && a[0] == b[0] == c[0] {
      LessIsTransitive(a[1..], b[1..], c[1..]);
    }
  }

  /** `a` is not after `b`. */
  predicate AtMost(a: string, b: string) {
    !Less(b, a)
  }

  lemma AtMostIsTransitive(a: string, b: string, c: string)
    requires AtMost(a, b) && AtMost(b, c)
    ensures AtMost(a, c)
  {
    LessIsTotal(a, b);
    LessIsTotal(b, c);
    if Less(a, b) && Less(b, c) {
      LessIsTransitive(a, b, c);
      LessIsTotal(a, c);
    }
  }
}
