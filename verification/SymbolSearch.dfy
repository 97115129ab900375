/** The symbol search of blueprints/search.py: the union of what the engines answer over every requested
 * exchange and instrument type, each symbol once.
 */
module SymbolSearch {
  import opened Wrappers
  import opened Text

  /** A result row: its key and whatever else it shows. */
  datatype Row = Row(symbol: string, exchange: string, shown: string)

  function KeyOf(r: Row): (string, string) {
    (r.symbol, r.exchange)
  }

  /** The engines, as functions of the exchange and the instrument type (none: any), and the exchanges
    * that always use the derivatives engine. Rows are as they will be shown. */
  datatype Engines = Engines(derivatives: (Option<string>, Option<string>) -> seq<Row>,
                             plain: Option<string> -> seq<Row>,
                             derivativeExchanges: set<string>)

  /** A request, its text parameters stripped; a strike bound of zero is given but not a filter. */
  datatype Request = Request(query: string, exchanges: seq<string>, types: seq<string>, expiry: string,
                             underlying: string, strikeMin: Option<real>, strikeMax: Option<real>)

  // ---------------------------------------------------------------- parameters

  function Cleaned(parts: seq<string>): seq<string> {
    if parts == [] then []
    else (if Strip(parts[0]) != "" then [Upper(Strip(parts[0]))] else []) + Cleaned(parts[1..])
  }

  function ParseMulti(value: string): seq<string> {
    Cleaned(Split(value))
  }

  lemma {:induction false} SplitAppend(a: string, b: string)
    ensures Split(a + "," + b) == Split(a) + Split(b)
  {
    if a == "" {
      assert a + "," + b == "," + b;
      assert ("," + b)[1..] == b;
    } else {
      assert (a + "," + b)[1..] == a[1..] + "," + b;
      SplitAppend(a[1..], b);
    }
  }

  lemma {:induction false} CleanedAppend(a: seq<string>, b: seq<string>)
    ensures Cleaned(a + b) == Cleaned(a) + Cleaned(b)
  {
    if a == [] {
      assert a + b == b;
    } else {
      assert (a + b)[1..] == a[1..] + b;
      CleanedAppend(a[1..], b);
    }
  }

  /** A comma-separated parameter is read value by value. */
  lemma ParseIsPerValue(a: string, b: string)
    ensures ParseMulti(a + "," + b) == ParseMulti(a) + ParseMulti(b)
  {
    SplitAppend(a, b);
    CleanedAppend(Split(a), Split(b));
  }

  /** One value: stripped and in capitals, or nothing if it is blank. */
  lemma ParseOneValue(value: string)
    requires ',' !in value
    ensures ParseMulti(value) == if Strip(value) == "" then [] else [Upper(Strip(value))]
  {
    SplitOne(value);
    assert Cleaned([value][1..]) == [];
  }

  lemma {:induction false} SplitOne(value: string)
    requires ',' !in value
    ensures Split(value) == [value]
  {
    if value != "" {
      SplitOne(value[1..]);
      assert [value[0]] + value[1..] == value;
    }
  }

  // ---------------------------------------------------------------- the rows asked for

  predicate IsFilter(bound: Option<real>) {
    bound.Some? && bound.value != 0.0
  }

  predicate HasDerivativeFilters(r: Request) {
    r.expiry != "" || r.types != [] || r.underlying != "" || IsFilter(r.strikeMin) || IsFilter(r.strikeMax)
  }

  /** The values to iterate over: the given ones, or one that stands for all. */
  function OrAny(values: seq<string>): (r: seq<Option<string>>)
    ensures r != []
  {
    if values == [] then [None] else seq(|values|, i requires 0 <= i < |values| => Some(values[i]))
  }

  function RowsOf(r: Request, engines: Engines, exchange: Option<string>, kind: Option<string>): seq<Row> {
    if HasDerivativeFilters(r) || (exchange.Some? && exchange.value in engines.derivativeExchanges)
    then engines.derivatives(exchange, kind) else engines.plain(exchange)
  }

  /** Everything the engines answer for a list of values, in order. */
  function Answers<T>(values: seq<T>, rows: T -> seq<Row>): seq<Row> {
    if values == [] then [] else Answers(values[..|values| - 1], rows) + rows(values[|values| - 1])
  }

  function PerType(r: Request, engines: Engines, exchange: Option<string>): Option<string> -> seq<Row> {
    kind => RowsOf(r, engines, exchange, kind)
  }

  function ExchangeRows(r: Request, engines: Engines, exchange: Option<string>): seq<Row> {
    Answers(OrAny(r.types), PerType(r, engines, exchange))
  }

  function PerExchange(r: Request, engines: Engines): Option<string> -> seq<Row> {
    exchange => ExchangeRows(r, engines, exchange)
  }

  function AllRows(r: Request, engines: Engines): seq<Row> {
    Answers(OrAny(r.exchanges), PerExchange(r, engines))
  }

  // ---------------------------------------------------------------- each key once

  function Keys(rows: seq<Row>): set<(string, string)> {
    set r | r in rows :: KeyOf(r)
  }

  /** The rows whose key none before them has. */
  function Distinct(rows: seq<Row>): seq<Row> {
    if rows == [] then []
    else
      var n := |rows| - 1;
      if KeyOf(rows[n]) in Keys(rows[..n]) then Distinct(rows[..n]) else Distinct(rows[..n]) + [rows[n]]
  }

  lemma DistinctStep(rows: seq<Row>, r: Row)
    ensures Distinct(rows + [r]) == if KeyOf(r) in Keys(rows) then Distinct(rows) else Distinct(rows) + [r]
    ensures Keys(rows + [r]) == Keys(rows) + {KeyOf(r)}
  {
    assert (rows + [r])[..|rows|] == rows;
  }

  /** No key comes twice, and the keys are those of all the rows. */
  lemma {:induction false} EachKeyOnce(rows: seq<Row>)
    ensures forall i, j :: 0 <= i < j < |Distinct(rows)| ==> KeyOf(Distinct(rows)[i]) != KeyOf(Distinct(rows)[j])
    ensures Keys(Distinct(rows)) == Keys(rows)
  {
    if rows != [] {
      var before, r := rows[..|rows| - 1], rows[|rows| - 1];
      assert rows == before + [r];
      EachKeyOnce(before);
      DistinctStep(before, r);
      if KeyOf(r) !in Keys(before) { KeysStep(Distinct(before), r); KeysMember(Distinct(before)); }
    }
  }

  lemma KeysStep(rows: seq<Row>, r: Row)
    ensures Keys(rows + [r]) == Keys(rows) + {KeyOf(r)}
  {
  }

  lemma KeysMember(rows: seq<Row>)
    ensures forall i :: 0 <= i < |rows| ==> KeyOf(rows[i]) in Keys(rows)
  {
  }

  lemma KeysUnion(a: seq<Row>, b: seq<Row>)
    ensures Keys(a + b) == Keys(a) + Keys(b)
  {
    assert forall r :: r in a + b <==> r in a || r in b;
  }

  lemma {:induction false} DistinctGrows(rows: seq<Row>, n: nat)
    requires n <= |rows|
    ensures Distinct(rows[..n]) <= Distinct(rows)
    decreases |rows| - n
  {
    if n == |rows| {
      assert rows[..n] == rows;
    } else {
      DistinctGrows(rows, n + 1);
      assert rows[..n + 1] == rows[..n] + [rows[n]];
      DistinctStep(rows[..n], rows[n]);
    }
  }

  /** Keys keep the order they first appear in: the first row of a key stands after exactly the keys that
    * appeared before it, and it is that row that is kept. */
  lemma FirstAppearanceOrder(rows: seq<Row>, i: nat)
    requires i < |rows| && KeyOf(rows[i]) !in Keys(rows[..i])
    ensures |Distinct(rows[..i])| < |Distinct(rows)| && Distinct(rows)[|Distinct(rows[..i])|] == rows[i]
  {
    var before, all := Distinct(rows[..i]), Distinct(rows);
    assert before + [rows[i]] <= all by {
      DistinctGrows(rows, i + 1);
      assert rows[..i + 1] == rows[..i] + [rows[i]];
      DistinctStep(rows[..i], rows[i]);
    }
    assert all[|before|] == (before + [rows[i]])[|before|];
  }

  /** The rows of `rows` whose key is not in `keys`. */
  function Outside(rows: seq<Row>, keys: set<(string, string)>): seq<Row> {
    if rows == [] then []
    else
      var n := |rows| - 1;
      Outside(rows[..n], keys) + if KeyOf(rows[n]) in keys then [] else [rows[n]]
  }

  lemma OutsideStep(rows: seq<Row>, r: Row, keys: set<(string, string)>)
    ensures Outside(rows + [r], keys) == Outside(rows, keys) + if KeyOf(r) in keys then [] else [r]
  {
    assert (rows + [r])[..|rows|] == rows;
  }

  /** One more row, in a list that follows another. */
  lemma OneMore(da: seq<Row>, keysA: set<(string, string)>, db: seq<Row>, keysB: set<(string, string)>, r: Row)
    ensures da + Outside(if KeyOf(r) in keysB then db else db + [r], keysA)
         == if KeyOf(r) in keysA + keysB then da + Outside(db, keysA) else da + Outside(db, keysA) + [r]
  {
    OutsideStep(db, r, keysA);
    if KeyOf(r) in keysA {
      assert Outside(db, keysA) + [] == Outside(db, keysA);
    } else {
      assert da + (Outside(db, keysA) + [r]) == da + Outside(db, keysA) + [r];
    }
  }

  lemma DistinctAppendStep(a: seq<Row>, before: seq<Row>, r: Row)
    requires Distinct(a + before) == Distinct(a) + Outside(Distinct(before), Keys(a))
    ensures Distinct(a + (before + [r])) == Distinct(a) + Outside(Distinct(before + [r]), Keys(a))
  {
    var da, db, ka, kb := Distinct(a), Distinct(before), Keys(a), Keys(before);
    var both := Distinct(a + before);
    assert Distinct(a + (before + [r])) == (if KeyOf(r) in ka + kb then both else both + [r]) by {
      assert a + (before + [r]) == (a + before) + [r];
      DistinctStep(a + before, r);
      KeysUnion(a, before);
    }
    assert Distinct(before + [r]) == (if KeyOf(r) in kb then db else db + [r]) by { DistinctStep(before, r); }
    OneMore(da, ka, db, kb, r);
  }

  /** More rows add only what they have that is new. */
  lemma {:induction false} DistinctAppend(a: seq<Row>, b: seq<Row>)
    ensures Distinct(a + b) == Distinct(a) + Outside(Distinct(b), Keys(a))
  {
    if b == [] {
      assert a + b == a && Distinct(b) == [];
    } else {
      var before, r := b[..|b| - 1], b[|b| - 1];
      assert b == before + [r];
      DistinctAppend(a, before);
      assert Distinct(a + (before + [r])) == Distinct(a) + Outside(Distinct(before + [r]), Keys(a)) by {
        DistinctAppendStep(a, before, r);
      }
    }
  }

  /** The search answers the same when parts of the rows are replaced by rows with the same distinct ones. */
  lemma SameDistinct(a: seq<Row>, a': seq<Row>, b: seq<Row>, b': seq<Row>)
    requires Distinct(a) == Distinct(a') && Distinct(b) == Distinct(b')
    ensures Distinct(a + b) == Distinct(a' + b')
  {
    DistinctAppend(a, b);
    DistinctAppend(a', b');
    EachKeyOnce(a);
    EachKeyOnce(a');
  }

  lemma {:induction false} OutsideOwnKeys(rows: seq<Row>, keys: set<(string, string)>)
    requires Keys(rows) <= keys
    ensures Outside(rows, keys) == []
  {
    if rows != [] {
      var n := |rows| - 1;
      KeysMember(rows);
      assert rows == rows[..n] + [rows[n]];
      KeysUnion(rows[..n], [rows[n]]);
      OutsideOwnKeys(rows[..n], keys);
    }
  }

  lemma NothingNew(a: seq<Row>, b: seq<Row>)
    requires Keys(b) <= Keys(a)
    ensures Distinct(a + b) == Distinct(a)
  {
    DistinctAppend(a, b);
    EachKeyOnce(b);
    OutsideOwnKeys(Distinct(b), Keys(a));
  }

  // ---------------------------------------------------------------- the search

  /** The seen set and the growing list, over both loops and the rows of each answer. */
  method ApiSearch(r: Request, engines: Engines) returns (found: seq<Row>)
    ensures found == if r.query == "" && r.exchanges == [] then [] else Distinct(AllRows(r, engines))
  {
    found := [];
    if r.query == "" && r.exchanges == [] { return; }
    var exchanges := OrAny(r.exchanges);
    var seen: set<(string, string)> := {};
    ghost var rows := PerExchange(r, engines);
    var i := 0;
    while i < |exchanges|
      invariant i <= |exchanges|
      invariant found == Distinct(Answers(exchanges[..i], rows))
      invariant seen == Keys(Answers(exchanges[..i], rows))
    {
      found, seen := SearchExchange(r, engines, exchanges[i], found, seen, Answers(exchanges[..i], rows));
      AnswersStep(exchanges, i, rows);
      i := i + 1;
    }
    assert exchanges[..i] == exchanges;
  }

  method SearchExchange(r: Request, engines: Engines, exchange: Option<string>, found: seq<Row>,
                        seen: set<(string, string)>, ghost before: seq<Row>)
    returns (found': seq<Row>, seen': set<(string, string)>)
    requires found == Distinct(before) && seen == Keys(before)
    ensures var rows := before + ExchangeRows(r, engines, exchange);
            found' == Distinct(rows) && seen' == Keys(rows)
  {
    found', seen' := found, seen;
    var kinds := OrAny(r.types);
    ghost var rows := PerType(r, engines, exchange);
    ghost var done := before;
    var j := 0;
    while j < |kinds|
      invariant j <= |kinds|
      invariant done == before + Answers(kinds[..j], rows)
      invariant found' == Distinct(done) && seen' == Keys(done)
    {
      var answer := RowsOf(r, engines, exchange, kinds[j]);
      found', seen' := Collect(found', seen', answer, done);
      done := done + answer;
      AnswersStep(kinds, j, rows);
      Regroup(before, Answers(kinds[..j], rows), answer);
      j := j + 1;
    }
    assert kinds[..j] == kinds;
  }

  lemma Regroup(a: seq<Row>, b: seq<Row>, c: seq<Row>)
    ensures (a + b) + c == a + (b + c)
  {
  }

  method Collect(found: seq<Row>, seen: set<(string, string)>, rows: seq<Row>, ghost before: seq<Row>)
    returns (found': seq<Row>, seen': set<(string, string)>)
    requires found == Distinct(before) && seen == Keys(before)
    ensures found' == Distinct(before + rows) && seen' == Keys(before + rows)
  {
    found', seen' := found, seen;
    ghost var done := before;
    var i := 0;
    while i < |rows|
      invariant i <= |rows|
      invariant done == before + rows[..i]
      invariant found' == Distinct(done) && seen' == Keys(done)
    {
      found', seen' := CollectRow(found', seen', rows[i], done);
      assert rows[..i + 1] == rows[..i] + [rows[i]];
      Regroup(before, rows[..i], [rows[i]]);
      done := done + [rows[i]];
      i := i + 1;
    }
    assert rows[..i] == rows;
  }

  method CollectRow(found: seq<Row>, seen: set<(string, string)>, row: Row, ghost done: seq<Row>)
    returns (found': seq<Row>, seen': set<(string, string)>)
    requires found == Distinct(done) && seen == Keys(done)
    ensures found' == Distinct(done + [row]) && seen' == Keys(done + [row])
  {
    DistinctStep(done, row);
    if KeyOf(row) in seen {
      assert seen + {KeyOf(row)} == seen;
      return found, seen;
    }
    return found + [row], seen + {KeyOf(row)};
  }

  lemma AnswersStep<T>(values: seq<T>, n: nat, rows: T -> seq<Row>)
    requires n < |values|
    ensures Answers(values[..n + 1], rows) == Answers(values[..n], rows) + rows(values[n])
  {
    assert values[..n + 1][..n] == values[..n];
  }

  lemma {:induction false} AnswersSame<T>(values: seq<T>, f: T -> seq<Row>, g: T -> seq<Row>)
    requires forall i :: 0 <= i < |values| ==> f(values[i]) == g(values[i])
    ensures Answers(values, f) == Answers(values, g)
  {
    if values != [] { AnswersSame(values[..|values| - 1], f, g); }
  }

  // ---------------------------------------------------------------- repeated values

  lemma {:induction false} AnswersAppend<T>(a: seq<T>, b: seq<T>, rows: T -> seq<Row>)
    ensures Answers(a + b, rows) == Answers(a, rows) + Answers(b, rows)
  {
    if b == [] {
      assert a + b == a;
    } else {
      var n := |b| - 1;
      assert a + b == (a + b[..n]) + [b[n]];
      assert (a + b)[..|a + b| - 1] == a + b[..n];
      AnswersAppend(a, b[..n], rows);
    }
  }

  lemma {:induction false} AnswersHold<T>(values: seq<T>, i: nat, rows: T -> seq<Row>)
    requires i < |values|
    ensures Keys(rows(values[i])) <= Keys(Answers(values, rows))
  {
    var n := |values| - 1;
    KeysUnion(Answers(values[..n], rows), rows(values[n]));
    if i < n { AnswersHold(values[..n], i, rows); }
  }

  /** A value given again later finds nothing new. */
  lemma RepeatedAnswer<T>(a: seq<T>, x: T, b: seq<T>, rows: T -> seq<Row>)
    requires x in a
    ensures Distinct(Answers(a + [x] + b, rows)) == Distinct(Answers(a + b, rows))
  {
    var i :| 0 <= i < |a| && a[i] == x;
    AnswersHold(a, i, rows);
    assert (a + [x])[..|a|] == a;
    AnswersAppend(a + [x], b, rows);
    AnswersAppend(a, b, rows);
    NothingNew(Answers(a, rows), rows(x));
    SameDistinct(Answers(a + [x], rows), Answers(a, rows), Answers(b, rows), Answers(b, rows));
  }

  lemma {:induction false} SameAnswers<T>(values: seq<T>, f: T -> seq<Row>, g: T -> seq<Row>)
    requires forall i :: 0 <= i < |values| ==> Distinct(f(values[i])) == Distinct(g(values[i]))
    ensures Distinct(Answers(values, f)) == Distinct(Answers(values, g))
  {
    if values != [] {
      var n := |values| - 1;
      SameAnswers(values[..n], f, g);
      SameDistinct(Answers(values[..n], f), Answers(values[..n], g), f(values[n]), g(values[n]));
    }
  }

  lemma OrAnyAppend(a: seq<string>, x: string, b: seq<string>)
    requires x in a
    ensures Some(x) in OrAny(a)
    ensures OrAny(a + [x] + b) == OrAny(a) + [Some(x)] + Somes(b) && OrAny(a + b) == OrAny(a) + Somes(b)
  {
    var i :| 0 <= i < |a| && a[i] == x;
    assert OrAny(a)[i] == Some(x);
  }

  function Somes(values: seq<string>): seq<Option<string>> {
    seq(|values|, i requires 0 <= i < |values| => Some(values[i]))
  }

  /** Naming an exchange again changes nothing in the answer. */
  lemma RepeatedExchange(r: Request, a: seq<string>, x: string, b: seq<string>, engines: Engines)
    requires r.exchanges == a + [x] + b && x in a
    ensures Distinct(AllRows(r, engines)) == Distinct(AllRows(r.(exchanges := a + b), engines))
  {
    var r' := r.(exchanges := a + b);
    var f, g := PerExchange(r, engines), PerExchange(r', engines);
    OrAnyAppend(a, x, b);
    RepeatedAnswer(OrAny(a), Some(x), Somes(b), f);
    forall i | 0 <= i < |OrAny(a + b)| ensures f(OrAny(a + b)[i]) == g(OrAny(a + b)[i]) {
      var exchange := OrAny(a + b)[i];
      AnswersSame(OrAny(r.types), PerType(r, engines, exchange), PerType(r', engines, exchange));
    }
    AnswersSame(OrAny(a + b), f, g);
  }

  /** Naming an instrument type again changes nothing in the answer. */
  lemma RepeatedType(r: Request, a: seq<string>, x: string, b: seq<string>, engines: Engines)
    requires r.types == a + [x] + b && x in a
    ensures Distinct(AllRows(r, engines)) == Distinct(AllRows(r.(types := a + b), engines))
  {
    var r' := r.(types := a + b);
    forall i | 0 <= i < |OrAny(r.exchanges)|
      ensures Distinct(PerExchange(r, engines)(OrAny(r.exchanges)[i]))
           == Distinct(PerExchange(r', engines)(OrAny(r.exchanges)[i])) {
      RepeatedTypeOnExchange(r, a, x, b, engines, OrAny(r.exchanges)[i]);
    }
    SameAnswers(OrAny(r.exchanges), PerExchange(r, engines), PerExchange(r', engines));
  }

  lemma RepeatedTypeOnExchange(r: Request, a: seq<string>, x: string, b: seq<string>, engines: Engines,
                               exchange: Option<string>)
    requires r.types == a + [x] + b && x in a
    ensures Distinct(ExchangeRows(r, engines, exchange))
         == Distinct(ExchangeRows(r.(types := a + b), engines, exchange))
  {
    var r' := r.(types := a + b);
    OrAnyAppend(a, x, b);
    RepeatedAnswer(OrAny(a), Some(x), Somes(b), PerType(r, engines, exchange));
    assert a + b != [];
    AnswersSame(OrAny(a + b), PerType(r, engines, exchange), PerType(r', engines, exchange));
  }

  /** The answer has each key once, exactly the keys of what the engines answered over every requested
    * exchange and type. */
  lemma AnswerIsTheUnion(r: Request, engines: Engines)
    ensures var found := Distinct(AllRows(r, engines));
            && (forall i, j :: 0 <= i < j < |found| ==> KeyOf(found[i]) != KeyOf(found[j]))
            && (forall key :: key in Keys(found) <==>
                  exists i, j :: 0 <= i < |OrAny(r.exchanges)| && 0 <= j < |OrAny(r.types)|
                    && key in Keys(RowsOf(r, engines, OrAny(r.exchanges)[i], OrAny(r.types)[j])))
  {
    EachKeyOnce(AllRows(r, engines));
    var exchanges, kinds := OrAny(r.exchanges), OrAny(r.types);
    forall key
      ensures key in Keys(AllRows(r, engines)) <==>
                exists i, j :: 0 <= i < |exchanges| && 0 <= j < |kinds|
                  && key in Keys(RowsOf(r, engines, exchanges[i], kinds[j])) {
      KeyFrom(exchanges, key, PerExchange(r, engines));
      forall i | 0 <= i < |exchanges|
        ensures key in Keys(PerExchange(r, engines)(exchanges[i])) <==>
                  exists j :: 0 <= j < |kinds| && key in Keys(RowsOf(r, engines, exchanges[i], kinds[j])) {
        KeyFrom(kinds, key, PerType(r, engines, exchanges[i]));
      }
    }
  }

  /** The exchanges, or types, a request asks about: those it names, or any. */
  predicate AsksAbout(value: Option<string>, named: seq<string>) {
    if named == [] then value.None? else value.Some? && value.value in named
  }

  lemma OrAnyIff(named: seq<string>, value: Option<string>)
    ensures value in OrAny(named) <==> AsksAbout(value, named)
  {
    if named != [] && value.Some? && value.value in named {
      var i :| 0 <= i < |named| && named[i] == value.value;
      assert OrAny(named)[i] == value;
    }
  }

  /** The answer holds a key if and only if, for an exchange and a type the request asks about, the derivatives
    * engine answers it -- when the request filters by expiry, type, underlying or a strike other than zero, or
    * the exchange is one of derivatives -- or else the plain engine does. */
  lemma EnginesAnswerIff(r: Request, engines: Engines, key: (string, string))
    ensures (exists row :: row in Distinct(AllRows(r, engines)) && (row.symbol, row.exchange) == key)
       <==> exists exchange, kind :: AsksAbout(exchange, r.exchanges) && AsksAbout(kind, r.types)
              && Answered(r, engines, exchange, kind, key)
  {
    assert key in Keys(Distinct(AllRows(r, engines)))
      <==> exists row :: row in Distinct(AllRows(r, engines)) && (row.symbol, row.exchange) == key;
    if key in Keys(Distinct(AllRows(r, engines))) {
      var exchange, kind := AskedForKey(r, engines, key);
      OrAnyIff(r.exchanges, exchange);
      OrAnyIff(r.types, kind);
      AnsweredIff(r, engines, exchange, kind, key);
    }
    if exchange, kind :| AsksAbout(exchange, r.exchanges) && AsksAbout(kind, r.types)
                         && Answered(r, engines, exchange, kind, key) {
      OrAnyIff(r.exchanges, exchange);
      OrAnyIff(r.types, kind);
      AnsweredIff(r, engines, exchange, kind, key);
      AskedKeyIsFound(r, engines, exchange, kind, key);
    }
  }

  lemma AskedForKey(r: Request, engines: Engines, key: (string, string))
    returns (exchange: Option<string>, kind: Option<string>)
    requires key in Keys(Distinct(AllRows(r, engines)))
    ensures exchange in OrAny(r.exchanges) && kind in OrAny(r.types)
    ensures key in Keys(RowsOf(r, engines, exchange, kind))
  {
    EachKeyOnce(AllRows(r, engines));
    KeyFrom(OrAny(r.exchanges), key, PerExchange(r, engines));
    var i :| 0 <= i < |OrAny(r.exchanges)| && key in Keys(PerExchange(r, engines)(OrAny(r.exchanges)[i]));
    exchange := OrAny(r.exchanges)[i];
    KeyFrom(OrAny(r.types), key, PerType(r, engines, exchange));
    var j :| 0 <= j < |OrAny(r.types)| && key in Keys(PerType(r, engines, exchange)(OrAny(r.types)[j]));
    kind := OrAny(r.types)[j];
  }

  lemma AskedKeyIsFound(r: Request, engines: Engines, exchange: Option<string>, kind: Option<string>,
                        key: (string, string))
    requires exchange in OrAny(r.exchanges) && kind in OrAny(r.types)
    requires key in Keys(RowsOf(r, engines, exchange, kind))
    ensures key in Keys(Distinct(AllRows(r, engines)))
  {
    EachKeyOnce(AllRows(r, engines));
    var i :| 0 <= i < |OrAny(r.exchanges)| && OrAny(r.exchanges)[i] == exchange;
    var j :| 0 <= j < |OrAny(r.types)| && OrAny(r.types)[j] == kind;
    assert key in Keys(PerType(r, engines, exchange)(OrAny(r.types)[j]));
    KeyFrom(OrAny(r.types), key, PerType(r, engines, exchange));
    assert key in Keys(PerExchange(r, engines)(OrAny(r.exchanges)[i]));
    KeyFrom(OrAny(r.exchanges), key, PerExchange(r, engines));
  }

  /** The engine for this exchange answers a row with this key. */
  ghost predicate Answered(r: Request, engines: Engines, exchange: Option<string>, kind: Option<string>,
                           key: (string, string)) {
    if r.expiry != "" || r.types != [] || r.underlying != ""
       || (r.strikeMin.Some? && r.strikeMin.value != 0.0) || (r.strikeMax.Some? && r.strikeMax.value != 0.0)
       || (exchange.Some? && exchange.value in engines.derivativeExchanges)
    then exists row :: row in engines.derivatives(exchange, kind) && (row.symbol, row.exchange) == key
    else exists row :: row in engines.plain(exchange) && (row.symbol, row.exchange) == key
  }

  lemma AnsweredIff(r: Request, engines: Engines, exchange: Option<string>, kind: Option<string>,
                    key: (string, string))
    ensures Answered(r, engines, exchange, kind, key) <==> key in Keys(RowsOf(r, engines, exchange, kind))
  {
    var rows := RowsOf(r, engines, exchange, kind);
    assert key in Keys(rows) <==> exists row :: row in rows && (row.symbol, row.exchange) == key;
  }

  lemma {:induction false} KeyFrom<T>(values: seq<T>, key: (string, string), rows: T -> seq<Row>)
    ensures key in Keys(Answers(values, rows)) <==> exists i :: 0 <= i < |values| && key in Keys(rows(values[i]))
  {
    if values != [] {
      var n := |values| - 1;
      KeysUnion(Answers(values[..n], rows), rows(values[n]));
      KeyFrom(values[..n], key, rows);
      if exists i :: 0 <= i < |values| && key in Keys(rows(values[i])) {
        var i :| 0 <= i < |values| && key in Keys(rows(values[i]));
        if i < n { assert values[..n][i] == values[i]; }
      }
    }
  }
}
