/** The webhook of blueprints/chartink.py: which action a scan asks for, when a strategy accepts it, and
 * which orders it queues.
 */
module ChartinkWebhook {
  import opened Wrappers
  import opened Text
  import opened Positions
  import opened ChartinkProcessor
  import opened ChartinkQueues

  /** The clock times of a strategy in minutes of the day, as `%H:%M` reads them; none where it does not. */
  datatype Times = Times(start: Option<nat>, end: Option<nat>, squareoff: Option<nat>)

  /** A strategy with the payload of each mapped symbol. */
  datatype Strategy = Strategy(active: bool, intraday: bool, times: Times, payloads: map<string, nat>, hasKey: bool)

  /** What a scan asks for. Entries are regular orders with a quantity, exits are smart orders. */
  datatype Keyword = Buy | Sell | Short | Cover

  datatype Outcome = UnknownWebhook | Inactive | NoData | NoAction | BadTimes | TooEarly | TooLate | EntriesOver
                   | NoMappings | NoKey | NothingQueued | Queued(symbols: seq<string>)

  predicate IsEntry(a: Keyword) {
    a.Buy? || a.Short?
  }

  function Word(a: Keyword): string {
    match a
    case Buy => "BUY"
    case Sell => "SELL"
    case Short => "SHORT"
    case Cover => "COVER"
  }

  /** The scan name holds this word, in any case. */
  predicate Holds(scanName: string, a: Keyword) {
    Contains(Upper(scanName), Word(a))
  }

  /** The first of the four words the scan name contains, tried in this order. */
  function ActionOf(scanName: string): Option<Keyword> {
    var name := Upper(scanName);
    if Contains(name, "BUY") then Some(Buy)
    else if Contains(name, "SELL") then Some(Sell)
    else if Contains(name, "SHORT") then Some(Short)
    else if Contains(name, "COVER") then Some(Cover)
    else None
  }

  /** The time gate; none lets the scan through. */
  function Gate(s: Strategy, entry: bool, now: real): Option<Outcome> {
    if !s.intraday then None
    else if s.times.start.None? || s.times.end.None? || s.times.squareoff.None? then Some(BadTimes)
    else if now < s.times.start.value as real then Some(TooEarly)
    else if now >= s.times.squareoff.value as real then Some(TooLate)
    else if entry && now >= s.times.end.value as real then Some(EntriesOver)
    else None
  }

  /** The symbols that are queued, in the order of the request, as often as they are named. */
  function Mapped(symbols: seq<string>, payloads: map<string, nat>): (r: seq<string>)
    ensures forall i :: 0 <= i < |r| ==> r[i] in payloads
  {
    if symbols == [] then []
    else
      var last := Strip(symbols[|symbols| - 1]);
      Mapped(symbols[..|symbols| - 1], payloads) + if last != "" && last in payloads then [last] else []
  }

  function OrdersFor(symbols: seq<string>, payloads: map<string, nat>): seq<Item>
    requires forall i :: 0 <= i < |symbols| ==> symbols[i] in payloads
  {
    seq(|symbols|, i requires 0 <= i < |symbols| => Order(payloads[symbols[i]]))
  }

  /** What the webhook is given: the strategy its id names, the clock, and what was sent. */
  datatype Request = Request(strategy: Option<Strategy>, now: real, hasData: bool, scanName: string, stocks: string)

  /** What the request comes to before anything is queued. */
  function Checked(r: Request): Option<Outcome> {
    if r.strategy.None? then Some(UnknownWebhook)
    else if !r.strategy.value.active then Some(Inactive)
    else if !r.hasData then Some(NoData)
    else if ActionOf(r.scanName).None? then Some(NoAction)
    else if Gate(r.strategy.value, IsEntry(ActionOf(r.scanName).value), r.now).Some? then
      Gate(r.strategy.value, IsEntry(ActionOf(r.scanName).value), r.now)
    else if r.strategy.value.payloads == map[] then Some(NoMappings)
    else if !r.strategy.value.hasKey then Some(NoKey)
    else None
  }

  function SymbolsOf(r: Request): (symbols: seq<string>)
    ensures r.strategy.Some? ==> forall i :: 0 <= i < |symbols| ==> symbols[i] in r.strategy.value.payloads
  {
    if r.strategy.None? then [] else Mapped(Split(r.stocks), r.strategy.value.payloads)
  }

  /** What a request puts on one of the queues: nothing if it is turned away, else on the queue of its
    * action every mapped symbol it names, in order. */
  function Put(r: Request, smart: bool): seq<Item> {
    if Checked(r).None? && IsEntry(ActionOf(r.scanName).value) != smart then
      OrdersFor(SymbolsOf(r), r.strategy.value.payloads)
    else []
  }

  /** Both queues grow by what the request puts on them; it starts a worker if it queued anything and
    * found none. */
  method Webhook(p: Processor, r: Request) returns (outcome: Outcome, start: bool)
    modifies p`running, p`smartOrders, p`regularOrders
    ensures p.regularOrders == old(p.regularOrders) + Put(r, false)
    ensures p.smartOrders == old(p.smartOrders) + Put(r, true)
    ensures outcome == if Checked(r).Some? then Checked(r).value
                       else if SymbolsOf(r) == [] then NothingQueued else Queued(SymbolsOf(r))
    ensures start <==> Checked(r).None? && SymbolsOf(r) != [] && !old(p.running)
  {
    assert p.regularOrders + [] == p.regularOrders && p.smartOrders + [] == p.smartOrders;
    start := false;
    if r.strategy.None? { return UnknownWebhook, false; }
    var s, now := r.strategy.value, r.now;
    if !s.active { return Inactive, false; }
    if !r.hasData { return NoData, false; }
    var action := ActionOf(r.scanName);
    if action.None? { return NoAction, false; }
    var entry := IsEntry(action.value);
    if s.intraday {
      if s.times.start.None? || s.times.end.None? || s.times.squareoff.None? { return BadTimes, false; }
      if now < s.times.start.value as real { return TooEarly, false; }
      if now >= s.times.squareoff.value as real { return TooLate, false; }
      if entry && now >= s.times.end.value as real { return EntriesOver, false; }
    }
    if s.payloads == map[] { return NoMappings, false; }
    if !s.hasKey { return NoKey, false; }
    var queued: seq<string>;
    queued, start := QueueSymbols(p, Split(r.stocks), s.payloads, !entry);
    outcome := if queued == [] then NothingQueued else Queued(queued);
  }

  method QueueSymbols(p: Processor, symbols: seq<string>, payloads: map<string, nat>, smart: bool)
    returns (queued: seq<string>, start: bool)
    modifies p`running, p`smartOrders, p`regularOrders
    ensures queued == Mapped(symbols, payloads)
    ensures p.smartOrders == if smart then old(p.smartOrders) + OrdersFor(queued, payloads) else old(p.smartOrders)
    ensures p.regularOrders
         == if smart then old(p.regularOrders) else old(p.regularOrders) + OrdersFor(queued, payloads)
    ensures start <==> queued != [] && !old(p.running)
  {
    queued, start := [], false;
    ghost var was := if smart then p.smartOrders else p.regularOrders;
    ghost var orders: seq<Item> := [];
    assert was + orders == was;
    for i := 0 to |symbols|
      invariant queued == Mapped(symbols[..i], payloads) && orders == OrdersFor(queued, payloads)
      invariant p.smartOrders == if smart then was + orders else old(p.smartOrders)
      invariant p.regularOrders == if smart then old(p.regularOrders) else was + orders
      invariant start <==> queued != [] && !old(p.running)
      invariant p.running <==> old(p.running) || queued != []
    {
      assert symbols[..i + 1][..i] == symbols[..i];
      var symbol := Strip(symbols[i]);
      if symbol == "" { continue; }
      if symbol !in payloads { continue; }
      var item := Order(payloads[symbol]);
      var first := p.QueueOrder(smart, item);
      start := start || first;
      OneMoreOrder(queued, symbol, payloads, was);
      queued := queued + [symbol];
      orders := orders + [item];
    }
    assert symbols[..|symbols|] == symbols;
  }

  lemma OneMoreOrder(queued: seq<string>, symbol: string, payloads: map<string, nat>, was: seq<Item>)
    requires (forall i :: 0 <= i < |queued| ==> queued[i] in payloads) && symbol in payloads
    ensures OrdersFor(queued + [symbol], payloads) == OrdersFor(queued, payloads) + [Order(payloads[symbol])]
    ensures was + OrdersFor(queued, payloads) + [Order(payloads[symbol])]
         == was + (OrdersFor(queued, payloads) + [Order(payloads[symbol])])
  {
  }

  lemma {:induction false} MappedJoins(a: seq<string>, b: seq<string>, payloads: map<string, nat>)
    ensures Mapped(a + b, payloads) == Mapped(a, payloads) + Mapped(b, payloads)
  {
    if b == [] {
      assert a + b == a;
    } else {
      assert (a + b)[..|a + b| - 1] == a + b[..|b| - 1];
      MappedJoins(a, b[..|b| - 1], payloads);
    }
  }

  /** A symbol named twice is queued twice: a scan that repeats its stocks places every order again. */
  lemma RepeatedStocksRepeatOrders(stocks: seq<string>, payloads: map<string, nat>)
    ensures Mapped(stocks + stocks, payloads) == Mapped(stocks, payloads) + Mapped(stocks, payloads)
  {
    MappedJoins(stocks, stocks, payloads);
  }

  // ---------------------------------------------------------------- which orders reach which queue

  /** One of the listed symbols, stripped, is mapped to this payload. */
  ghost predicate Names(symbols: seq<string>, payloads: map<string, nat>, payload: nat) {
    exists i :: 0 <= i < |symbols| && MapsTo(symbols[i], payloads, payload)
  }

  predicate MapsTo(symbol: string, payloads: map<string, nat>, payload: nat) {
    Strip(symbol) != "" && Strip(symbol) in payloads && payloads[Strip(symbol)] == payload
  }

  lemma NamesAppend(symbols: seq<string>, last: string, payloads: map<string, nat>, payload: nat)
    ensures Names(symbols + [last], payloads, payload)
       <==> Names(symbols, payloads, payload) || MapsTo(last, payloads, payload)
  {
    var all := symbols + [last];
    if Names(symbols, payloads, payload) {
      var i :| 0 <= i < |symbols| && MapsTo(symbols[i], payloads, payload);
      assert all[i] == symbols[i];
    }
    assert all[|symbols|] == last;
  }

  lemma {:induction false} OrdersForIff(symbols: seq<string>, payloads: map<string, nat>, payload: nat)
    ensures Order(payload) in OrdersFor(Mapped(symbols, payloads), payloads) <==> Names(symbols, payloads, payload)
  {
    if symbols != [] {
      var before, last := symbols[..|symbols| - 1], symbols[|symbols| - 1];
      assert symbols == before + [last];
      OrdersForIff(before, payloads, payload);
      NamesAppend(before, last, payloads, payload);
      if Strip(last) != "" && Strip(last) in payloads {
        OneMoreOrder(Mapped(before, payloads), Strip(last), payloads, []);
      } else {
        assert Mapped(symbols, payloads) == Mapped(before, payloads);
      }
    }
  }

  /** The clock times at which a strategy takes an entry, or an exit. */
  predicate InHours(s: Strategy, entry: bool, now: real) {
    s.intraday ==>
      && s.times.start.Some? && s.times.end.Some? && s.times.squareoff.Some?
      && s.times.start.value as real <= now < s.times.squareoff.value as real
      && (entry ==> now < s.times.end.value as real)
  }

  /** The strategy is there, is running and can place orders. */
  predicate Live(r: Request) {
    r.strategy.Some? && r.strategy.value.active && r.strategy.value.hasKey && r.hasData
  }

  lemma AcceptedIff(r: Request)
    ensures Checked(r).None?
       <==> Live(r) && r.strategy.value.payloads != map[] && ActionOf(r.scanName).Some?
            && InHours(r.strategy.value, IsEntry(ActionOf(r.scanName).value), r.now)
  {
  }

  lemma InPut(r: Request, payload: nat, smart: bool)
    ensures Order(payload) in Put(r, smart)
       <==> Checked(r).None? && IsEntry(ActionOf(r.scanName).value) != smart
            && Names(Split(r.stocks), r.strategy.value.payloads, payload)
  {
    if r.strategy.Some? { OrdersForIff(Split(r.stocks), r.strategy.value.payloads, payload); }
  }

  /** Exactly which orders a request puts on which queue, for every scan name and clock. */
  lemma ReachesIff(r: Request, payload: nat)
    ensures Order(payload) in Put(r, false)
       <==> Live(r) && InHours(r.strategy.value, true, r.now)
            && Names(Split(r.stocks), r.strategy.value.payloads, payload)
            && (Holds(r.scanName, Buy) || (Holds(r.scanName, Short) && !Holds(r.scanName, Sell)))
    ensures Order(payload) in Put(r, true)
       <==> Live(r) && InHours(r.strategy.value, false, r.now)
            && Names(Split(r.stocks), r.strategy.value.payloads, payload)
            && !Holds(r.scanName, Buy)
            && (Holds(r.scanName, Sell) || (Holds(r.scanName, Cover) && !Holds(r.scanName, Short)))
  {
    AcceptedIff(r);
    InPut(r, payload, false);
    InPut(r, payload, true);
  }

  // ---- one order a listed symbol

  /** The strategy orders the symbol that stands at position `i` of the list. */
  predicate Ordered(r: Request, i: nat) {
    && r.strategy.Some? && i < |Split(r.stocks)|
    && Strip(Split(r.stocks)[i]) != "" && Strip(Split(r.stocks)[i]) in r.strategy.value.payloads
  }

  function IsOrdered(r: Request): nat -> bool {
    (i: nat) => Ordered(r, i)
  }

  /** The positions whose symbol is ordered. */
  ghost predicate OrderedPositions(r: Request, at: seq<nat>) {
    Those(at, |Split(r.stocks)|, IsOrdered(r))
  }

  /** A word of the name asks for an entry and none that is looked for before it for an exit; or the reverse. */
  predicate SaysEntry(scanName: string) {
    Holds(scanName, Buy) || (Holds(scanName, Short) && !Holds(scanName, Sell))
  }

  predicate SaysExit(scanName: string) {
    !Holds(scanName, Buy) && (Holds(scanName, Sell) || (Holds(scanName, Cover) && !Holds(scanName, Short)))
  }

  /** The request is taken: its strategy is live, it says what to do, and it comes in the hours for that. */
  predicate IsTaken(r: Request) {
    Live(r) && ((SaysEntry(r.scanName) && InHours(r.strategy.value, true, r.now))
                || (SaysExit(r.scanName) && InHours(r.strategy.value, false, r.now)))
  }

  ghost function PositionsIn(r: Request, n: nat): seq<nat> {
    Numbers(n, IsOrdered(r))
  }

  /** These are the symbols at these positions. */
  ghost predicate SymbolsAt(queued: seq<string>, parts: seq<string>, at: seq<nat>) {
    MadeAt(queued, parts, at, Strip)
  }

  lemma {:induction false} MappedPositions(r: Request, n: nat)
    requires r.strategy.Some? && n <= |Split(r.stocks)|
    ensures SymbolsAt(Mapped(Split(r.stocks)[..n], r.strategy.value.payloads), Split(r.stocks), PositionsIn(r, n))
  {
    if n > 0 {
      var parts, payloads := Split(r.stocks), r.strategy.value.payloads;
      MappedPositions(r, n - 1);
      MappedStep(parts, payloads, n - 1);
      OneMoreMade(Mapped(parts[..n - 1], payloads), parts, PositionsIn(r, n - 1), Strip, n - 1);
    }
  }

  lemma MappedStep(parts: seq<string>, payloads: map<string, nat>, n: nat)
    requires n < |parts|
    ensures var queued, last := Mapped(parts[..n], payloads), Strip(parts[n]);
            Mapped(parts[..n + 1], payloads) == if last != "" && last in payloads then queued + [last] else queued
  {
    assert parts[..n + 1][..n] == parts[..n];
  }

  lemma SymbolsAreAtPositions(r: Request) returns (at: seq<nat>)
    requires r.strategy.Some?
    ensures OrderedPositions(r, at) && SymbolsAt(SymbolsOf(r), Split(r.stocks), at)
  {
    var parts := Split(r.stocks);
    at := PositionsIn(r, |parts|);
    NumbersAreThose(|parts|, IsOrdered(r));
    MappedPositions(r, |parts|);
    assert parts[..|parts|] == parts;
  }

  /** These orders are those of the symbols at these positions, one for each. */
  ghost predicate OrdersAt(r: Request, put: seq<Item>, at: seq<nat>)
    requires r.strategy.Some?
  {
    && |put| == |at|
    && forall j :: 0 <= j < |at| ==>
         && Ordered(r, at[j])
         && put[j] == Order(r.strategy.value.payloads[Strip(Split(r.stocks)[at[j]])])
  }

  lemma OrdersForPositions(r: Request, at: seq<nat>)
    requires r.strategy.Some? && OrderedPositions(r, at) && SymbolsAt(SymbolsOf(r), Split(r.stocks), at)
    ensures OrdersAt(r, OrdersFor(SymbolsOf(r), r.strategy.value.payloads), at)
  {
    forall j | 0 <= j < |at| ensures Ordered(r, at[j]) { assert at[j] in at && IsOrdered(r)(at[j]); }
  }

  /** What a request puts on the queues, symbol by symbol: one order for each listed symbol that is mapped,
    * with its payload, in the order they are listed, on the queue its scan name asks for; nothing on the
    * other; and nothing at all when the request is not taken. */
  lemma OneOrderAPosition(r: Request) returns (at: seq<nat>)
    ensures r.strategy.Some? ==> OrderedPositions(r, at) && SymbolsAt(SymbolsOf(r), Split(r.stocks), at)
    ensures IsTaken(r) ==> OrdersAt(r, Put(r, SaysExit(r.scanName)), at) && Put(r, !SaysExit(r.scanName)) == []
    ensures !IsTaken(r) ==> Put(r, false) == Put(r, true) == []
  {
    AcceptedIff(r);
    TakenIff(r);
    if r.strategy.Some? {
      at := SymbolsAreAtPositions(r);
      OrdersForPositions(r, at);
      if at != [] { assert Ordered(r, at[0]) by { assert at[0] in at && IsOrdered(r)(at[0]); } }
    } else {
      at := [];
    }
  }

  lemma TakenIff(r: Request)
    ensures IsTaken(r) <==> Live(r) && ActionOf(r.scanName).Some?
                            && InHours(r.strategy.value, IsEntry(ActionOf(r.scanName).value), r.now)
    ensures ActionOf(r.scanName).Some? ==> (IsEntry(ActionOf(r.scanName).value) <==> SaysEntry(r.scanName))
    ensures ActionOf(r.scanName).Some? ==> (!IsEntry(ActionOf(r.scanName).value) <==> SaysExit(r.scanName))
  {
  }

  /** The answer to a request, the checks in the order they are made. */
  lemma AnswerIs(r: Request)
    ensures Checked(r) ==
      if r.strategy.None? then Some(UnknownWebhook)
      else
        var s, entry := r.strategy.value, SaysEntry(r.scanName);
        if !s.active then Some(Inactive)
        else if !r.hasData then Some(NoData)
        else if !entry && !SaysExit(r.scanName) then Some(NoAction)
        else if s.intraday && (s.times.start.None? || s.times.end.None? || s.times.squareoff.None?) then Some(BadTimes)
        else if s.intraday && r.now < s.times.start.value as real then Some(TooEarly)
        else if s.intraday && r.now >= s.times.squareoff.value as real then Some(TooLate)
        else if s.intraday && entry && r.now >= s.times.end.value as real then Some(EntriesOver)
        else if |s.payloads| == 0 then Some(NoMappings)
        else if !s.hasKey then Some(NoKey)
        else None
  {
    TakenIff(r);
    if r.strategy.Some? { assert |r.strategy.value.payloads| == 0 <==> r.strategy.value.payloads == map[]; }
  }

  /** The name holds words of both kinds. */
  ghost predicate Mixed(scanName: string) {
    exists a, b :: IsEntry(a) && !IsEntry(b) && Holds(scanName, a) && Holds(scanName, b)
  }

  /** The order of a symbol goes the way this word asks. */
  predicate Follows(r: Request, word: Keyword, payload: nat) {
    Order(payload) in Put(r, !IsEntry(word)) && Order(payload) !in Put(r, IsEntry(word))
  }

  /** An order that reaches a queue at all goes the way every word of the scan name asks, if and only if
    * the name does not mix words of entries and exits. */
  lemma FollowsEveryWordIff(r: Request, payload: nat)
    requires Order(payload) in Put(r, false) + Put(r, true)
    ensures (forall a :: Holds(r.scanName, a) ==> Follows(r, a, payload)) <==> !Mixed(r.scanName)
  {
    ReachesIff(r, payload);
    var entry := Order(payload) in Put(r, false);
    var taken := ActionOf(r.scanName).value;
    assert Holds(r.scanName, taken) && Follows(r, taken, payload);
    if forall a :: Holds(r.scanName, a) ==> Follows(r, a, payload) {
      forall a | Holds(r.scanName, a) ensures IsEntry(a) == entry { assert Follows(r, a, payload); }
    } else {
      var a :| Holds(r.scanName, a) && !Follows(r, a, payload);
      assert IsEntry(a) != IsEntry(taken);
    }
  }

  /** Exactly when an order goes against a word of the scan name: SHORT COVER opens a short position
    * instead of closing one, SHORT SELL closes instead of opening, and BUY overrules every exit. */
  lemma MisroutedIff(r: Request, word: Keyword, payload: nat)
    requires Order(payload) in Put(r, false) + Put(r, true) && Holds(r.scanName, word)
    ensures !Follows(r, word, payload)
       <==> match word
            case Buy => false
            case Sell => Holds(r.scanName, Buy)
            case Short => Holds(r.scanName, Sell) && !Holds(r.scanName, Buy)
            case Cover => Holds(r.scanName, Buy) || (Holds(r.scanName, Short) && !Holds(r.scanName, Sell))
  {
    ReachesIff(r, payload);
  }

  // ---------------------------------------------------------------- from scans to posts

  /** The queue a request's orders go to, if it is not turned away. */
  predicate ToSmart(r: Request) {
    Checked(r).None? && !IsEntry(ActionOf(r.scanName).value)
  }

  function Wanted(r: Request): seq<Item> {
    Put(r, ToSmart(r))
  }

  /** One order put on a queue, and the request it belongs to; none for the square-off. */
  datatype Placed = Placed(item: Item, smart: bool, request: Option<nat>)

  /** Requests overlap: each places its orders one by one, and between any two of them other requests, the
    * square-off, the worker and the clock take their steps. */
  datatype Event =
    | Place(request: nat)         // this request places its next order
    | Squareoff(payload: nat)
    | Other(action: ChartinkProcessor.Action)

  function Own(puts: seq<Placed>, k: nat): seq<Item> {
    if puts == [] then []
    else Own(puts[..|puts| - 1], k) + if puts[|puts| - 1].request == Some(k) then [puts[|puts| - 1].item] else []
  }

  function ItemsOf(puts: seq<Placed>): seq<Item> {
    seq(|puts|, i requires 0 <= i < |puts| => puts[i].item)
  }

  function OnQueue(puts: seq<Placed>, smart: bool): seq<Placed> {
    if puts == [] then []
    else OnQueue(puts[..|puts| - 1], smart) + if puts[|puts| - 1].smart == smart then [puts[|puts| - 1]] else []
  }

  /** What an event places, after these. */
  function Placing(requests: seq<Request>, puts: seq<Placed>, e: Event): seq<Placed> {
    match e
    case Place(k) =>
      if k < |requests| && |Own(puts, k)| < |Wanted(requests[k])| then
        [Placed(Wanted(requests[k])[|Own(puts, k)|], ToSmart(requests[k]), Some(k))]
      else []
    case Squareoff(payload) => [Placed(Order(payload), true, None)]
    case Other(_) => []
  }

  function AllPlaced(requests: seq<Request>, events: seq<Event>): seq<Placed> {
    if events == [] then []
    else
      var n := |events| - 1;
      var before := AllPlaced(requests, events[..n]);
      before + Placing(requests, before, events[n])
  }

  predicate IsPut(a: ChartinkProcessor.Action) {
    a.PutSmart? || a.PutRegular?
  }

  function PutOf(p: Placed): ChartinkProcessor.Action {
    if p.smart then PutSmart(p.item) else PutRegular(p.item)
  }

  /** The step of the processor's system an event is. */
  function StepOf(requests: seq<Request>, puts: seq<Placed>, e: Event): seq<ChartinkProcessor.Action> {
    if e.Other? then (if IsPut(e.action) then [] else [e.action])
    else if Placing(requests, puts, e) == [] then [] else [PutOf(Placing(requests, puts, e)[0])]
  }

  function StepsOf(requests: seq<Request>, events: seq<Event>): seq<ChartinkProcessor.Action> {
    if events == [] then []
    else
      var n := |events| - 1;
      StepsOf(requests, events[..n]) + StepOf(requests, AllPlaced(requests, events[..n]), events[n])
  }

  // ---- the queues get what was placed

  function PutSoFar(s: State, smart: bool): seq<Item> {
    if smart then s.data.smartPut else s.data.regularPut
  }

  lemma OneStep(s: State, a: ChartinkProcessor.Action)
    ensures Run(s, [a]) == Next(s, a)
  {
    assert [a][1..] == [];
  }

  lemma OnQueueAppend(puts: seq<Placed>, p: Placed, smart: bool)
    ensures OnQueue(puts + [p], smart) == if p.smart == smart then OnQueue(puts, smart) + [p] else OnQueue(puts, smart)
  {
    assert (puts + [p])[..|puts|] == puts;
  }

  lemma ItemsAppend(puts: seq<Placed>, p: Placed)
    ensures ItemsOf(puts + [p]) == ItemsOf(puts) + [p.item]
  {
  }

  lemma PutIsPlaced(s: State, puts: seq<Placed>, p: Placed, smart: bool)
    requires PutSoFar(s, smart) == ItemsOf(OnQueue(puts, smart))
    ensures PutSoFar(Next(s, PutOf(p)), smart) == ItemsOf(OnQueue(puts + [p], smart))
  {
    PutGrows(s, p, smart);
    if p.smart == smart {
      assert OnQueue(puts + [p], smart) == OnQueue(puts, smart) + [p] by { OnQueueAppend(puts, p, smart); }
      ItemsAppend(OnQueue(puts, smart), p);
    } else {
      assert OnQueue(puts + [p], smart) == OnQueue(puts, smart) by { OnQueueAppend(puts, p, smart); }
    }
  }

  lemma PutGrows(s: State, p: Placed, smart: bool)
    ensures PutSoFar(Next(s, PutOf(p)), smart)
         == if p.smart == smart then PutSoFar(s, smart) + [p.item] else PutSoFar(s, smart)
  {
  }

  lemma OtherPutsNothing(s: State, a: ChartinkProcessor.Action, smart: bool)
    requires !IsPut(a)
    ensures PutSoFar(Next(s, a), smart) == PutSoFar(s, smart)
  {
  }

  lemma {:induction false} PutsArePlaced(now: real, requests: seq<Request>, events: seq<Event>, smart: bool)
    ensures PutSoFar(Run(Init(now), StepsOf(requests, events)), smart)
         == ItemsOf(OnQueue(AllPlaced(requests, events), smart))
  {
    if events != [] {
      var n := |events| - 1;
      var before, steps := AllPlaced(requests, events[..n]), StepsOf(requests, events[..n]);
      var s, more := Run(Init(now), steps), StepOf(requests, before, events[n]);
      PutsArePlaced(now, requests, events[..n], smart);
      RunJoins(Init(now), steps, more);
      StepPuts(s, requests, before, events[n], smart);
    }
  }

  lemma StepPuts(s: State, requests: seq<Request>, before: seq<Placed>, e: Event, smart: bool)
    requires PutSoFar(s, smart) == ItemsOf(OnQueue(before, smart))
    ensures PutSoFar(Run(s, StepOf(requests, before, e)), smart)
         == ItemsOf(OnQueue(before + Placing(requests, before, e), smart))
  {
    var placing := Placing(requests, before, e);
    if placing != [] {
      OneStep(s, PutOf(placing[0]));
      PutIsPlaced(s, before, placing[0], smart);
    } else {
      assert before + [] == before;
      if e.Other? && !IsPut(e.action) {
        OneStep(s, e.action);
        OtherPutsNothing(s, e.action, smart);
      }
    }
  }

  // ---- whose orders they are

  lemma OwnAppend(puts: seq<Placed>, p: Placed, k: nat)
    ensures Own(puts + [p], k) == if p.request == Some(k) then Own(puts, k) + [p.item] else Own(puts, k)
  {
    assert (puts + [p])[..|puts|] == puts;
  }

  lemma {:induction false} OwnJoins(a: seq<Placed>, b: seq<Placed>, k: nat)
    ensures Own(a + b, k) == Own(a, k) + Own(b, k)
  {
    if b == [] {
      assert a + b == a;
    } else {
      assert (a + b)[..|a + b| - 1] == a + b[..|b| - 1];
      OwnJoins(a, b[..|b| - 1], k);
    }
  }

  /** A put is one of its request's orders, on its request's queue, or a square-off on the smart one. */
  predicate Belongs(requests: seq<Request>, p: Placed) {
    match p.request
    case Some(k) => k < |requests| && p.smart == ToSmart(requests[k]) && p.item in Wanted(requests[k])
    case None => p.smart && p.item.Order?
  }

  predicate AllBelong(requests: seq<Request>, puts: seq<Placed>) {
    forall i :: 0 <= i < |puts| ==> Belongs(requests, puts[i])
  }

  /** However requests overlap, each has placed the first of its orders, in order. */
  lemma {:induction false} EachPlacesItsOwn(requests: seq<Request>, events: seq<Event>, k: nat)
    requires k < |requests|
    ensures Own(AllPlaced(requests, events), k) <= Wanted(requests[k])
  {
    if events != [] {
      var n := |events| - 1;
      var before := AllPlaced(requests, events[..n]);
      EachPlacesItsOwn(requests, events[..n], k);
      PlacesNext(requests, before, events[n], k);
    }
  }

  lemma PlacesNext(requests: seq<Request>, puts: seq<Placed>, e: Event, k: nat)
    requires k < |requests| && Own(puts, k) <= Wanted(requests[k])
    ensures Own(puts + Placing(requests, puts, e), k) <= Wanted(requests[k])
  {
    var placing := Placing(requests, puts, e);
    if placing == [] {
      assert puts + [] == puts;
    } else {
      assert placing == [placing[0]];
      OwnAppend(puts, placing[0], k);
    }
  }

  lemma PlacingBelongs(requests: seq<Request>, puts: seq<Placed>, e: Event)
    ensures AllBelong(requests, Placing(requests, puts, e))
  {
  }

  lemma {:induction false} PlacedBelong(requests: seq<Request>, events: seq<Event>)
    ensures AllBelong(requests, AllPlaced(requests, events))
  {
    if events != [] {
      var n := |events| - 1;
      PlacedBelong(requests, events[..n]);
      PlacingBelongs(requests, AllPlaced(requests, events[..n]), events[n]);
    }
  }

  lemma {:induction false} OnQueueBelong(requests: seq<Request>, puts: seq<Placed>, smart: bool)
    requires AllBelong(requests, puts)
    ensures AllBelong(requests, OnQueue(puts, smart))
    ensures forall i :: 0 <= i < |OnQueue(puts, smart)| ==> OnQueue(puts, smart)[i].smart == smart
  {
    if puts != [] { OnQueueBelong(requests, puts[..|puts| - 1], smart); }
  }

  /** A request's orders all go to its own queue. */
  lemma {:induction false} OwnOnQueue(requests: seq<Request>, puts: seq<Placed>, smart: bool, k: nat)
    requires k < |requests| && AllBelong(requests, puts)
    ensures Own(OnQueue(puts, smart), k) == if smart == ToSmart(requests[k]) then Own(puts, k) else []
  {
    if puts != [] {
      var n := |puts| - 1;
      assert puts == puts[..n] + [puts[n]];
      OwnOnQueue(requests, puts[..n], smart, k);
      assert Belongs(requests, puts[n]);
      OwnOnQueueStep(puts[..n], puts[n], smart, k, ToSmart(requests[k]));
    }
  }

  lemma OwnOnQueueStep(puts: seq<Placed>, p: Placed, smart: bool, k: nat, own: bool)
    requires Own(OnQueue(puts, smart), k) == if smart == own then Own(puts, k) else []
    requires p.request == Some(k) ==> p.smart == own
    ensures Own(OnQueue(puts + [p], smart), k) == if smart == own then Own(puts + [p], k) else []
  {
    OnQueueAppend(puts, p, smart);
    OwnAppend(puts, p, k);
    OwnAppend(OnQueue(puts, smart), p, k);
  }

  lemma {:induction false} AllOrders(items: seq<Item>)
    requires forall i :: 0 <= i < |items| ==> items[i].Order?
    ensures Orders(items) == items
  {
    if items != [] { AllOrders(items[..|items| - 1]); }
  }

  lemma BelongsIsOrder(requests: seq<Request>, p: Placed)
    requires Belongs(requests, p)
    ensures p.item.Order?
  {
    if p.request.Some? { WantedAreOrders(requests[p.request.value], p.item); }
  }

  lemma WantedAreOrders(r: Request, item: Item)
    requires item in Wanted(r)
    ensures item.Order?
  {
    var i :| 0 <= i < |Wanted(r)| && Wanted(r)[i] == item;
  }

  function PostsOn(d: Data, smart: bool): seq<Post> {
    if smart then d.smartPosts else d.regularPosts
  }

  function QueueOf(d: Data, smart: bool): seq<Item> {
    if smart then d.smart else d.regular
  }

  /** What was asked of a queue, all of it orders. */
  lemma QueueHoldsOrders(requests: seq<Request>, events: seq<Event>, smart: bool)
    ensures var q := OnQueue(AllPlaced(requests, events), smart);
            && AllBelong(requests, q) && (forall i :: 0 <= i < |q| ==> q[i].smart == smart)
            && Orders(ItemsOf(q)) == ItemsOf(q)
  {
    var q := OnQueue(AllPlaced(requests, events), smart);
    PlacedBelong(requests, events);
    OnQueueBelong(requests, AllPlaced(requests, events), smart);
    forall i | 0 <= i < |q| ensures ItemsOf(q)[i].Order? { BelongsIsOrder(requests, q[i]); }
    AllOrders(ItemsOf(q));
  }

  /** However webhook requests, square-offs, workers and the clock interleave, on either queue: what is
    * posted, in flight and queued is what was placed there, in order, each order once. */
  lemma PlacedOnceInOrder(now: real, requests: seq<Request>, events: seq<Event>, smart: bool)
    ensures var s := Run(Init(now), StepsOf(requests, events));
            Sent(PostsOn(s.data, smart)) + Posting(s.workers, smart) + Orders(QueueOf(s.data, smart))
            == ItemsOf(OnQueue(AllPlaced(requests, events), smart))
  {
    var steps := StepsOf(requests, events);
    EveryOrderOnceInOrder(now, steps);
    PutsArePlaced(now, requests, events, smart);
    QueueHoldsOrders(requests, events, smart);
  }

  /** This order was asked for by a scan of this request that puts orders on this queue. */
  ghost predicate AskedBy(r: Request, item: Item, smart: bool) {
    && item.Order? && Live(r) && InHours(r.strategy.value, !smart, r.now)
    && Names(Split(r.stocks), r.strategy.value.payloads, item.id)
    && if smart then
         !Holds(r.scanName, Buy) && (Holds(r.scanName, Sell) || (Holds(r.scanName, Cover) && !Holds(r.scanName, Short)))
       else Holds(r.scanName, Buy) || (Holds(r.scanName, Short) && !Holds(r.scanName, Sell))
  }

  lemma BelongsIsAsked(requests: seq<Request>, p: Placed)
    requires Belongs(requests, p)
    ensures p.request.Some? ==> p.request.value < |requests| && AskedBy(requests[p.request.value], p.item, p.smart)
    ensures p.request.None? ==> p.smart
  {
    BelongsIsOrder(requests, p);
    if p.request.Some? { ReachesIff(requests[p.request.value], p.item.id); }
  }

  /** Every post is the order of a request of its own: its live strategy, in its hours, by a scan that puts
    * orders on that queue; or it is a square-off. */
  lemma PostsComeFromScans(now: real, requests: seq<Request>, events: seq<Event>, smart: bool, i: nat)
    requires i < |PostsOn(Run(Init(now), StepsOf(requests, events)).data, smart)|
    ensures var posts := PostsOn(Run(Init(now), StepsOf(requests, events)).data, smart);
            var q := OnQueue(AllPlaced(requests, events), smart);
            && i < |q| && q[i].item == posts[i].item
            && (q[i].request.None? ==> smart)
            && (q[i].request.Some? ==> q[i].request.value < |requests|
                                       && AskedBy(requests[q[i].request.value], posts[i].item, smart))
  {
    var s := Run(Init(now), StepsOf(requests, events));
    var q := OnQueue(AllPlaced(requests, events), smart);
    PlacedOnceInOrder(now, requests, events, smart);
    assert Sent(PostsOn(s.data, smart)) <= ItemsOf(q);
    assert Sent(PostsOn(s.data, smart))[i] == ItemsOf(q)[i];
    QueueHoldsOrders(requests, events, smart);
    BelongsIsAsked(requests, q[i]);
  }

  lemma PrefixOfPrefix(a: seq<Item>, b: seq<Item>, c: seq<Item>)
    requires a + b <= c
    ensures a <= c
  {
  }

  /** And each request keeps its own order: the posts that are its own are the first of the orders it asks
    * for, in its order, and with those not posted yet they are all it has placed so far. */
  lemma EachRequestInOrder(now: real, requests: seq<Request>, events: seq<Event>, k: nat)
    requires k < |requests|
    ensures var smart := ToSmart(requests[k]);
            var q := OnQueue(AllPlaced(requests, events), smart);
            var n := |PostsOn(Run(Init(now), StepsOf(requests, events)).data, smart)|;
            && n <= |q|
            && Own(q[..n], k) + Own(q[n..], k) == Own(AllPlaced(requests, events), k) <= Wanted(requests[k])
            && Own(q[..n], k) <= Wanted(requests[k])
  {
    var smart := ToSmart(requests[k]);
    var q := OnQueue(AllPlaced(requests, events), smart);
    var n := |PostsOn(Run(Init(now), StepsOf(requests, events)).data, smart)|;
    assert n <= |q| by { PostsArePlaced(now, requests, events, smart); }
    assert Own(q, k) == Own(AllPlaced(requests, events), k) <= Wanted(requests[k]) by {
      PlacedBelong(requests, events);
      OwnOnQueue(requests, AllPlaced(requests, events), smart, k);
      EachPlacesItsOwn(requests, events, k);
    }
    OwnCut(q, n, k, Wanted(requests[k]));
  }

  lemma OwnCut(q: seq<Placed>, n: nat, k: nat, wanted: seq<Item>)
    requires n <= |q| && Own(q, k) <= wanted
    ensures Own(q[..n], k) + Own(q[n..], k) == Own(q, k) && Own(q[..n], k) <= wanted
  {
    assert q == q[..n] + q[n..];
    OwnJoins(q[..n], q[n..], k);
    PrefixOfPrefix(Own(q[..n], k), Own(q[n..], k), wanted);
  }

  lemma PostsArePlaced(now: real, requests: seq<Request>, events: seq<Event>, smart: bool)
    ensures |PostsOn(Run(Init(now), StepsOf(requests, events)).data, smart)|
            <= |OnQueue(AllPlaced(requests, events), smart)|
  {
    var s := Run(Init(now), StepsOf(requests, events));
    PlacedOnceInOrder(now, requests, events, smart);
    assert |Sent(PostsOn(s.data, smart))| <= |ItemsOf(OnQueue(AllPlaced(requests, events), smart))|;
  }

  // ---- a request that nothing interrupts

  function Places(k: nat, n: nat): seq<Event> {
    if n == 0 then [] else Places(k, n - 1) + [Place(k)]
  }

  /** The loop of one request, nothing coming in between, places all its orders in order: what `Webhook`
    * does to the queues is one of these interleavings. */
  lemma {:induction false} LoopIsPlaces(requests: seq<Request>, k: nat, n: nat)
    requires k < |requests| && n <= |Wanted(requests[k])|
    ensures var puts := AllPlaced(requests, Places(k, n));
            Own(puts, k) == ItemsOf(puts) == Wanted(requests[k])[..n]
  {
    if n > 0 {
      LoopIsPlaces(requests, k, n - 1);
      LoopNext(requests, Places(k, n - 1), k, n - 1);
    } else {
      assert AllPlaced(requests, Places(k, 0)) == [] && ItemsOf([]) == [] == Own([], k) == Wanted(requests[k])[..0];
    }
  }

  lemma LoopNext(requests: seq<Request>, events: seq<Event>, k: nat, n: nat)
    requires k < |requests| && n < |Wanted(requests[k])|
    requires Own(AllPlaced(requests, events), k) == ItemsOf(AllPlaced(requests, events)) == Wanted(requests[k])[..n]
    ensures var puts := AllPlaced(requests, events + [Place(k)]);
            Own(puts, k) == ItemsOf(puts) == Wanted(requests[k])[..n + 1]
  {
    var before, wanted, smart := AllPlaced(requests, events), Wanted(requests[k]), ToSmart(requests[k]);
    assert |Own(before, k)| == n;
    assert AllPlaced(requests, events + [Place(k)]) == before + [Placed(wanted[n], smart, Some(k))] by {
      assert (events + [Place(k)])[..|events|] == events;
    }
    LoopStep(before, wanted, k, n, smart);
  }

  lemma LoopStep(before: seq<Placed>, wanted: seq<Item>, k: nat, n: nat, smart: bool)
    requires n < |wanted| && Own(before, k) == ItemsOf(before) == wanted[..n]
    ensures var puts := before + [Placed(wanted[n], smart, Some(k))];
            Own(puts, k) == ItemsOf(puts) == wanted[..n + 1]
  {
    OwnAppend(before, Placed(wanted[n], smart, Some(k)), k);
    ItemsAppend(before, Placed(wanted[n], smart, Some(k)));
  }
}
