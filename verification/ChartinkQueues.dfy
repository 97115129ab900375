/** The shared state of blueprints/chartink.py and the code that runs on it between two waits: queueing,
 * starting a processor under the lock, and one uninterrupted iteration of the processing loop.
 */
module ChartinkQueues {
  import opened Wrappers
  import opened ChartinkProcessor

  /** How an iteration ends: the next one starts at once or after a pause, or the loop is left. */
  datatype After = Continue | Pause(seconds: real) | Leave

  function AfterOf(w: Worker, now: real): After {
    match w
    case Sleeping(until) => Pause(until - now)
    case Breaking => Leave
    case _ => Continue
  }

  /** The turns of one iteration in a row, no other thread coming in between and no time passing. */
  function Uninterrupted(d: Data, accepted: bool): (r: (Data, Worker))
    ensures |r.0.smartPosts| >= |d.smartPosts| && |r.0.regularPosts| >= |d.regularPosts|
  {
    var (looked, w) := LookAtSmart(d);
    if w.PostingSmart? then SmartAnswered(looked, w.item, w.since, accepted)
    else if w.Breaking? then (looked, w)
    else Regular(looked, accepted)
  }

  function Regular(d: Data, accepted: bool): (r: (Data, Worker))
    ensures r.0.smartPosts == d.smartPosts && |r.0.regularPosts| >= |d.regularPosts|
  {
    var (pruned, v) := ReadClock(d);
    if v.Sleeping? then (pruned, v) else Taken(pruned, v.stamp, accepted)
  }

  function Taken(d: Data, stamp: real, accepted: bool): (r: (Data, Worker))
    ensures r.0.smartPosts == d.smartPosts && |r.0.regularPosts| >= |d.regularPosts|
  {
    var (taken, u) := TakeRegular(d, stamp);
    if u.PostingRegular? then RegularAnswered(taken, u.item, u.stamp, accepted) else (taken, u)
  }

  /** Out of these stamps, those left when the ones more than a second old have gone from the front. */
  ghost predicate RecentOf(recent: seq<real>, stamps: seq<real>, now: real) {
    && |recent| <= |stamps| && recent == stamps[|stamps| - |recent|..]
    && (forall k :: 0 <= k < |stamps| - |recent| ==> now - stamps[k] > 1.0)
    && (recent != [] ==> now - recent[0] <= 1.0)
  }

  lemma PrunedAreRecent(stamps: seq<real>, now: real)
    ensures RecentOf(Pruned(stamps, now), stamps, now)
  {
    var cut := PrunedIsSuffix(stamps, now);
  }

  /** One iteration while a smart order is queued: it is posted and a second's pause follows, however the
    * post is answered; the regular queue and the stamps are left alone. A pill ends the worker. */
  lemma SmartIteration(d: Data, accepted: bool)
    requires d.smart != []
    ensures var (e, w) := Uninterrupted(d, accepted);
            && e.smart == d.smart[1..] && e.regular == d.regular && e.stamps == d.stamps
            && e.regularPosts == d.regularPosts
            && (d.smart[0].Pill? ==> w == Breaking && e.smartPosts == d.smartPosts)
            && (d.smart[0].Order? ==>
                  && w == Sleeping(d.now + 1.0)
                  && e.smartPosts == d.smartPosts + [Post(d.smart[0], d.now, d.now, accepted)])
  {
  }

  /** One iteration with no smart order: with ten recent stamps, or nothing queued, nothing is posted and a
    * tenth of a second's pause follows; else the first regular order is posted, stamped if it was accepted,
    * and the next iteration starts at once. */
  lemma RegularIteration(d: Data, accepted: bool) returns (recent: seq<real>)
    requires d.smart == []
    ensures RecentOf(recent, d.stamps, d.now)
    ensures var (e, w) := Uninterrupted(d, accepted);
            && e.smart == [] && e.smartPosts == d.smartPosts
            && (|recent| >= 10 || d.regular == [] ==>
                  && e.regular == d.regular && e.stamps == recent && e.regularPosts == d.regularPosts
                  && w == Sleeping(d.now + 0.1))
            && (|recent| < 10 && d.regular != [] && d.regular[0].Pill? ==>
                  && e.regular == d.regular[1..] && e.stamps == recent && e.regularPosts == d.regularPosts
                  && w == Breaking)
            && (|recent| < 10 && d.regular != [] && d.regular[0].Order? ==>
                  && e.regular == d.regular[1..] && w == Top
                  && e.stamps == (if accepted then recent + [d.now] else recent)
                  && e.regularPosts == d.regularPosts + [Post(d.regular[0], d.now, d.now, accepted)])
  {
    recent := Pruned(d.stamps, d.now);
    PrunedAreRecent(d.stamps, d.now);
  }

  function Moves(i: nat, n: nat, accepted: bool): seq<Action> {
    if n == 0 then [] else [Move(i, accepted)] + Moves(i, n - 1, accepted)
  }

  /** Worker `i` stands at `w`, the data is `d`, and nothing else is different. */
  function Standing(s: State, i: nat, d: Data, w: Worker): State
    requires i < |s.workers|
  {
    State(d, s.running, s.workers[i := w])
  }

  lemma OneMove(s: State, i: nat, n: nat, accepted: bool)
    requires i < |s.workers| && n > 0 && !s.workers[i].Breaking?
    ensures var (d, w) := Turn(s.data, s.workers[i], accepted);
            Run(s, Moves(i, n, accepted)) == Run(Standing(s, i, d, w), Moves(i, n - 1, accepted))
  {
    assert Moves(i, n, accepted)[1..] == Moves(i, n - 1, accepted);
  }

  lemma NoMove(s: State, i: nat, accepted: bool)
    ensures Run(s, Moves(i, 0, accepted)) == s
  {
  }

  lemma StandingTwice(s: State, i: nat, d: Data, w: Worker, e: Data, v: Worker)
    requires i < |s.workers|
    ensures Standing(Standing(s, i, d, w), i, e, v) == Standing(s, i, e, v)
  {
  }

  /** An iteration of a worker is a run of its moves, so what is proved of every interleaving of moves is
    * proved of the loop. */
  lemma IterationIsMoves(s: State, i: nat, accepted: bool) returns (n: nat)
    requires i < |s.workers| && s.workers[i] == Top
    ensures var (d, w) := Uninterrupted(s.data, accepted);
            Run(s, Moves(i, n, accepted)) == Standing(s, i, d, w)
  {
    var (looked, w) := LookAtSmart(s.data);
    var t := Standing(s, i, looked, w);
    if w.Breaking? {
      n := 1;
      NoMove(t, i, accepted);
    } else if w.PostingSmart? {
      n := 2;
      var (answered, v) := SmartAnswered(looked, w.item, w.since, accepted);
      OneMove(t, i, 1, accepted);
      NoMove(Standing(t, i, answered, v), i, accepted);
      StandingTwice(s, i, looked, w, answered, v);
    } else {
      var m := RegularMoves(t, i, accepted);
      n := m + 1;
      var (e, v) := Regular(looked, accepted);
      StandingTwice(s, i, looked, w, e, v);
    }
    OneMove(s, i, n, accepted);
  }

  lemma RegularMoves(s: State, i: nat, accepted: bool) returns (n: nat)
    requires i < |s.workers| && s.workers[i] == SmartWasEmpty
    ensures var (d, w) := Regular(s.data, accepted);
            Run(s, Moves(i, n, accepted)) == Standing(s, i, d, w)
  {
    var (pruned, v) := ReadClock(s.data);
    var t := Standing(s, i, pruned, v);
    if v.Sleeping? {
      n := 1;
      NoMove(t, i, accepted);
    } else {
      var m := TakeMoves(t, i, v.stamp, accepted);
      n := m + 1;
      var (e, u) := Taken(pruned, v.stamp, accepted);
      StandingTwice(s, i, pruned, v, e, u);
    }
    OneMove(s, i, n, accepted);
  }

  lemma TakeMoves(s: State, i: nat, stamp: real, accepted: bool) returns (n: nat)
    requires i < |s.workers| && s.workers[i] == Room(stamp)
    ensures var (d, w) := Taken(s.data, stamp, accepted);
            Run(s, Moves(i, n, accepted)) == Standing(s, i, d, w)
  {
    var (taken, u) := TakeRegular(s.data, stamp);
    var t := Standing(s, i, taken, u);
    if u.PostingRegular? {
      n := 2;
      var (e, v) := RegularAnswered(taken, u.item, u.stamp, accepted);
      OneMove(t, i, 1, accepted);
      NoMove(Standing(t, i, e, v), i, accepted);
      StandingTwice(s, i, taken, u, e, v);
    } else {
      n := 1;
      NoMove(t, i, accepted);
    }
    OneMove(s, i, n, accepted);
  }

  /** What the queueing methods and the end of a worker do to the shared fields is what `Next` does. */
  lemma MethodsAreSteps(s: State, smart: bool, item: Item, starts: bool, i: nat)
    ensures var t := Next(Next(s, Ensure(starts)), if smart then PutSmart(item) else PutRegular(item));
            && t.running && |t.workers| == |s.workers| + (if !s.running && starts then 1 else 0)
            && t.data.smart == s.data.smart + (if smart then [item] else [])
            && t.data.regular == s.data.regular + (if smart then [] else [item])
    ensures i < |s.workers| && s.workers[i].Breaking? ==>
              forall ok :: Next(s, Move(i, ok)) == State(s.data, false, s.workers[i := Gone])
  {
    assert s.data.smart + [] == s.data.smart && s.data.regular + [] == s.data.regular;
  }

  class Processor {
    var smartOrders: seq<Item>
    var regularOrders: seq<Item>
    var lastRegularOrders: seq<real>
    var running: bool

    constructor ()
      ensures smartOrders == [] && regularOrders == [] && lastRegularOrders == [] && !running
    {
      smartOrders, regularOrders, lastRegularOrders, running := [], [], [], false;
    }

    /** Runs under the lock; true when this caller has to start a worker. */
    method EnsureOrderProcessor() returns (start: bool)
      modifies `running
      ensures running && start == !old(running)
    {
      start := !running;
      if start { running := true; }
    }

    method QueueOrder(smart: bool, item: Item) returns (start: bool)
      modifies `running, `smartOrders, `regularOrders
      ensures running && start == !old(running)
      ensures smartOrders == old(smartOrders) + (if smart then [item] else [])
      ensures regularOrders == old(regularOrders) + (if smart then [] else [item])
    {
      start := EnsureOrderProcessor();
      if smart {
        smartOrders := smartOrders + [item];
      } else {
        regularOrders := regularOrders + [item];
      }
    }

    /** Square-off queues one closing smart order for each mapping, in order. */
    method SquareoffPositions(mappings: seq<nat>) returns (start: bool)
      modifies `running, `smartOrders, `regularOrders
      ensures regularOrders == old(regularOrders)
      ensures smartOrders == old(smartOrders) + seq(|mappings|, i requires 0 <= i < |mappings| => Order(mappings[i]))
      ensures start == (!old(running) && mappings != []) && running == (old(running) || mappings != [])
    {
      start := false;
      for i := 0 to |mappings|
        invariant regularOrders == old(regularOrders)
        invariant smartOrders == old(smartOrders) + seq(i, k requires 0 <= k < i => Order(mappings[k]))
        invariant start == (!old(running) && i > 0) && running == (old(running) || i > 0)
      {
        var first := QueueOrder(true, Order(mappings[i]));
        start := start || first;
      }
    }

    /** Drop the stamps that have left the window. */
    method DropOldStamps(now: real)
      modifies `lastRegularOrders
      ensures lastRegularOrders == Pruned(old(lastRegularOrders), now)
    {
      while lastRegularOrders != [] && now - lastRegularOrders[0] > WINDOW
        invariant Pruned(lastRegularOrders, now) == Pruned(old(lastRegularOrders), now)
        decreases |lastRegularOrders|
      {
        lastRegularOrders := lastRegularOrders[1..];
      }
    }

    /** The shared fields are those of `d`. */
    ghost predicate Shows(d: Data)
      reads this
    {
      smartOrders == d.smart && regularOrders == d.regular && lastRegularOrders == d.stamps
    }

    /** One iteration of the loop, told how the post it makes is answered: what it posts, and what comes
      * next. A raised or refused post only shows in the missing stamp. */
    method Iterate(now: real, accepted: bool, ghost d: Data) returns (posted: Option<Item>, after: After)
      requires Shows(d) && d.now == now
      modifies `smartOrders, `regularOrders, `lastRegularOrders
      ensures var (e, w) := Uninterrupted(d, accepted);
              && Shows(e) && after == AfterOf(w, now)
              && posted == (if |e.smartPosts| > |d.smartPosts| then Some(e.smartPosts[|d.smartPosts|].item)
                            else if |e.regularPosts| > |d.regularPosts| then Some(e.regularPosts[|d.regularPosts|].item)
                            else None)
    {
      if smartOrders != [] {
        var smart := smartOrders[0];
        smartOrders := smartOrders[1..];
        if smart.Pill? { return None, Leave; }
        return Some(smart), Pause(SMART_PAUSE);
      }
      DropOldStamps(now);
      if |lastRegularOrders| >= MAX_STAMPS || regularOrders == [] { return None, Pause(NAP); }
      var regular := regularOrders[0];
      regularOrders := regularOrders[1..];
      if regular.Pill? { return None, Leave; }
      if accepted { lastRegularOrders := Appended(lastRegularOrders, now); }
      return Some(regular), Continue;
    }

    /** The last thing a worker does, under the lock. */
    method ProcessorLeft()
      modifies `running
      ensures !running
    {
      running := false;
    }
  }
}
