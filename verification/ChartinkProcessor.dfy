/** The order processor of blueprints/chartink.py.
 *
 * Any number of producers put orders on two queues and call `ensure_order_processor`; worker threads
 * run the processing loop. `Next` is one step of one of them, or of the clock, and `Run` is any
 * interleaving. ChartinkQueues.dfy holds the code between two steps as methods on the shared state.
 */
module ChartinkProcessor {
  /** What travels through a queue: an order, or the poison pill that ends a worker. */
  datatype Item = Order(id: nat) | Pill

  /** Where a worker stands in the loop. */
  datatype Worker =
    | Top                                  // about to look at the smart queue
    | PostingSmart(item: Item, since: real)
    | Sleeping(until: real)
    | SmartWasEmpty                        // this iteration found no smart order
    | Room(stamp: real)                    // the clock was read, the window pruned and found open
    | PostingRegular(item: Item, stamp: real)
    | Breaking                             // out of the loop, the running flag not yet cleared
    | Gone

  /** One post to the order API: the request is sent and answered between these instants, and `ok` says
    * whether the API accepted the order. */
  datatype Post = Post(item: Item, since: real, until: real, ok: bool)

  /** What one look at a queue found. */
  datatype Look = SawNoSmart | TookSmart(smart: Item) | SawNoRegular | TookRegular(regular: Item)

  /** The shared data, and what happened so far:
    *  smartPut, regularPut      everything ever enqueued
    *  smartDone, regularDone    what was taken off a queue and dealt with, pills included
    *  smartPosts, regularPosts  every post made, whatever the answer
    *  accepted                  the regular posts the API accepted
    *  log                       the order in which workers looked at and took from the queues
    */
  datatype Data = Data(now: real,
                       smart: seq<Item>, regular: seq<Item>,
                       stamps: seq<real>,
                       smartPut: seq<Item>, regularPut: seq<Item>,
                       smartDone: seq<Item>, regularDone: seq<Item>,
                       smartPosts: seq<Post>, regularPosts: seq<Post>, accepted: seq<Post>,
                       log: seq<Look>)

  datatype State = State(data: Data, running: bool, workers: seq<Worker>)

  const MAX_STAMPS := 10
  const SMART_PAUSE := 1.0
  const NAP := 0.1
  const WINDOW := 1.0

  function Init(now: real): State {
    State(Data(now, [], [], [], [], [], [], [], [], [], [], []), false, [])
  }

  // ---------------------------------------------------------------- the rate window

  /** Drop the stamps more than a window old off the front. */
  function Pruned(stamps: seq<real>, now: real): seq<real> {
    if stamps != [] && now - stamps[0] > WINDOW then Pruned(stamps[1..], now) else stamps
  }

  /** Appending to a deque of bounded length drops from the front when it is full. */
  function Appended(stamps: seq<real>, stamp: real): seq<real> {
    var all := stamps + [stamp];
    if |all| > MAX_STAMPS then all[|all| - MAX_STAMPS..] else all
  }

  // ---------------------------------------------------------------- one turn of a worker

  function LookAtSmart(d: Data): (Data, Worker) {
    if d.smart == [] then (d.(log := d.log + [SawNoSmart]), SmartWasEmpty)
    else
      var taken := d.(smart := d.smart[1..], log := d.log + [TookSmart(d.smart[0])]);
      if d.smart[0].Pill? then (taken.(smartDone := d.smartDone + [Pill]), Breaking)
      else (taken, PostingSmart(d.smart[0], d.now))
  }

  /** However the post ended, the worker waits a second before its next iteration. */
  function SmartAnswered(d: Data, item: Item, since: real, ok: bool): (Data, Worker) {
    (d.(smartDone := d.smartDone + [item], smartPosts := d.smartPosts + [Post(item, since, d.now, ok)]),
     Sleeping(d.now + SMART_PAUSE))
  }

  function ReadClock(d: Data): (Data, Worker) {
    var stamps := Pruned(d.stamps, d.now);
    (d.(stamps := stamps), if |stamps| < MAX_STAMPS then Room(d.now) else Sleeping(d.now + NAP))
  }

  function TakeRegular(d: Data, stamp: real): (Data, Worker) {
    if d.regular == [] then (d.(log := d.log + [SawNoRegular]), Sleeping(d.now + NAP))
    else
      var taken := d.(regular := d.regular[1..], log := d.log + [TookRegular(d.regular[0])]);
      if d.regular[0].Pill? then (taken.(regularDone := d.regularDone + [Pill]), Breaking)
      else (taken, PostingRegular(d.regular[0], stamp))
  }

  /** Only an accepted order is stamped. */
  function RegularAnswered(d: Data, item: Item, stamp: real, ok: bool): (Data, Worker) {
    var post := Post(item, stamp, d.now, ok);
    var done := d.(regularDone := d.regularDone + [item], regularPosts := d.regularPosts + [post]);
    (if ok then done.(stamps := Appended(d.stamps, stamp), accepted := d.accepted + [post]) else done, Top)
  }

  function Turn(d: Data, w: Worker, ok: bool): (Data, Worker) {
    match w
    case Top => LookAtSmart(d)
    case PostingSmart(item, since) => SmartAnswered(d, item, since, ok)
    case Sleeping(until) => (d, if until <= d.now then Top else w)
    case SmartWasEmpty => ReadClock(d)
    case Room(stamp) => TakeRegular(d, stamp)
    case PostingRegular(item, stamp) => RegularAnswered(d, item, stamp, ok)
    case Breaking => (d, Gone)
    case Gone => (d, Gone)
  }

  // ---------------------------------------------------------------- one step of the system

  datatype Action =
    | Tick(elapsed: real)
    | PutSmart(item: Item)
    | PutRegular(item: Item)
    | Ensure(starts: bool)        // whether the operating system starts the thread
    | Move(worker: nat, ok: bool) // ok: the API accepts the order this worker is posting

  function Next(s: State, a: Action): State {
    var d := s.data;
    match a
    case Tick(elapsed) => if elapsed >= 0.0 then s.(data := d.(now := d.now + elapsed)) else s
    case PutSmart(item) => s.(data := d.(smart := d.smart + [item], smartPut := d.smartPut + [item]))
    case PutRegular(item) => s.(data := d.(regular := d.regular + [item], regularPut := d.regularPut + [item]))
    case Ensure(starts) =>
      if s.running then s
      else s.(running := true, workers := if starts then s.workers + [Top] else s.workers)
    case Move(i, ok) =>
      if i < |s.workers| then
        var (after, w) := Turn(d, s.workers[i], ok);
        State(after, s.running && !s.workers[i].Breaking?, s.workers[i := w])
      else s
  }

  function Run(s: State, actions: seq<Action>): State
    decreases |actions|
  {
    if actions == [] then s else Run(Next(s, actions[0]), actions[1..])
  }

  // ---------------------------------------------------------------- at most one processor

  /** At most worker `i` has not finished, and the flag is up if it has not. No `i`: all finished. */
  ghost predicate Sole(s: State, i: int) {
    && (forall k :: 0 <= k < |s.workers| && k != i ==> s.workers[k].Gone?)
    && (0 <= i < |s.workers| && !s.workers[i].Gone? ==> s.running)
  }

  /** The worker `i` stands for. */
  function At(workers: seq<Worker>, i: int): Worker {
    if 0 <= i < |workers| then workers[i] else Gone
  }

  // ---------------------------------------------------------------- what every step keeps

  function InFlightSmart(w: Worker): seq<Item> {
    if w.PostingSmart? then [w.item] else []
  }

  function InFlightRegular(w: Worker): seq<Item> {
    if w.PostingRegular? then [w.item] else []
  }

  /** The orders among these items, in order. */
  function Orders(items: seq<Item>): seq<Item> {
    if items == [] then []
    else Orders(items[..|items| - 1]) + if items[|items| - 1].Order? then [items[|items| - 1]] else []
  }

  function Sent(posts: seq<Post>): seq<Item> {
    seq(|posts|, i requires 0 <= i < |posts| => posts[i].item)
  }

  /** Nothing is lost, duplicated or reordered on either queue, and what is done was posted once. */
  predicate Conserved(d: Data, w: Worker) {
    && d.smartPut == d.smartDone + InFlightSmart(w) + d.smart
    && d.regularPut == d.regularDone + InFlightRegular(w) + d.regular
    && Sent(d.smartPosts) == Orders(d.smartDone)
    && Sent(d.regularPosts) == Orders(d.regularDone)
    && (w.PostingSmart? || w.PostingRegular? ==> w.item.Order?)
  }

  /** A regular item is only taken right after a look that found no smart order. */
  ghost predicate SmartFirst(d: Data, w: Worker) {
    && (forall k :: 0 <= k < |d.log| && (d.log[k].TookRegular? || d.log[k].SawNoRegular?) ==>
          k > 0 && d.log[k - 1] == SawNoSmart)
    && (w.SmartWasEmpty? || w.Room? ==> d.log != [] && d.log[|d.log| - 1] == SawNoSmart)
  }

  /** Posts one after the other: each is answered `gap` before the next one is sent. */
  ghost predicate Spaced(posts: seq<Post>, gap: real) {
    && (forall i :: 0 <= i < |posts| ==> posts[i].since <= posts[i].until)
    && (forall i, j :: 0 <= i < j < |posts| ==> posts[i].until + gap <= posts[j].since)
  }

  /** Eleven accepted orders in a row never share a closed window. */
  ghost predicate Limited(accepted: seq<Post>) {
    forall i, j :: 0 <= i && i + MAX_STAMPS <= j < |accepted| ==> accepted[j].since - accepted[i].since > WINDOW
  }

  /** The stamp the next accepted order will carry if it comes out of the iteration `w` is in. */
  function Stamp(d: Data, w: Worker): real {
    match w
    case Room(stamp) => stamp
    case PostingRegular(_, stamp) => stamp
    case _ => d.now
  }

  /** The deque holds the newest accepted stamps, and every one it no longer holds is out of the
    * window of the iteration a worker is in and of all that follow. */
  ghost predicate WindowIsCurrent(d: Data, w: Worker) {
    var dropped := |d.accepted| - |d.stamps|;
    && 0 <= dropped && |d.stamps| <= MAX_STAMPS
    && (forall k :: 0 <= k < |d.stamps| ==> d.stamps[k] == d.accepted[dropped + k].since)
    && Stamp(d, w) <= d.now
    && (forall k :: 0 <= k < dropped ==> Stamp(d, w) - d.accepted[k].since > WINDOW)
    && (forall k :: 0 <= k < |d.accepted| ==> d.accepted[k].until <= Stamp(d, w))
    && (w.Room? || w.PostingRegular? ==> |d.stamps| < MAX_STAMPS)
  }

  /** The earliest instant at which the next smart post can be sent. */
  function NextSmart(d: Data, w: Worker): real {
    match w
    case Sleeping(until) => if until > d.now then until else d.now
    case PostingSmart(_, since) => since
    case _ => d.now
  }

  ghost predicate SmartIsPaced(d: Data, w: Worker) {
    && (forall k :: 0 <= k < |d.smartPosts| ==> d.smartPosts[k].until + SMART_PAUSE <= NextSmart(d, w))
    && (w.PostingSmart? ==> w.since <= d.now)
  }

  ghost predicate DataInv(d: Data, w: Worker) {
    && Conserved(d, w)
    && SmartFirst(d, w)
    && Spaced(d.smartPosts, SMART_PAUSE)
    && SmartIsPaced(d, w)
    && Spaced(d.accepted, 0.0)
    && Limited(d.accepted)
    && WindowIsCurrent(d, w)
  }

  ghost predicate Inv(s: State) {
    exists i :: InvAt(s, i)
  }

  // ---------------------------------------------------------------- one turn keeps it

  lemma {:induction false} PrunedIsSuffix(stamps: seq<real>, now: real) returns (cut: nat)
    ensures cut <= |stamps| && Pruned(stamps, now) == stamps[cut..]
    ensures forall k :: 0 <= k < cut ==> now - stamps[k] > WINDOW
    ensures cut < |stamps| ==> now - stamps[cut] <= WINDOW
  {
    if stamps != [] && now - stamps[0] > WINDOW {
      var rest := PrunedIsSuffix(stamps[1..], now);
      cut := rest + 1;
      assert forall k :: 0 < k < cut ==> stamps[k] == stamps[1..][k - 1];
    } else {
      cut := 0;
    }
  }

  /** What is out of the window of an iteration stays out of every later one. */
  lemma WindowMovesOn(d: Data, w: Worker, e: Data, v: Worker)
    requires WindowIsCurrent(d, w)
    requires e.stamps == d.stamps && e.accepted == d.accepted
    requires Stamp(d, w) <= Stamp(e, v) <= e.now
    requires v.Room? || v.PostingRegular? ==> |e.stamps| < MAX_STAMPS
    ensures WindowIsCurrent(e, v)
  {
  }

  /** A turn that makes no post keeps what is promised about posts. */
  lemma NoPostKeepsInv(d: Data, w: Worker, e: Data, v: Worker)
    requires DataInv(d, w)
    requires e.stamps == d.stamps && e.accepted == d.accepted && e.smartPosts == d.smartPosts
    requires Stamp(d, w) <= Stamp(e, v) <= e.now
    requires v.Room? || v.PostingRegular? ==> |e.stamps| < MAX_STAMPS
    requires NextSmart(d, w) <= NextSmart(e, v) && (v.PostingSmart? ==> v.since <= e.now)
    requires Conserved(e, v) && SmartFirst(e, v)
    ensures DataInv(e, v)
  {
    WindowMovesOn(d, w, e, v);
  }

  /** The front of a queue moves on, to be posted or to be done with. */
  lemma FrontIsTaken(put: seq<Item>, done: seq<Item>, queue: seq<Item>)
    requires put == done + [] + queue && queue != []
    ensures put == done + [queue[0]] + queue[1..] == (done + [queue[0]]) + [] + queue[1..]
  {
    assert queue == [queue[0]] + queue[1..];
  }

  lemma LookIsConserved(d: Data)
    requires Conserved(d, Top)
    ensures var (e, v) := LookAtSmart(d); Conserved(e, v)
  {
    if d.smart != [] {
      FrontIsTaken(d.smartPut, d.smartDone, d.smart);
      assert d.smart[0].Pill? ==> Orders(d.smartDone + [Pill]) == Orders(d.smartDone) by {
        OrdersAppend(d.smartDone, Pill);
        assert Orders(d.smartDone) + [] == Orders(d.smartDone);
      }
    }
  }

  lemma LogAppend(d: Data, w: Worker, e: Data, v: Worker, look: Look)
    requires SmartFirst(d, w) && e.log == d.log + [look]
    requires look.TookRegular? || look.SawNoRegular? ==> w.Room?
    requires v.SmartWasEmpty? || v.Room? ==> look == SawNoSmart
    ensures SmartFirst(e, v)
  {
    forall k | 0 <= k < |e.log| && (e.log[k].TookRegular? || e.log[k].SawNoRegular?)
      ensures k > 0 && e.log[k - 1] == SawNoSmart {
      if k < |d.log| { assert e.log[k] == d.log[k]; }
    }
  }

  lemma LookIsSmartFirst(d: Data)
    requires SmartFirst(d, Top)
    ensures var (e, v) := LookAtSmart(d); SmartFirst(e, v)
  {
    var (e, v) := LookAtSmart(d);
    LogAppend(d, Top, e, v, if d.smart == [] then SawNoSmart else TookSmart(d.smart[0]));
  }

  lemma LookKeepsInv(d: Data)
    requires DataInv(d, Top)
    ensures DataInv(LookAtSmart(d).0, LookAtSmart(d).1)
  {
    var (e, v) := LookAtSmart(d);
    assert Conserved(e, v) by { LookIsConserved(d); }
    assert SmartFirst(e, v) by { LookIsSmartFirst(d); }
    assert Stamp(e, v) == Stamp(d, Top) == NextSmart(e, v) == NextSmart(d, Top) == d.now == e.now by {
      if d.smart == [] {} else if d.smart[0].Pill? {} else {}
    }
    NoPostKeepsInv(d, Top, e, v);
  }

  /** The deque lists the last accepted stamps. */
  ghost predicate Lists(stamps: seq<real>, accepted: seq<Post>) {
    && |stamps| <= |accepted|
    && forall k :: 0 <= k < |stamps| ==> stamps[k] == accepted[|accepted| - |stamps| + k].since
  }

  lemma DroppedFront(stamps: seq<real>, accepted: seq<Post>, cut: nat, now: real)
    requires Lists(stamps, accepted) && cut <= |stamps|
    requires forall k :: 0 <= k < |accepted| - |stamps| ==> now - accepted[k].since > WINDOW
    requires forall k :: 0 <= k < cut ==> now - stamps[k] > WINDOW
    ensures Lists(stamps[cut..], accepted)
    ensures forall k :: 0 <= k < |accepted| - |stamps[cut..]| ==> now - accepted[k].since > WINDOW
  {
    var before := |accepted| - |stamps|;
    forall k | before <= k < before + cut ensures now - accepted[k].since > WINDOW {
      assert stamps[k - before] == accepted[before + (k - before)].since;
    }
  }

  lemma PruneKeepsWindow(d: Data)
    requires WindowIsCurrent(d, SmartWasEmpty)
    ensures var (e, v) := ReadClock(d); WindowIsCurrent(e, v)
  {
    var cut := PrunedIsSuffix(d.stamps, d.now);
    DroppedFront(d.stamps, d.accepted, cut, d.now);
    var (e, v) := ReadClock(d);
    assert Lists(e.stamps, e.accepted);
  }

  lemma PruneKeepsInv(d: Data)
    requires DataInv(d, SmartWasEmpty)
    ensures var (e, v) := ReadClock(d); DataInv(e, v)
  {
    PruneKeepsWindow(d);
    var (e, v) := ReadClock(d);
    assert Conserved(e, v) && SmartFirst(e, v) && SmartIsPaced(e, v);
  }

  lemma TakeIsConserved(d: Data, stamp: real)
    requires Conserved(d, Room(stamp))
    ensures var (e, v) := TakeRegular(d, stamp); Conserved(e, v)
  {
    if d.regular != [] {
      FrontIsTaken(d.regularPut, d.regularDone, d.regular);
      assert d.regular[0].Pill? ==> Orders(d.regularDone + [Pill]) == Orders(d.regularDone) by {
        OrdersAppend(d.regularDone, Pill);
        assert Orders(d.regularDone) + [] == Orders(d.regularDone);
      }
    }
  }

  lemma TakeKeepsInv(d: Data, stamp: real)
    requires DataInv(d, Room(stamp))
    ensures var (e, v) := TakeRegular(d, stamp); DataInv(e, v)
  {
    var (e, v) := TakeRegular(d, stamp);
    assert Conserved(e, v) by { TakeIsConserved(d, stamp); }
    assert SmartFirst(e, v) by {
      LogAppend(d, Room(stamp), e, v, if d.regular == [] then SawNoRegular else TookRegular(d.regular[0]));
    }
    NoPostKeepsInv(d, Room(stamp), e, v);
  }

  lemma PutIsConserved(put: seq<Item>, done: seq<Item>, flying: seq<Item>, queue: seq<Item>, item: Item)
    requires put == done + flying + queue
    ensures put + [item] == done + flying + (queue + [item])
  {
  }

  /** A finished worker and one that has just started stand for the same promises. */
  lemma StartKeepsInv(d: Data)
    requires DataInv(d, Gone)
    ensures DataInv(d, Top)
  {
    assert Conserved(d, Top);
    assert SmartFirst(d, Top);
    NoPostKeepsInv(d, Gone, d, Top);
  }

  lemma SpacedAppend(posts: seq<Post>, post: Post, gap: real)
    requires Spaced(posts, gap) && post.since <= post.until
    requires forall k :: 0 <= k < |posts| ==> posts[k].until + gap <= post.since
    ensures Spaced(posts + [post], gap)
  {
  }

  lemma LimitedAppend(posts: seq<Post>, post: Post)
    requires Limited(posts)
    requires forall k :: 0 <= k && k + MAX_STAMPS <= |posts| ==> post.since - posts[k].since > WINDOW
    ensures Limited(posts + [post])
  {
  }

  lemma WindowAppend(d: Data, item: Item, stamp: real)
    requires WindowIsCurrent(d, PostingRegular(item, stamp))
    ensures var (e, v) := RegularAnswered(d, item, stamp, true); WindowIsCurrent(e, v)
  {
    var (e, v) := RegularAnswered(d, item, stamp, true);
    assert e.stamps == d.stamps + [stamp];
    var dropped := |d.accepted| - |d.stamps|;
    assert |e.accepted| - |e.stamps| == dropped;
    forall k | 0 <= k < |e.stamps| ensures e.stamps[k] == e.accepted[dropped + k].since {
      if k < |d.stamps| { assert d.stamps[k] == d.accepted[dropped + k].since; }
    }
    forall k | 0 <= k < dropped ensures d.now - e.accepted[k].since > WINDOW {
      assert stamp - d.accepted[k].since > WINDOW;
    }
  }

  lemma AcceptKeepsWindow(d: Data, item: Item, stamp: real)
    requires DataInv(d, PostingRegular(item, stamp))
    ensures var (e, v) := RegularAnswered(d, item, stamp, true);
            Spaced(e.accepted, 0.0) && Limited(e.accepted) && WindowIsCurrent(e, v)
  {
    var post := Post(item, stamp, d.now, true);
    SpacedAppend(d.accepted, post, 0.0);
    LimitedAppend(d.accepted, post);
    WindowAppend(d, item, stamp);
  }

  lemma OrdersAppend(items: seq<Item>, item: Item)
    ensures Orders(items + [item]) == Orders(items) + if item.Order? then [item] else []
  {
    assert (items + [item])[..|items|] == items;
  }

  lemma SmartAnswerIsConserved(d: Data, item: Item, since: real, ok: bool)
    requires Conserved(d, PostingSmart(item, since))
    ensures var (e, v) := SmartAnswered(d, item, since, ok); Conserved(e, v)
  {
    OrdersAppend(d.smartDone, item);
  }

  lemma SmartAnswerKeepsInv(d: Data, item: Item, since: real, ok: bool)
    requires DataInv(d, PostingSmart(item, since))
    ensures var (e, v) := SmartAnswered(d, item, since, ok); DataInv(e, v)
  {
    var (e, v) := SmartAnswered(d, item, since, ok);
    SmartAnswerIsConserved(d, item, since, ok);
    SpacedAppend(d.smartPosts, Post(item, since, d.now, ok), SMART_PAUSE);
    WindowMovesOn(d, PostingSmart(item, since), e, v);
    assert SmartIsPaced(e, v) && SmartFirst(e, v);
  }

  lemma RegularAnswerIsConserved(d: Data, item: Item, stamp: real, ok: bool)
    requires Conserved(d, PostingRegular(item, stamp))
    ensures var (e, v) := RegularAnswered(d, item, stamp, ok); Conserved(e, v)
  {
    OrdersAppend(d.regularDone, item);
  }

  lemma RegularAnswerKeepsInv(d: Data, item: Item, stamp: real, ok: bool)
    requires DataInv(d, PostingRegular(item, stamp))
    ensures var (e, v) := RegularAnswered(d, item, stamp, ok); DataInv(e, v)
  {
    var (e, v) := RegularAnswered(d, item, stamp, ok);
    RegularAnswerIsConserved(d, item, stamp, ok);
    if ok { AcceptKeepsWindow(d, item, stamp); }
    else { WindowMovesOn(d, PostingRegular(item, stamp), e, v); }
  }

  lemma TurnKeepsInv(d: Data, w: Worker, ok: bool)
    requires DataInv(d, w)
    ensures var (e, v) := Turn(d, w, ok); DataInv(e, v)
  {
    match w
    case Top => LookKeepsInv(d);
    case PostingSmart(item, since) => SmartAnswerKeepsInv(d, item, since, ok);
    case Sleeping(until) => RestKeepsInv(d, w, if until <= d.now then Top else w);
    case SmartWasEmpty => PruneKeepsInv(d);
    case Room(stamp) => TakeKeepsInv(d, stamp);
    case PostingRegular(item, stamp) => RegularAnswerKeepsInv(d, item, stamp, ok);
    case Breaking => RestKeepsInv(d, w, Gone);
    case Gone => RestKeepsInv(d, w, Gone);
  }

  /** Waking up, sleeping on and leaving touch no data. */
  lemma RestKeepsInv(d: Data, w: Worker, v: Worker)
    requires DataInv(d, w)
    requires (w.Sleeping? && (v == w || (v.Top? && w.until <= d.now))) || ((w.Breaking? || w.Gone?) && v.Gone?)
    ensures DataInv(d, v)
  {
    NoPostKeepsInv(d, w, d, v);
  }

  // ---------------------------------------------------------------- every step keeps it

  ghost predicate InvAt(s: State, i: int) {
    Sole(s, i) && DataInv(s.data, At(s.workers, i))
  }

  lemma EnsureKeepsInv(s: State, i: int, starts: bool)
    requires InvAt(s, i)
    ensures Inv(Next(s, Ensure(starts)))
  {
    var t := Next(s, Ensure(starts));
    if !s.running && starts {
      assert At(s.workers, i).Gone?;
      StartKeepsInv(s.data);
      assert InvAt(t, |s.workers|);
    } else {
      assert InvAt(t, i);
    }
  }

  lemma MoveKeepsSole(s: State, k: nat, ok: bool)
    requires Sole(s, k) && k < |s.workers|
    ensures Sole(Next(s, Move(k, ok)), k)
  {
  }

  lemma InvIsAt(t: State, k: nat)
    requires k < |t.workers| && Sole(t, k) && DataInv(t.data, t.workers[k])
    ensures Inv(t)
  {
    assert At(t.workers, k) == t.workers[k];
    assert InvAt(t, k);
  }

  lemma MoveSoleWorker(s: State, k: nat, ok: bool)
    requires InvAt(s, k) && k < |s.workers|
    ensures Inv(Next(s, Move(k, ok)))
  {
    assert DataInv(s.data, s.workers[k]);
    MoveKeepsSole(s, k, ok);
    TurnKeepsInv(s.data, s.workers[k], ok);
    InvIsAt(Next(s, Move(k, ok)), k);
  }

  lemma MoveKeepsInv(s: State, i: int, k: nat, ok: bool)
    requires InvAt(s, i)
    ensures Inv(Next(s, Move(k, ok)))
  {
    if k < |s.workers| && k == i {
      MoveSoleWorker(s, k, ok);
    } else if k < |s.workers| {
      assert s.workers[k].Gone?;
      assert Next(s, Move(k, ok)) == s;
    }
  }

  /** A step that only moves the data, and makes no post, keeps the invariant. */
  lemma OnlyDataMoved(s: State, i: int, e: Data)
    requires InvAt(s, i)
    requires e.stamps == s.data.stamps && e.accepted == s.data.accepted && e.smartPosts == s.data.smartPosts
    requires e.log == s.data.log && s.data.now <= e.now && Conserved(e, At(s.workers, i))
    ensures Inv(s.(data := e))
  {
    NoPostKeepsInv(s.data, At(s.workers, i), e, At(s.workers, i));
    assert InvAt(s.(data := e), i);
  }

  lemma TickStep(s: State, i: int, elapsed: real)
    requires InvAt(s, i)
    ensures Inv(Next(s, Tick(elapsed)))
  {
    if elapsed >= 0.0 { OnlyDataMoved(s, i, s.data.(now := s.data.now + elapsed)); }
  }

  lemma PutSmartStep(s: State, i: int, item: Item)
    requires InvAt(s, i)
    ensures Inv(Next(s, PutSmart(item)))
  {
    var d := s.data;
    PutIsConserved(d.smartPut, d.smartDone, InFlightSmart(At(s.workers, i)), d.smart, item);
    OnlyDataMoved(s, i, d.(smart := d.smart + [item], smartPut := d.smartPut + [item]));
  }

  lemma PutRegularStep(s: State, i: int, item: Item)
    requires InvAt(s, i)
    ensures Inv(Next(s, PutRegular(item)))
  {
    var d := s.data;
    PutIsConserved(d.regularPut, d.regularDone, InFlightRegular(At(s.workers, i)), d.regular, item);
    OnlyDataMoved(s, i, d.(regular := d.regular + [item], regularPut := d.regularPut + [item]));
  }

  lemma NextAtKeepsInv(s: State, i: int, a: Action)
    requires InvAt(s, i)
    ensures Inv(Next(s, a))
  {
    match a
    case Ensure(starts) => EnsureKeepsInv(s, i, starts);
    case Move(k, ok) => MoveKeepsInv(s, i, k, ok);
    case Tick(elapsed) => TickStep(s, i, elapsed);
    case PutSmart(item) => PutSmartStep(s, i, item);
    case PutRegular(item) => PutRegularStep(s, i, item);
  }

  lemma NextKeepsInv(s: State, a: Action)
    requires Inv(s)
    ensures Inv(Next(s, a))
  {
    var i :| InvAt(s, i);
    NextAtKeepsInv(s, i, a);
  }

  lemma {:induction false} RunKeepsInv(s: State, actions: seq<Action>)
    requires Inv(s)
    ensures Inv(Run(s, actions))
    decreases |actions|
  {
    if actions != [] {
      NextKeepsInv(s, actions[0]);
      RunKeepsInv(Next(s, actions[0]), actions[1..]);
    }
  }

  lemma Reachable(now: real, actions: seq<Action>)
    ensures Inv(Run(Init(now), actions))
  {
    assert InvAt(Init(now), 0);
    RunKeepsInv(Init(now), actions);
  }

  // ---------------------------------------------------------------- what that means for every run

  /** In every interleaving at most one worker is unfinished, and the flag is up while one is. */
  lemma AtMostOneProcessor(now: real, actions: seq<Action>)
    ensures var s := Run(Init(now), actions);
            && (forall j, k :: 0 <= j < k < |s.workers| ==> s.workers[j].Gone? || s.workers[k].Gone?)
            && (forall k :: 0 <= k < |s.workers| && !s.workers[k].Gone? ==> s.running)
  {
    Reachable(now, actions);
    var s := Run(Init(now), actions);
    var i :| InvAt(s, i);
    forall k | 0 <= k < |s.workers| && !s.workers[k].Gone? ensures k == i && s.running {}
  }

  lemma {:induction false} OrdersJoin(a: seq<Item>, b: seq<Item>)
    ensures Orders(a + b) == Orders(a) + Orders(b)
  {
    if b == [] {
      assert a + b == a;
    } else {
      assert (a + b)[..|a + b| - 1] == a + b[..|b| - 1];
      OrdersJoin(a, b[..|b| - 1]);
    }
  }

  /** The orders a worker is posting right now: none or one, on one of the two queues. */
  function Posting(workers: seq<Worker>, smart: bool): seq<Item> {
    if workers == [] then []
    else
      Posting(workers[..|workers| - 1], smart)
      + (if smart then InFlightSmart(workers[|workers| - 1]) else InFlightRegular(workers[|workers| - 1]))
  }

  lemma {:induction false} PostingOfSole(workers: seq<Worker>, i: int, smart: bool)
    requires forall k :: 0 <= k < |workers| && k != i ==> workers[k].Gone?
    ensures Posting(workers, smart)
         == if smart then InFlightSmart(At(workers, i)) else InFlightRegular(At(workers, i))
  {
    if workers != [] {
      var last := |workers| - 1;
      PostingOfSole(workers[..last], i, smart);
      assert i == last ==> At(workers[..last], i) == Gone;
      assert 0 <= i < last ==> At(workers[..last], i) == At(workers, i);
    }
  }

  lemma OneQueueInOrder(put: seq<Item>, done: seq<Item>, flying: seq<Item>, queue: seq<Item>, posts: seq<Post>)
    requires put == done + flying + queue && Sent(posts) == Orders(done)
    requires flying == [] || (|flying| == 1 && flying[0].Order?)
    ensures Orders(put) == Sent(posts) + flying + Orders(queue)
  {
    OrdersJoin(done + flying, queue);
    OrdersJoin(done, flying);
    OneOrder(flying);
  }

  /** Posted, then in flight, then queued is what was enqueued: each order once, none lost, in order. */
  lemma EveryOrderOnceInOrder(now: real, actions: seq<Action>)
    ensures var s := Run(Init(now), actions);
            var d := s.data;
            && Orders(d.smartPut) == Sent(d.smartPosts) + Posting(s.workers, true) + Orders(d.smart)
            && Orders(d.regularPut) == Sent(d.regularPosts) + Posting(s.workers, false) + Orders(d.regular)
  {
    Reachable(now, actions);
    var s := Run(Init(now), actions);
    var i :| InvAt(s, i);
    var d, w := s.data, At(s.workers, i);
    PostingOfSole(s.workers, i, true);
    PostingOfSole(s.workers, i, false);
    OneQueueInOrder(d.smartPut, d.smartDone, InFlightSmart(w), d.smart, d.smartPosts);
    OneQueueInOrder(d.regularPut, d.regularDone, InFlightRegular(w), d.regular, d.regularPosts);
  }

  lemma OneOrder(items: seq<Item>)
    requires items == [] || (|items| == 1 && items[0].Order?)
    ensures Orders(items) == items
  {
    if items != [] { OrdersAppend([], items[0]); assert [] + [items[0]] == items; }
  }

  /** A regular order is taken only in an iteration that found the smart queue empty. */
  lemma SmartOrdersGoFirst(now: real, actions: seq<Action>, k: nat)
    requires var log := Run(Init(now), actions).data.log; k < |log| && log[k].TookRegular?
    ensures k > 0 && Run(Init(now), actions).data.log[k - 1] == SawNoSmart
  {
    Reachable(now, actions);
  }

  /** How many of these posts carry a stamp in the closed window that starts at `from`. */
  function CountIn(posts: seq<Post>, from: real): nat {
    if posts == [] then 0
    else
      CountIn(posts[..|posts| - 1], from)
      + if from <= posts[|posts| - 1].since <= from + 1.0 then 1 else 0
  }

  lemma {:induction false} CountInRange(posts: seq<Post>, from: real, lo: nat, hi: nat)
    requires lo <= hi <= |posts|
    requires forall k :: 0 <= k < |posts| && from <= posts[k].since <= from + WINDOW ==> lo <= k < hi
    ensures CountIn(posts, from) <= hi - lo
  {
    if posts != [] {
      var last := |posts| - 1;
      if from <= posts[last].since <= from + WINDOW {
        CountInRange(posts[..last], from, lo, last);
      } else if hi == |posts| {
        CountInRange(posts[..last], from, if lo <= last then lo else last, last);
      } else {
        CountInRange(posts[..last], from, lo, hi);
      }
    }
  }

  /** The deque's length bound never throws a stamp away: in every run, an accepted order's stamp joins
    * all those that are there. */
  lemma NoStampIsDiscarded(now: real, actions: seq<Action>, k: nat)
    requires var s := Run(Init(now), actions); k < |s.workers| && s.workers[k].PostingRegular?
    ensures var s := Run(Init(now), actions);
            Next(s, Move(k, true)).data.stamps == s.data.stamps + [s.workers[k].stamp]
  {
    Reachable(now, actions);
    var s := Run(Init(now), actions);
    var i :| InvAt(s, i);
    assert i == k;
    assert WindowIsCurrent(s.data, s.workers[k]);
  }

  /** Ten accepted regular orders at most in any closed one-second window of stamps. */
  lemma TenASecond(now: real, actions: seq<Action>, from: real)
    ensures CountIn(Run(Init(now), actions).data.accepted, from) <= 10
  {
    Reachable(now, actions);
    var posts := Run(Init(now), actions).data.accepted;
    if lo: nat :| lo < |posts| && from <= posts[lo].since <= from + WINDOW
                  && forall k :: 0 <= k < lo ==> !(from <= posts[k].since <= from + WINDOW) {
      var hi := if lo + MAX_STAMPS <= |posts| then lo + MAX_STAMPS else |posts|;
      CountInRange(posts, from, lo, hi);
    } else {
      NoFirst(posts, from, |posts|);
      CountInRange(posts, from, 0, 0);
    }
  }

  lemma {:induction false} NoFirst(posts: seq<Post>, from: real, n: nat)
    requires n <= |posts|
    requires forall lo :: 0 <= lo < |posts| && from <= posts[lo].since <= from + WINDOW ==>
               exists k :: 0 <= k < lo && from <= posts[k].since <= from + WINDOW
    ensures forall k :: 0 <= k < n ==> !(from <= posts[k].since <= from + WINDOW)
  {
    if n > 0 { NoFirst(posts, from, n - 1); }
  }

  /** The stamp is read before the request is sent, so the requests themselves are only known to keep
    * eleven to a window: between an accepted request and the eleventh after it more than a second
    * passes, wherever inside its post each was sent. */
  lemma ElevenRequestsASecond(now: real, actions: seq<Action>, i: nat, j: nat)
    requires i + 11 <= j < |Run(Init(now), actions).data.accepted|
    ensures var posts := Run(Init(now), actions).data.accepted;
            posts[j].since - posts[i].until > 1.0
  {
    Reachable(now, actions);
    var posts := Run(Init(now), actions).data.accepted;
    assert posts[i].until + 0.0 <= posts[i + 1].since;
  }

  /** Consecutive smart posts are at least a second apart, whatever became of each of them. */
  lemma SmartPostsAreASecondApart(now: real, actions: seq<Action>, i: nat, j: nat)
    requires i < j < |Run(Init(now), actions).data.smartPosts|
    ensures var posts := Run(Init(now), actions).data.smartPosts;
            posts[i].until + 1.0 <= posts[j].since
  {
    Reachable(now, actions);
  }

  // ---------------------------------------------------------------- what the processor does not give

  predicate AllGone(s: State) {
    forall k :: 0 <= k < |s.workers| ==> s.workers[k].Gone?
  }

  /** The flag is up and no worker is left to take it down. */
  predicate Stuck(s: State) {
    s.running && AllGone(s)
  }

  /** A caller finds the flag down, raises it, and the thread does not start. */
  predicate StartFails(s: State, a: Action) {
    a.Ensure? && !a.starts && !s.running
  }

  predicate SomeStartFails(s: State, actions: seq<Action>)
    decreases |actions|
  {
    actions != [] && (StartFails(s, actions[0]) || SomeStartFails(Next(s, actions[0]), actions[1..]))
  }

  /** Nothing is ever posted again, whatever is enqueued. */
  lemma {:induction false} StuckStays(s: State, actions: seq<Action>)
    requires Stuck(s)
    ensures var t := Run(s, actions);
            Stuck(t) && t.data.smartPosts == s.data.smartPosts && t.data.regularPosts == s.data.regularPosts
    decreases |actions|
  {
    if actions != [] {
      var t := Next(s, actions[0]);
      assert Stuck(t);
      StuckStays(t, actions[1..]);
    }
  }

  /** Worker `i` at most is unfinished, and the flag is up exactly while it is. */
  ghost predicate Healthy(s: State, i: int) {
    Sole(s, i) && (s.running <==> !At(s.workers, i).Gone?)
  }

  lemma HealthyStep(s: State, i: int, a: Action) returns (j: int)
    requires Healthy(s, i)
    ensures if StartFails(s, a) then Stuck(Next(s, a)) else Healthy(Next(s, a), j)
  {
    j := if a.Ensure? && !s.running && a.starts then |s.workers| else i;
  }

  lemma {:induction false} StuckFrom(s: State, i: int, actions: seq<Action>)
    requires Healthy(s, i)
    ensures Stuck(Run(s, actions)) <==> SomeStartFails(s, actions)
    ensures !SomeStartFails(s, actions) ==> exists j :: Healthy(Run(s, actions), j)
    decreases |actions|
  {
    if actions == [] {
      if s.running { assert !s.workers[i].Gone?; }
    } else {
      var j := HealthyStep(s, i, actions[0]);
      if StartFails(s, actions[0]) {
        StuckStays(Next(s, actions[0]), actions[1..]);
      } else {
        StuckFrom(Next(s, actions[0]), j, actions[1..]);
      }
    }
  }

  /** In every run the flag is up with no worker behind it exactly when some thread failed to start; and
    * then nothing is posted again. As long as none fails, the flag is up only while a worker is there to
    * serve the queues. */
  lemma StuckIff(now: real, actions: seq<Action>, more: seq<Action>)
    ensures var s := Run(Init(now), actions);
            && (Stuck(s) <==> SomeStartFails(Init(now), actions))
            && (Stuck(s) ==> Stuck(Run(s, more)) && Run(s, more).data.smartPosts == s.data.smartPosts
                             && Run(s, more).data.regularPosts == s.data.regularPosts)
            && (!SomeStartFails(Init(now), actions) && s.running ==>
                  exists k :: 0 <= k < |s.workers| && !s.workers[k].Gone?)
  {
    assert Healthy(Init(now), 0);
    StuckFrom(Init(now), 0, actions);
    if Stuck(Run(Init(now), actions)) { StuckStays(Run(Init(now), actions), more); }
  }

  // ---- rejected orders

  /** The posts the API accepted, and those it did not. */
  function Kept(posts: seq<Post>): seq<Post> {
    if posts == [] then []
    else Kept(posts[..|posts| - 1]) + if posts[|posts| - 1].ok then [posts[|posts| - 1]] else []
  }

  function Refused(posts: seq<Post>): seq<Post> {
    if posts == [] then []
    else Refused(posts[..|posts| - 1]) + if posts[|posts| - 1].ok then [] else [posts[|posts| - 1]]
  }

  lemma KeptAppend(posts: seq<Post>, post: Post)
    ensures Kept(posts + [post]) == if post.ok then Kept(posts) + [post] else Kept(posts)
  {
    assert (posts + [post])[..|posts|] == posts;
  }

  lemma TurnKeepsAccepted(d: Data, w: Worker, ok: bool)
    requires d.accepted == Kept(d.regularPosts)
    ensures var e := Turn(d, w, ok).0; e.accepted == Kept(e.regularPosts)
  {
    if w.PostingRegular? { KeptAppend(d.regularPosts, Post(w.item, w.stamp, d.now, ok)); }
  }

  lemma {:induction false} RunKeepsAccepted(s: State, actions: seq<Action>)
    requires s.data.accepted == Kept(s.data.regularPosts)
    ensures Run(s, actions).data.accepted == Kept(Run(s, actions).data.regularPosts)
    decreases |actions|
  {
    if actions != [] {
      var a := actions[0];
      if a.Move? && a.worker < |s.workers| { TurnKeepsAccepted(s.data, s.workers[a.worker], a.ok); }
      RunKeepsAccepted(Next(s, a), actions[1..]);
    }
  }

  lemma CountInAppend(posts: seq<Post>, post: Post, from: real)
    ensures CountIn(posts + [post], from) == CountIn(posts, from) + if from <= post.since <= from + WINDOW then 1 else 0
  {
    assert (posts + [post])[..|posts|] == posts;
  }

  lemma {:induction false} CountByAnswer(posts: seq<Post>, from: real)
    ensures CountIn(posts, from) == CountIn(Kept(posts), from) + CountIn(Refused(posts), from)
  {
    if posts != [] {
      var before, post := posts[..|posts| - 1], posts[|posts| - 1];
      var one := if from <= post.since <= from + WINDOW then 1 else 0;
      CountByAnswer(before, from);
      if post.ok {
        assert CountIn(Kept(posts), from) == CountIn(Kept(before), from) + one by {
          CountInAppend(Kept(before), post, from);
        }
        assert Refused(posts) == Refused(before);
      } else {
        assert CountIn(Refused(posts), from) == CountIn(Refused(before), from) + one by {
          CountInAppend(Refused(before), post, from);
        }
        assert Kept(posts) == Kept(before);
      }
    }
  }

  lemma {:induction false} NoneRefused(posts: seq<Post>)
    requires forall k :: 0 <= k < |posts| ==> posts[k].ok
    ensures Kept(posts) == posts
  {
    if posts != [] {
      NoneRefused(posts[..|posts| - 1]);
      assert posts == posts[..|posts| - 1] + [posts[|posts| - 1]];
    }
  }

  /** Every closed one-second window of stamps holds at most ten regular posts besides the rejected ones,
    * and at most ten posts when none is rejected. */
  lemma TenPostsASecond(now: real, actions: seq<Action>, from: real)
    ensures var posts := Run(Init(now), actions).data.regularPosts;
            && CountIn(posts, from) <= 10 + CountIn(Refused(posts), from)
            && ((forall k :: 0 <= k < |posts| ==> posts[k].ok) ==>
                  Run(Init(now), actions).data.accepted == posts && CountIn(posts, from) <= 10)
  {
    RunKeepsAccepted(Init(now), actions);
    TenASecond(now, actions, from);
    var posts := Run(Init(now), actions).data.regularPosts;
    CountByAnswer(posts, from);
    if forall k :: 0 <= k < |posts| ==> posts[k].ok { NoneRefused(posts); }
  }

  predicate AllAnswersOk(actions: seq<Action>) {
    forall k :: 0 <= k < |actions| && actions[k].Move? ==> actions[k].ok
  }

  lemma {:induction false} AllPostsOk(s: State, actions: seq<Action>)
    requires AllAnswersOk(actions) && forall k :: 0 <= k < |s.data.regularPosts| ==> s.data.regularPosts[k].ok
    ensures forall k :: 0 <= k < |Run(s, actions).data.regularPosts| ==> Run(s, actions).data.regularPosts[k].ok
    decreases |actions|
  {
    if actions != [] {
      assert forall k :: 0 <= k < |actions| - 1 ==> actions[1..][k] == actions[k + 1];
      AllPostsOk(Next(s, actions[0]), actions[1..]);
    }
  }

  /** So a run whose answers are all acceptances posts at most ten regular orders a second. */
  lemma AcceptingRunsKeepTheLimit(now: real, actions: seq<Action>, from: real)
    requires AllAnswersOk(actions)
    ensures CountIn(Run(Init(now), actions).data.regularPosts, from) <= 10
  {
    AllPostsOk(Init(now), actions);
    TenPostsASecond(now, actions, from);
  }

  /** The turns that post one regular order and have it rejected. */
  const ONE_REJECTION := [Move(0, false), Move(0, false), Move(0, false), Move(0, false)]

  function Rejections(n: nat): seq<Action> {
    if n == 0 then [] else ONE_REJECTION + Rejections(n - 1)
  }

  lemma {:induction false} RunJoins(s: State, a: seq<Action>, b: seq<Action>)
    ensures Run(s, a + b) == Run(Run(s, a), b)
    decreases |a|
  {
    if a == [] {
      assert a + b == b;
    } else {
      assert (a + b)[1..] == a[1..] + b;
      RunJoins(Next(s, a[0]), a[1..], b);
    }
  }

  /** One rejection leaves the worker where it was and the window untouched. */
  lemma OneRejection(s: State)
    requires s.workers == [Top] && s.data.smart == [] && s.data.stamps == []
    requires s.data.regular != [] && s.data.regular[0].Order?
    ensures var t := Run(s, ONE_REJECTION);
            && t.workers == [Top] && t.data.smart == [] && t.data.stamps == []
            && t.data.now == s.data.now && t.data.regular == s.data.regular[1..]
            && |t.data.regularPosts| == |s.data.regularPosts| + 1
            && t.data.regularPosts[|s.data.regularPosts|] == Post(s.data.regular[0], s.data.now, s.data.now, false)
            && t.data.regularPosts[..|s.data.regularPosts|] == s.data.regularPosts
  {
    var s3 := ThreeMoves(s, false, ONE_REJECTION);
  }

  /** The three turns that take a regular order off the queue, and what the fourth action makes of it. */
  lemma ThreeMoves(s: State, ok: bool, a: seq<Action>) returns (s3: State)
    requires s.workers == [Top] && s.data.smart == [] && s.data.regular != [] && s.data.regular[0].Order?
    requires |Pruned(s.data.stamps, s.data.now)| < MAX_STAMPS
    requires |a| == 4 && a[0] == a[1] == a[2] == Move(0, ok)
    ensures s3.workers == [PostingRegular(s.data.regular[0], s.data.now)] && s3.running == s.running
    ensures s3.data == s.data.(regular := s.data.regular[1..], stamps := Pruned(s.data.stamps, s.data.now),
                               log := s3.data.log)
    ensures Run(s, a) == Next(s3, a[3])
  {
    var s1 := Next(s, Move(0, ok));
    assert s1 == State(s.data.(log := s1.data.log), s.running, [SmartWasEmpty]);
    var s2 := Next(s1, Move(0, ok));
    assert s2 == State(s1.data.(stamps := Pruned(s.data.stamps, s.data.now)), s.running, [Room(s.data.now)]);
    s3 := Next(s2, Move(0, ok));
    assert s3.workers == [PostingRegular(s.data.regular[0], s.data.now)];
    FourSteps(s, s1, s2, s3, a);
  }

  lemma FourSteps(s: State, s1: State, s2: State, s3: State, a: seq<Action>)
    requires |a| == 4 && s1 == Next(s, a[0]) && s2 == Next(s1, a[1]) && s3 == Next(s2, a[2])
    ensures Run(s, a) == Next(s3, a[3])
  {
    assert a[1..][0] == a[1] && a[1..][1..][0] == a[2] && a[1..][1..][1..][0] == a[3];
    assert a[1..][1..][1..][1..] == [];
    assert Run(Next(s3, a[3]), []) == Next(s3, a[3]);
    assert Run(s3, a[1..][1..][1..]) == Next(s3, a[3]);
    assert Run(s2, a[1..][1..]) == Next(s3, a[3]);
  }

  /** Rejected orders carry no stamp, so nothing limits them: any number is posted at one instant. */
  lemma {:induction false} RejectionsFrom(s: State, n: nat)
    requires s.workers == [Top] && s.data.smart == [] && s.data.stamps == []
    requires |s.data.regular| == n && forall k :: 0 <= k < n ==> s.data.regular[k].Order?
    ensures var t := Run(s, Rejections(n));
            && |t.data.regularPosts| == |s.data.regularPosts| + n
            && (forall k :: |s.data.regularPosts| <= k < |t.data.regularPosts| ==>
                  t.data.regularPosts[k].since == t.data.regularPosts[k].until == s.data.now)
            && s.data.regularPosts <= t.data.regularPosts
    decreases n
  {
    if n > 0 {
      OneRejection(s);
      RunJoins(s, ONE_REJECTION, Rejections(n - 1));
      RejectionsFrom(Run(s, ONE_REJECTION), n - 1);
    }
  }

  /** A processor is started and `n` orders are enqueued. */
  function Puts(n: nat): seq<Action> {
    if n == 0 then [] else [PutRegular(Order(n))] + Puts(n - 1)
  }

  lemma {:induction false} AfterPuts(s: State, n: nat)
    ensures var t := Run(s, Puts(n));
            && t.workers == s.workers && t.data.smart == s.data.smart && t.data.stamps == s.data.stamps
            && t.data.now == s.data.now && t.data.regularPosts == s.data.regularPosts
            && |t.data.regular| == |s.data.regular| + n
            && (forall k :: 0 <= k < |s.data.regular| ==> t.data.regular[k] == s.data.regular[k])
            && (forall k :: |s.data.regular| <= k < |t.data.regular| ==> t.data.regular[k].Order?)
    decreases n
  {
    if n > 0 {
      var next := Next(s, PutRegular(Order(n)));
      assert Puts(n)[1..] == Puts(n - 1);
      AfterPuts(next, n - 1);
    }
  }

  /** A started processor with `n` orders enqueued. */
  function Loaded(n: nat): seq<Action> {
    [Ensure(true)] + Puts(n)
  }

  lemma AfterLoading(now: real, n: nat)
    ensures var t := Run(Init(now), Loaded(n));
            && t.workers == [Top] && t.data.smart == [] && t.data.stamps == [] && t.data.now == now
            && t.data.regularPosts == [] && |t.data.regular| == n
            && (forall k :: 0 <= k < n ==> t.data.regular[k].Order?)
  {
    var s := Next(Init(now), Ensure(true));
    assert Loaded(n)[1..] == Puts(n);
    AfterPuts(s, n);
  }

  lemma {:induction false} CountAll(posts: seq<Post>, at: real)
    requires forall k :: 0 <= k < |posts| ==> posts[k].since == at
    ensures CountIn(posts, at) == |posts|
  {
    if posts != [] { CountAll(posts[..|posts| - 1], at); }
  }

  /** A run from the start that posts any number of orders in one instant, every one of them rejected. */
  lemma RejectionsAreNotLimited(now: real, n: nat)
    ensures var t := Run(Init(now), Loaded(n) + Rejections(n));
            |t.data.regularPosts| == n && CountIn(t.data.regularPosts, now) == n
  {
    AfterLoading(now, n);
    var s := Run(Init(now), Loaded(n));
    RejectionsFrom(s, n);
    RunJoins(Init(now), Loaded(n), Rejections(n));
    CountAll(Run(s, Rejections(n)).data.regularPosts, now);
  }

  // ---- eleven requests in a second

  /** The turns that post one regular order and have it accepted. */
  const ONE_ACCEPTANCE := [Move(0, true), Move(0, true), Move(0, true), Move(0, true)]

  /** A single worker about to look, with nothing but regular orders to do and no stamp to prune. */
  predicate Ready(s: State, n: nat) {
    && s.workers == [Top] && s.data.smart == []
    && n <= |s.data.regular| && (forall k :: 0 <= k < |s.data.regular| ==> s.data.regular[k].Order?)
    && (forall k :: 0 <= k < |s.data.stamps| ==> s.data.now - s.data.stamps[k] <= WINDOW)
  }

  lemma NothingToPrune(stamps: seq<real>, now: real)
    requires forall k :: 0 <= k < |stamps| ==> now - stamps[k] <= WINDOW
    ensures Pruned(stamps, now) == stamps
  {
  }

  lemma OneAcceptance(s: State)
    requires Ready(s, 1) && |s.data.stamps| < MAX_STAMPS
    ensures var t := Run(s, ONE_ACCEPTANCE);
            && t.workers == [Top] && t.data.smart == [] && t.data.now == s.data.now
            && t.data.regular == s.data.regular[1..] && t.data.stamps == s.data.stamps + [s.data.now]
            && t.data.regularPosts == s.data.regularPosts + [Post(s.data.regular[0], s.data.now, s.data.now, true)]
  {
    NothingToPrune(s.data.stamps, s.data.now);
    var s3 := ThreeMoves(s, true, ONE_ACCEPTANCE);
  }

  function Acceptances(n: nat): seq<Action> {
    if n == 0 then [] else ONE_ACCEPTANCE + Acceptances(n - 1)
  }

  lemma {:induction false} AcceptancesFrom(s: State, n: nat)
    requires Ready(s, n) && |s.data.stamps| + n <= MAX_STAMPS
    ensures var t := Run(s, Acceptances(n));
            && Ready(t, 0) && t.data.now == s.data.now && t.data.regular == s.data.regular[n..]
            && |t.data.stamps| == |s.data.stamps| + n && s.data.stamps <= t.data.stamps
            && (forall k :: |s.data.stamps| <= k < |t.data.stamps| ==> t.data.stamps[k] == s.data.now)
            && |t.data.regularPosts| == |s.data.regularPosts| + n && s.data.regularPosts <= t.data.regularPosts
    decreases n
  {
    if n > 0 {
      OneAcceptance(s);
      var t := Run(s, ONE_ACCEPTANCE);
      RunJoins(s, ONE_ACCEPTANCE, Acceptances(n - 1));
      AcceptancesFrom(t, n - 1);
    }
  }

  /** The first order's post takes a second. */
  const SLOW_POST := [Move(0, true), Move(0, true), Move(0, true), Tick(1.0)]

  lemma SlowPost(s: State)
    requires Ready(s, 1) && s.data.stamps == [] && s.data.regularPosts == []
    ensures var t := Run(s, SLOW_POST + [Move(0, true)]);
            && t.workers == [Top] && t.data.smart == [] && t.data.now == s.data.now + 1.0
            && t.data.regular == s.data.regular[1..] && t.data.stamps == [s.data.now]
            && t.data.regularPosts == [Post(s.data.regular[0], s.data.now, s.data.now + 1.0, true)]
  {
    var s3 := ThreeMoves(s, true, SLOW_POST);
    var s4 := Next(s3, SLOW_POST[3]);
    RunJoins(s, SLOW_POST, [Move(0, true)]);
    assert [Move(0, true)][1..] == [];
    assert Run(s4, [Move(0, true)]) == Run(Next(s4, Move(0, true)), []);
  }

  /** Half a second later the first stamp has left the window and there is room for one more. */
  lemma LastPost(s: State)
    requires s.workers == [Top] && s.data.smart == [] && s.data.regular != [] && s.data.regular[0].Order?
    requires |s.data.stamps| == MAX_STAMPS && s.data.stamps[0] + 1.0 == s.data.now
    requires forall k :: 0 < k < MAX_STAMPS ==> s.data.stamps[k] == s.data.now
    ensures var t := Run(s, [Tick(0.5)] + ONE_ACCEPTANCE);
            && |t.data.regularPosts| == |s.data.regularPosts| + 1 && s.data.regularPosts <= t.data.regularPosts
            && t.data.regularPosts[|s.data.regularPosts|].since == s.data.now + 0.5
  {
    var later := Next(s, Tick(0.5));
    var rest := s.data.stamps[1..];
    assert forall k :: 0 <= k < |rest| ==> rest[k] == s.data.stamps[k + 1];
    NothingToPrune(rest, later.data.now);
    assert Pruned(s.data.stamps, later.data.now) == rest;
    var s3 := ThreeMoves(later, true, ONE_ACCEPTANCE);
    RunJoins(s, [Tick(0.5)], ONE_ACCEPTANCE);
    assert [Tick(0.5)][1..] == [];
    assert Run(s, [Tick(0.5)]) == Run(later, []);
  }

  /** Nine orders at once after the slow one, and one more half a second later. */
  lemma TenMore(t: State) returns (actions: seq<Action>)
    requires Ready(t, 10) && t.data.stamps == [t.data.now - 1.0] && |t.data.regularPosts| == 1
    ensures var posts := Run(t, actions).data.regularPosts;
            |posts| == 11 && t.data.regularPosts <= posts && posts[10].since == t.data.now + 0.5
    ensures AllAnswersOk(actions)
  {
    AcceptancesFrom(t, 9);
    var u := Run(t, Acceptances(9));
    LastPost(u);
    var last := [Tick(0.5)] + ONE_ACCEPTANCE;
    actions := Acceptances(9) + last;
    RunJoins(t, Acceptances(9), last);
    AcceptancesAnswerOk(9);
  }

  lemma ElevenFrom(s: State) returns (actions: seq<Action>)
    requires Ready(s, 11) && s.data.stamps == [] && s.data.regularPosts == []
    ensures var posts := Run(s, actions).data.regularPosts;
            |posts| == 11 && posts[10].since - posts[0].until <= WINDOW
    ensures AllAnswersOk(actions)
  {
    var slow := SLOW_POST + [Move(0, true)];
    SlowPost(s);
    var t := Run(s, slow);
    var more := TenMore(t);
    actions := slow + more;
    RunJoins(s, slow, more);
    assert Run(s, actions).data.regularPosts[0] == t.data.regularPosts[0];
  }

  /** Ten stamps a second are not ten requests a second: a run from the start with eleven accepted posts of
    * which the last begins half a second after the first was still being answered. */
  lemma ElevenRequestsInASecond(now: real) returns (actions: seq<Action>)
    ensures var posts := Run(Init(now), actions).data.regularPosts;
            |posts| == 11 && posts[10].since - posts[0].until <= 1.0 && AllAnswersOk(actions)
  {
    AfterLoading(now, 11);
    var more := ElevenFrom(Run(Init(now), Loaded(11)));
    actions := Loaded(11) + more;
    RunJoins(Init(now), Loaded(11), more);
    LoadedAnswersOk(11);
  }

  lemma {:induction false} LoadedAnswersOk(n: nat)
    ensures AllAnswersOk(Puts(n)) && AllAnswersOk(Loaded(n))
  {
    if n > 0 { LoadedAnswersOk(n - 1); }
  }

  lemma {:induction false} AcceptancesAnswerOk(n: nat)
    ensures AllAnswersOk(Acceptances(n))
  {
    if n > 0 { AcceptancesAnswerOk(n - 1); }
  }
}
