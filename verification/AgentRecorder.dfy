/** The turn recorder of blueprints/agent.py as it runs, and the stream that feeds it. A tool entry is
 * one mutable record reached from two places: the list of the turn and the table of open calls.
 */
module AgentRecorder {
  import opened Wrappers
  import opened Lines
  import opened AgentTurn

  class ToolEntry {
    const id: Id
    const name: string
    const args: Option<string>
    var ending: Option<Ending>

    constructor (id: Id, name: string, args: Option<string>)
      ensures this.id == id && this.name == name && this.args == args && ending == None
    {
      this.id, this.name, this.args := id, name, args;
      ending := None;
    }

    function View(): Entry
      reads this
    {
      Entry(id, name, args, ending)
    }
  }

  function Views(entries: seq<ToolEntry>): (r: seq<Entry>)
    reads entries
    ensures |r| == |entries| && forall i :: 0 <= i < |r| ==> r[i] == entries[i].View()
  {
    seq(|entries|, i requires 0 <= i < |entries| reads entries => entries[i].View())
  }

  /** An assistant message as it is stored: the prose, the tool list and the sidecar, absent if empty. */
  datatype Message = Message(content: string, tools: Option<seq<Entry>>, notices: Option<seq<Side>>)

  function Assembled(text: seq<string>, tools: seq<Entry>, notices: seq<Side>): Message {
    Message(Concat(text), if tools == [] then None else Some(tools), if notices == [] then None else Some(notices))
  }

  class TurnRecorder {
    var text: seq<string>
    var tools: seq<ToolEntry>
    var notices: seq<Frame>
    var viz: seq<string>
    var runId: string
    var sessionId: string
    var paused: bool
    var open: map<string, ToolEntry>
    var ui: seq<string>
    var usage: Option<string>
    /** Where in `tools` the entry open under a key is. */
    ghost var slots: map<string, nat>

    /** Every open entry is the very object listed at its slot, and no object is listed twice. */
    ghost predicate Valid()
      reads this`tools, this`open, this`slots
    {
      && (forall i, j :: 0 <= i < j < |tools| ==> tools[i] != tools[j])
      && open.Keys == slots.Keys
      && (forall k :: k in slots ==> Linked(k))
    }

    ghost predicate Linked(k: string)
      requires k in slots && k in open
      reads this`tools, this`open, this`slots
    {
      slots[k] < |tools| && open[k] == tools[slots[k]] && Key(open[k].id) == k
    }

    ghost function View(): (t: Turn)
      requires Valid()
      reads this, tools
      ensures AgentTurn.Valid(t)
    {
      assert forall k :: k in slots ==> Linked(k);
      Turn(text, Views(tools), slots, notices, viz, ui, usage, runId, sessionId, paused)
    }

    predicate HasContent()
      reads this, tools
    {
      text != [] || tools != [] || notices != [] || viz != [] || ui != [] || usage.Some?
    }

    function ToMessage(): Message
      reads this, tools
    {
      Assembled(text, Views(tools), Sidecar(notices, viz, Drawn(ui), usage, runId))
    }

    constructor ()
      ensures Valid() && View() == EMPTY && tools == []
    {
      text, tools, notices, viz, ui := [], [], [], [], [];
      runId, sessionId, paused := "", "", false;
      open, usage := map[], None;
      slots := map[];
    }

    method Observe(f: Frame)
      requires Valid()
      modifies this, tools
      ensures Valid() && View() == Observed(old(View()), f)
      ensures old(tools) <= tools && forall i :: |old(tools)| <= i < |tools| ==> fresh(tools[i])
    {
      match f {
        case ToolStart(id, name, args) => OpenCall(id, name, args);
        case ToolEnd(id, name, ending) => EndCall(id, name, ending);
        case _ => Note(f);
      }
    }

    method Note(f: Frame)
      requires Valid() && !f.ToolStart? && !f.ToolEnd?
      modifies this
      ensures Valid() && View() == Observed(old(View()), f) && tools == old(tools)
    {
      if f.Token? || f.Ui? || f.Start? || f.Other? { NoteText(f); } else { NoteSide(f); }
    }

    method NoteText(f: Frame)
      requires Valid() && (f.Token? || f.Ui? || f.Start? || f.Other?)
      modifies this`text, this`ui, this`runId, this`sessionId
      ensures Valid() && View() == Observed(old(View()), f)
    {
      if f.Token? {
        text := text + [f.delta];
      } else if f.Ui? {
        ui := ui + [f.delta];
      } else if f.Start? {
        runId, sessionId := f.runId, f.sessionId;
      }
    }

    method NoteSide(f: Frame)
      requires Valid() && (f.Viz? || f.Usage? || IsNotice(f))
      modifies this`viz, this`usage, this`notices, this`paused
      ensures Valid() && View() == Observed(old(View()), f)
    {
      if f.Viz? {
        if |viz| < MAX_STORED_VIZ { viz := viz + [f.body]; }
      } else if f.Usage? {
        usage := Some(f.body);
      } else {
        if f.Confirm? { paused := true; }
        notices := notices + [f];
      }
    }

    method OpenCall(id: Id, name: string, args: string)
      requires Valid()
      modifies this
      ensures Valid() && View() == Observed(old(View()), ToolStart(id, name, args))
      ensures |tools| == |old(tools)| + 1 && old(tools) <= tools && fresh(tools[|old(tools)|])
    {
      ghost var was := View();
      var entry := new ToolEntry(id, name, Some(args));
      slots := slots[Key(id) := |tools|];
      tools := tools + [entry];
      open := open[Key(id) := entry];
      assert Valid() by {
        forall k | k in slots ensures Linked(k) {
          if k != Key(id) { assert old(Linked(k)); }
        }
      }
      assert Views(tools) == was.tools + [entry.View()];
    }

    method EndCall(id: Id, name: string, ending: Ending)
      requires Valid()
      modifies this, tools
      ensures Valid() && View() == Observed(old(View()), ToolEnd(id, name, ending))
      ensures old(tools) <= tools && forall i :: |old(tools)| <= i < |tools| ==> fresh(tools[i])
    {
      if Key(id) in open { EndOpen(id, name, ending); } else { ListEnd(id, name, ending); }
    }

    method EndOpen(id: Id, name: string, ending: Ending)
      requires Valid() && Key(id) in open
      modifies this, open[Key(id)]
      ensures Valid() && View() == Observed(old(View()), ToolEnd(id, name, ending)) && tools == old(tools)
    {
      ghost var was := View();
      var entry := open[Key(id)];
      ghost var at := slots[Key(id)];
      assert Linked(Key(id));
      Forget(Key(id));
      Finish(entry, at, ending);
      assert View() == was.(tools := was.tools[at := was.tools[at].(ending := Some(ending))],
                             open := was.open - {Key(id)});
    }

    /** Take a call off the open table. */
    method Forget(key: string)
      requires Valid()
      modifies this`open, this`slots
      ensures Valid() && open == old(open) - {key} && slots == old(slots) - {key}
    {
      open := open - {key};
      slots := slots - {key};
      assert Valid() by {
        forall k | k in slots ensures Linked(k) { assert old(Linked(k)); }
      }
    }

    /** Give one listed entry its ending. */
    method Finish(entry: ToolEntry, ghost at: nat, ending: Ending)
      requires Valid() && at < |tools| && tools[at] == entry
      modifies entry
      ensures Views(tools) == old(Views(tools))[at := old(Views(tools))[at].(ending := Some(ending))]
    {
      entry.ending := Some(ending);
      assert Views(tools) == old(Views(tools))[at := old(Views(tools))[at].(ending := Some(ending))];
    }

    method ListEnd(id: Id, name: string, ending: Ending)
      requires Valid() && Key(id) !in open
      modifies this
      ensures Valid() && View() == Observed(old(View()), ToolEnd(id, name, ending))
      ensures |tools| == |old(tools)| + 1 && old(tools) <= tools && fresh(tools[|old(tools)|])
    {
      ghost var was := View();
      var entry := new ToolEntry(id, name, None);
      entry.ending := Some(ending);
      tools := tools + [entry];
      assert Valid() by {
        forall k | k in slots ensures Linked(k) { assert old(Linked(k)); }
      }
      assert Views(tools) == was.tools + [entry.View()];
    }
  }

  // ---------------------------------------------------------------- the stream

  /** What reading a chunk's payload does: a frame, an error the recorder shrugs off, or one it lets
    * through (the payload is JSON, but not an object). */
  datatype Reading = Readable(frame: Frame) | Unreadable | NotAnObject

  predicate IsData(chunk: string) {
    "data: " <= chunk
  }

  predicate Breaks(chunk: string, read: string -> Reading) {
    IsData(chunk) && read(chunk[6..]).NotAnObject?
  }

  /** The frames a run of chunks carries. */
  function Frames(chunks: seq<string>, read: string -> Reading): seq<Frame> {
    if chunks == [] then []
    else
      var chunk := chunks[|chunks| - 1];
      Frames(chunks[..|chunks| - 1], read)
      + if IsData(chunk) && read(chunk[6..]).Readable? then [read(chunk[6..]).frame] else []
  }

  lemma FramesAppend(chunks: seq<string>, chunk: string, read: string -> Reading)
    ensures Frames(chunks + [chunk], read)
         == if IsData(chunk) && read(chunk[6..]).Readable? then Frames(chunks, read) + [read(chunk[6..]).frame]
            else Frames(chunks, read)
  {
    assert (chunks + [chunk])[..|chunks|] == chunks;
  }

  /** The frames of two runs of chunks are the frames of the first, then those of the second; one chunk carries
    * a frame exactly when it starts with `data: ` and what follows reads as one. */
  lemma {:induction false} FramesJoin(a: seq<string>, b: seq<string>, read: string -> Reading)
    ensures Frames(a + b, read) == Frames(a, read) + Frames(b, read)
  {
    if b == [] {
      assert a + b == a;
    } else {
      var n := |b| - 1;
      assert a + b == (a + b[..n]) + [b[n]] && b == b[..n] + [b[n]];
      FramesAppend(a + b[..n], b[n], read);
      FramesAppend(b[..n], b[n], read);
      FramesJoin(a, b[..n], read);
    }
  }

  lemma FramesOfOne(chunk: string, read: string -> Reading)
    ensures Frames([chunk], read)
         == if "data: " <= chunk && read(chunk[6..]).Readable? then [read(chunk[6..]).frame] else []
  {
    FramesAppend([], chunk, read);
    assert [] + [chunk] == [chunk];
  }

  /** The chunks handed out to a consumer that asks `wanted` times: the source's, up to the first one
    * the recorder breaks on. */
  function HandedOut(chunks: seq<string>, wanted: nat, read: string -> Reading): (r: seq<string>)
    ensures r <= chunks && |r| <= wanted
  {
    if chunks == [] || wanted == 0 || Breaks(chunks[0], read) then []
    else [chunks[0]] + HandedOut(chunks[1..], wanted - 1, read)
  }

  /** Every chunk reaches a consumer that keeps asking, exactly when no chunk is JSON other than an object. */
  lemma {:induction false} PassesThroughIff(chunks: seq<string>, wanted: nat, read: string -> Reading)
    requires |chunks| <= wanted
    ensures HandedOut(chunks, wanted, read) == chunks
       <==> forall i :: 0 <= i < |chunks| ==> !Breaks(chunks[i], read)
  {
    if chunks != [] {
      PassesThroughIff(chunks[1..], wanted - 1, read);
      if forall i :: 0 <= i < |chunks| ==> !Breaks(chunks[i], read) {
        assert forall i :: 0 <= i < |chunks[1..]| ==> chunks[1..][i] == chunks[i + 1];
      } else if !Breaks(chunks[0], read) {
        var i :| 0 <= i < |chunks| && Breaks(chunks[i], read);
        assert chunks[1..][i - 1] == chunks[i];
        assert HandedOut(chunks, wanted, read)[1..] == HandedOut(chunks[1..], wanted - 1, read);
      }
    }
  }

  /** Where handing out stops: it hands out the first chunks, none of which the recorder breaks on, until the
    * consumer has had enough, the source has no more, or the next chunk is one the recorder breaks on. */
  lemma {:induction false} HandedOutUntil(chunks: seq<string>, wanted: nat, read: string -> Reading)
    ensures var n := |HandedOut(chunks, wanted, read)|;
            && n <= |chunks| && n <= wanted && HandedOut(chunks, wanted, read) == chunks[..n]
            && (forall i :: 0 <= i < n ==> !Breaks(chunks[i], read))
            && (n == wanted || n == |chunks| || Breaks(chunks[n], read))
  {
    if chunks != [] && wanted > 0 && !Breaks(chunks[0], read) {
      var rest := HandedOut(chunks[1..], wanted - 1, read);
      HandedOutUntil(chunks[1..], wanted - 1, read);
      forall i | 0 <= i < |rest| + 1 ensures !Breaks(chunks[i], read) {
        if i > 0 { assert chunks[1..][i - 1] == chunks[i]; }
      }
    }
  }

  /** Asking once more gives the next chunk, unless the recorder breaks on it. */
  lemma {:induction false} HandedOutNext(chunks: seq<string>, n: nat, read: string -> Reading)
    requires n < |chunks| && |HandedOut(chunks, n, read)| == n
    ensures HandedOut(chunks, n + 1, read)
         == if Breaks(chunks[n], read) then HandedOut(chunks, n, read) else HandedOut(chunks, n, read) + [chunks[n]]
  {
    if n > 0 {
      assert chunks[1..][n - 1] == chunks[n];
      HandedOutNext(chunks[1..], n - 1, read);
      assert HandedOut(chunks, n, read) == [chunks[0]] + HandedOut(chunks[1..], n - 1, read);
    }
  }

  /** At the end of the source, or at a chunk the recorder breaks on, asking more gives no more. */
  lemma {:induction false} HandedOutStops(chunks: seq<string>, n: nat, wanted: nat, read: string -> Reading)
    requires n <= wanted && n <= |chunks| && |HandedOut(chunks, n, read)| == n
    requires n == |chunks| || Breaks(chunks[n], read)
    ensures HandedOut(chunks, wanted, read) == HandedOut(chunks, n, read)
  {
    if n > 0 {
      if n < |chunks| { assert chunks[1..][n - 1] == chunks[n]; }
      assert HandedOut(chunks, n, read) == [chunks[0]] + HandedOut(chunks[1..], n - 1, read);
      HandedOutStops(chunks[1..], n - 1, wanted - 1, read);
    }
  }

  // ---- persisting

  /** A conversation in the store: the agent session it is bound to (none: no such row for this owner)
    * and the assistant messages written to it. */
  datatype Store = Store(session: Option<string>, messages: seq<Message>)

  /** How a call into the store ends. A quiet failure does nothing: a lookup finds no row, a write is
    * dropped. */
  datatype Call = Works | FailsQuietly | Raises

  datatype Calls = Calls(lookup: Call, update: Call, add: Call)

  function MessageOf(t: Turn): Message {
    Assembled(t.text, t.tools, Sidecar(t.notices, t.viz, Drawn(t.ui), t.usage, t.runId))
  }

  predicate Binds(store: Store, t: Turn, calls: Calls) {
    t.sessionId != "" && calls.lookup.Works? && store.session.Some? && store.session.value != t.sessionId
  }

  /** The store once the session is bound, and whether a call raised on the way. */
  function Bound(store: Store, t: Turn, calls: Calls): (Store, bool) {
    if t.sessionId != "" && calls.lookup.Raises? then (store, true)
    else if Binds(store, t, calls) && calls.update.Raises? then (store, true)
    else if Binds(store, t, calls) && calls.update.Works? then (store.(session := Some(t.sessionId)), false)
    else (store, false)
  }

  /** A call that raises while the session is bound takes the message with it. */
  function Persisted(store: Store, t: Turn, calls: Calls): Store {
    var (bound, raised) := Bound(store, t, calls);
    if !raised && HasContent(t) && calls.add.Works? then bound.(messages := bound.messages + [MessageOf(t)]) else bound
  }

  class Recording {
    var recorder: TurnRecorder
    var store: Store
    /** How often the turn was persisted. */
    ghost var persists: nat

    constructor (store: Store)
      ensures recorder.Valid() && recorder.View() == EMPTY && recorder.tools == [] && fresh(recorder)
      ensures this.store == store && persists == 0
    {
      recorder := new TurnRecorder();
      this.store := store;
      persists := 0;
    }

    method PersistTurn(calls: Calls)
      requires recorder.Valid()
      modifies this`store, this`persists
      ensures store == Persisted(old(store), recorder.View(), calls) && persists == old(persists) + 1
    {
      persists := persists + 1;
      var worthwhile := recorder.HasContent();
      assert worthwhile == HasContent(recorder.View());
      var raised := BindSession(calls);
      if !raised && worthwhile && calls.add.Works? {
        var message := recorder.ToMessage();
        assert message == MessageOf(recorder.View());
        store := store.(messages := store.messages + [message]);
      }
    }

    /** Bind the conversation to the run's session; true if a call into the store raised. */
    method BindSession(calls: Calls) returns (raised: bool)
      requires recorder.Valid()
      modifies this`store
      ensures (store, raised) == Bound(old(store), recorder.View(), calls)
    {
      if recorder.sessionId == "" { return false; }
      if calls.lookup.Raises? { return true; }
      var row := if calls.lookup.Works? then store.session else None;
      if row.Some? && row.value != recorder.sessionId {
        if calls.update.Raises? { return true; }
        if calls.update.Works? { store := store.(session := Some(recorder.sessionId)); }
      }
      return false;
    }

    /** Pass the source's chunks to a consumer that asks for `wanted` of them and then leaves; `chunks`
      * is what the source yields before it ends or raises. The turn is persisted on every way out of a
      * stream that was started, and not at all if nothing was ever asked for. */
    method RecordStream(chunks: seq<string>, wanted: nat, read: string -> Reading, calls: Calls)
      returns (handed: seq<string>)
      requires recorder.Valid() && recorder.View() == EMPTY
      modifies this, recorder, recorder.tools
      ensures recorder == old(recorder) && recorder.Valid()
      ensures handed == HandedOut(chunks, wanted, read)
      ensures recorder.View() == Fold(EMPTY, Frames(handed, read))
      ensures persists == old(persists) + if wanted > 0 then 1 else 0
      ensures store == if wanted > 0 then Persisted(old(store), recorder.View(), calls) else old(store)
    {
      handed := HandOut(chunks, wanted, read);
      if wanted > 0 { PersistTurn(calls); }
    }

    method HandOut(chunks: seq<string>, wanted: nat, read: string -> Reading) returns (handed: seq<string>)
      requires recorder.Valid() && recorder.View() == EMPTY
      modifies recorder, recorder.tools
      ensures recorder.Valid() && handed == HandedOut(chunks, wanted, read)
      ensures recorder.View() == Fold(EMPTY, Frames(handed, read))
    {
      handed := [];
      var n := 0;
      while n < |chunks| && n < wanted
        invariant n <= |chunks| && n <= wanted && recorder.Valid()
        invariant |handed| == n && handed == HandedOut(chunks, n, read)
        invariant recorder.View() == Fold(EMPTY, Frames(handed, read))
        invariant forall i :: 0 <= i < |recorder.tools| ==>
                    recorder.tools[i] in old(recorder.tools) || fresh(recorder.tools[i])
      {
        HandedOutNext(chunks, n, read);
        var broken := RecordChunk(chunks[n], read, handed);
        if broken { break; }
        handed := handed + [chunks[n]];
        n := n + 1;
      }
      if n < wanted { HandedOutStops(chunks, n, wanted, read); }
    }

    /** Let the recorder see one chunk; true if it breaks on it. */
    method RecordChunk(chunk: string, read: string -> Reading, ghost handed: seq<string>) returns (broken: bool)
      requires recorder.Valid() && recorder.View() == Fold(EMPTY, Frames(handed, read))
      modifies recorder, recorder.tools
      ensures recorder.Valid() && broken == Breaks(chunk, read)
      ensures recorder.View() == Fold(EMPTY, Frames(if broken then handed else handed + [chunk], read))
      ensures forall i :: 0 <= i < |recorder.tools| ==>
                    recorder.tools[i] in old(recorder.tools) || fresh(recorder.tools[i])
    {
      FramesAppend(handed, chunk, read);
      if IsData(chunk) {
        match read(chunk[6..]) {
          case Readable(frame) =>
            FoldAppend(EMPTY, Frames(handed, read), frame);
            recorder.Observe(frame);
          case Unreadable =>
          case NotAnObject => return true;
        }
      }
      return false;
    }
  }

  // ---- what a stream leaves behind

  /** The sidecar of the frames: notices whole, the first four charts, the markup, the last usage, the run. */
  ghost function ShownBeside(frames: seq<Frame>): seq<Side> {
    Sidecar(Notices(frames), FirstFour(Charts(frames)), if Draws(frames) then Some(Markup(frames)) else None,
            LastUsage(frames), LastStart(frames).0)
  }

  /** The message that holds what these frames showed. */
  ghost function Shown(frames: seq<Frame>): Message {
    Message(Prose(frames),
            if Listing(frames, {}) == [] then None else Some(Listing(frames, {})),
            if ShownBeside(frames) == [] then None else Some(ShownBeside(frames)))
  }

  /** The stored sidecar, entry by entry and from the frames alone. */
  lemma ShownBesideIs(frames: seq<Frame>)
    ensures var s := ShownBeside(frames);
            var notices, drawn := Notices(frames), Charts(frames);
            var charts := if |drawn| <= 4 then drawn else drawn[..4];
            var n := |notices| + |charts|;
            var m := n + if Draws(frames) then 1 else 0;
            var k := m + if LastUsage(frames).Some? then 1 else 0;
            && |s| == k + (if LastStart(frames).0 != "" then 1 else 0)
            && (forall i :: 0 <= i < |notices| ==> s[i] == Whole(notices[i]))
            && (forall i :: 0 <= i < |charts| ==> s[|notices| + i] == Chart(charts[i]))
            && (Draws(frames) ==> s[n] == UiText(Markup(frames)))
            && (LastUsage(frames).Some? ==> s[m] == Spent(LastUsage(frames).value))
            && (LastStart(frames).0 != "" ==> s[k] == RunOf(LastStart(frames).0))
  {
    SidecarIs(Notices(frames), FirstFour(Charts(frames)), if Draws(frames) then Some(Markup(frames)) else None,
              LastUsage(frames), LastStart(frames).0);
  }

  lemma MessageIsShown(frames: seq<Frame>)
    ensures MessageOf(Fold(EMPTY, frames)) == Shown(frames)
  {
    ProseIsInOrder(frames);
    CallsArePaired(frames);
    SidecarParts(frames);
    RunIsLastStart(frames);
  }

  /** Binding a conversation bound to `stored` to this session raises: the row cannot be read, or it is
    * bound to another session and cannot be written. */
  predicate BindingRaises(stored: Option<string>, session: string, calls: Calls) {
    && session != ""
    && (calls.lookup.Raises?
        || (calls.lookup.Works? && stored.Some? && stored.value != session && calls.update.Raises?))
  }

  lemma PersistedIs(store: Store, t: Turn, calls: Calls)
    ensures Persisted(store, t, calls)
         == Store(if t.sessionId != "" && calls.lookup.Works? && store.session.Some? && calls.update.Works?
                  then Some(t.sessionId) else store.session,
                  if HasContent(t) && calls.add.Works? && !BindingRaises(store.session, t.sessionId, calls)
                  then store.messages + [MessageOf(t)] else store.messages)
  {
  }

  /** The stream's own promise about the store: wherever the consumer stops and however the calls into
    * the store end, a message is added if and only if a frame carried content, the message can be added,
    * and binding the last start frame's session does not raise; it holds what was handed out. The
    * conversation is bound to that session exactly when its row can be read and written. */
  lemma StoredIff(store: Store, chunks: seq<string>, wanted: nat, read: string -> Reading, calls: Calls)
    ensures var frames := Frames(HandedOut(chunks, wanted, read), read);
            var after := Persisted(store, Fold(EMPTY, frames), calls);
            var session := LastStart(frames).1;
            && after.messages == (if Carries(frames) && calls.add.Works?
                                     && !BindingRaises(store.session, session, calls)
                                  then store.messages + [Shown(frames)] else store.messages)
            && after.session == (if session != "" && calls.lookup.Works? && store.session.Some? && calls.update.Works?
                                 then Some(session) else store.session)
  {
    var frames := Frames(HandedOut(chunks, wanted, read), read);
    ContentIff(frames);
    MessageIsShown(frames);
    RunIsLastStart(frames);
    PersistedIs(store, Fold(EMPTY, frames), calls);
  }

  /** An answer that was shown is lost although its message could have been added: its conversation is
    * bound to another session, and writing the row raises. */
  lemma RaisingBindLosesTheAnswer(prose: string)
    ensures var frames := [Start("run", "theirs"), Token(prose)];
            var store := Store(Some("ours"), []);
            && Persisted(store, Fold(EMPTY, frames), Calls(Works, Raises, Works)) == store
            && Persisted(store, Fold(EMPTY, frames), Calls(Works, FailsQuietly, Works)).messages == [Shown(frames)]
  {
    var frames := [Start("run", "theirs"), Token(prose)];
    var store := Store(Some("ours"), []);
    assert !frames[1].Start? && !frames[1].Other?;
    assert frames == [frames[0]] + [frames[1]] && [] + [frames[0]] == [frames[0]];
    LastStartStep(EMPTY, [], frames[0]);
    LastStartStep(Observed(EMPTY, frames[0]), [frames[0]], frames[1]);
    ContentIff(frames);
    MessageIsShown(frames);
    RunIsLastStart(frames);
  }
}
