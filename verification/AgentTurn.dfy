/** The turn recorder of blueprints/agent.py as a fold over decoded frames, and what it amounts to:
 * prose in order, every tool call paired with its own end, the first charts, the last usage.
 */
module AgentTurn {
  import opened Wrappers
  import opened Lines

  const MAX_STORED_VIZ := 4

  /** A tool call's id as it comes in a frame: absent, text, or some other JSON value. */
  datatype Id = NoId | TextId(text: string) | OtherId(shown: string)

  /** `str(id)`, the key a call is open under. */
  function Key(id: Id): string {
    match id
    case NoId => "None"
    case TextId(text) => text
    case OtherId(shown) => shown
  }

  datatype Ending = Ending(ok: string, result: string, duration: string)

  /** A decoded frame by its type; `body` is the whole frame where the recorder keeps it whole. */
  datatype Frame =
    | Token(delta: string)
    | Ui(delta: string)
    | Start(runId: string, sessionId: string)
    | ToolStart(id: Id, name: string, args: string)
    | ToolEnd(id: Id, name: string, ending: Ending)
    | Viz(body: string)
    | Usage(body: string)
    | Notice(body: string)
    | Failure(body: string)
    | Confirm(body: string)
    | Other

  /** One listed tool call. */
  datatype Entry = Entry(id: Id, name: string, args: Option<string>, ending: Option<Ending>)

  /** The turn so far; `open` maps a key to the position in `tools` of the entry open under it. */
  datatype Turn = Turn(text: seq<string>, tools: seq<Entry>, open: map<string, nat>, notices: seq<Frame>,
                       viz: seq<string>, ui: seq<string>, usage: Option<string>,
                       runId: string, sessionId: string, paused: bool)

  const EMPTY := Turn([], [], map[], [], [], [], None, "", "", false)

  predicate Valid(t: Turn) {
    forall k :: k in t.open ==> t.open[k] < |t.tools| && Key(t.tools[t.open[k]].id) == k
  }

  function Observed(t: Turn, f: Frame): (r: Turn)
    requires Valid(t)
    ensures Valid(r)
  {
    match f
    case Token(delta) => t.(text := t.text + [delta])
    case Ui(delta) => t.(ui := t.ui + [delta])
    case Start(runId, sessionId) => t.(runId := runId, sessionId := sessionId)
    case ToolStart(id, name, args) =>
      t.(tools := t.tools + [Entry(id, name, Some(args), None)], open := t.open[Key(id) := |t.tools|])
    case ToolEnd(id, name, ending) =>
      if Key(id) in t.open then
        var at := t.open[Key(id)];
        t.(tools := t.tools[at := t.tools[at].(ending := Some(ending))], open := t.open - {Key(id)})
      else
        t.(tools := t.tools + [Entry(id, name, None, Some(ending))])
    case Viz(body) => if |t.viz| < MAX_STORED_VIZ then t.(viz := t.viz + [body]) else t
    case Usage(body) => t.(usage := Some(body))
    case Notice(_) => t.(notices := t.notices + [f])
    case Failure(_) => t.(notices := t.notices + [f])
    case Confirm(_) => t.(paused := true, notices := t.notices + [f])
    case Other => t
  }

  function Fold(t: Turn, frames: seq<Frame>): (r: Turn)
    requires Valid(t)
    ensures Valid(r)
    decreases |frames|
  {
    if frames == [] then t else Fold(Observed(t, frames[0]), frames[1..])
  }

  lemma {:induction false} FoldAppend(t: Turn, frames: seq<Frame>, f: Frame)
    requires Valid(t)
    ensures Fold(t, frames + [f]) == Observed(Fold(t, frames), f)
    decreases |frames|
  {
    if frames == [] {
      assert [] + [f] == [f];
      assert Fold(t, [f]) == Fold(Observed(t, f), [f][1..]);
    } else {
      assert (frames + [f])[1..] == frames[1..] + [f];
      FoldAppend(Observed(t, frames[0]), frames[1..], f);
    }
  }

  // ---------------------------------------------------------------- tool calls

  /** How the call opened under `key` ends: by the first later end under that key, unless another call
    * starts under the same key before it. */
  function NextEnding(frames: seq<Frame>, key: string): Option<Ending> {
    if frames == [] then None
    else match frames[0]
      case ToolStart(id, _, _) => if Key(id) == key then None else NextEnding(frames[1..], key)
      case ToolEnd(id, _, ending) => if Key(id) == key then Some(ending) else NextEnding(frames[1..], key)
      case _ => NextEnding(frames[1..], key)
  }

  /** The tool list a run of frames adds, looking ahead: one entry per start, with the ending that
    * belongs to it, and one per end that no live start is waiting for. */
  function Listing(frames: seq<Frame>, live: set<string>): seq<Entry> {
    if frames == [] then []
    else match frames[0]
      case ToolStart(id, name, args) =>
        [Entry(id, name, Some(args), NextEnding(frames[1..], Key(id)))] + Listing(frames[1..], live + {Key(id)})
      case ToolEnd(id, name, ending) =>
        if Key(id) in live then Listing(frames[1..], live - {Key(id)})
        else [Entry(id, name, None, Some(ending))] + Listing(frames[1..], live)
      case _ => Listing(frames[1..], live)
  }

  /** An entry with the ending the coming frames give it, if it is still open. */
  function Ended(t: Turn, i: nat, frames: seq<Frame>): Entry
    requires i < |t.tools|
  {
    var e := t.tools[i];
    if Key(e.id) in t.open && t.open[Key(e.id)] == i && NextEnding(frames, Key(e.id)).Some?
    then e.(ending := NextEnding(frames, Key(e.id))) else e
  }

  function Completed(t: Turn, frames: seq<Frame>): seq<Entry> {
    seq(|t.tools|, i requires 0 <= i < |t.tools| => Ended(t, i, frames))
  }

  predicate OpenHaveNoEnding(t: Turn)
    requires Valid(t)
  {
    forall k :: k in t.open ==> t.tools[t.open[k]].ending == None
  }

  /** What a step must keep: the entries so far, completed, and the entries to come are one list. */
  ghost predicate SameList(t: Turn, u: Turn, frames: seq<Frame>)
    requires frames != []
  {
    Completed(u, frames[1..]) + Listing(frames[1..], u.open.Keys) == Completed(t, frames) + Listing(frames, t.open.Keys)
  }

  lemma CompletedStart(t: Turn, frames: seq<Frame>)
    requires Valid(t) && OpenHaveNoEnding(t) && frames != [] && frames[0].ToolStart?
    ensures SameList(t, Observed(t, frames[0]), frames)
  {
    var f, rest := frames[0], frames[1..];
    var u, key := Observed(t, f), Key(f.id);
    assert u.open.Keys == t.open.Keys + {key};
    var added := Entry(f.id, f.name, Some(f.args), NextEnding(rest, key));
    assert Ended(u, |t.tools|, rest) == added;
    forall i | 0 <= i < |t.tools| ensures Ended(u, i, rest) == Ended(t, i, frames) {
      assert u.tools[i] == t.tools[i];
    }
    assert Completed(u, rest) == Completed(t, frames) + [added];
  }

  lemma CompletedEnd(t: Turn, frames: seq<Frame>)
    requires Valid(t) && OpenHaveNoEnding(t) && frames != []
    requires frames[0].ToolEnd? && Key(frames[0].id) in t.open
    ensures SameList(t, Observed(t, frames[0]), frames)
  {
    var f, rest := frames[0], frames[1..];
    var u, key := Observed(t, f), Key(f.id);
    var at := t.open[key];
    assert u.open.Keys == t.open.Keys - {key};
    forall i | 0 <= i < |t.tools| ensures Ended(u, i, rest) == Ended(t, i, frames) {
      if i != at { assert u.tools[i] == t.tools[i]; }
    }
    assert Completed(u, rest) == Completed(t, frames);
  }

  lemma CompletedElsewhere(t: Turn, frames: seq<Frame>)
    requires Valid(t) && OpenHaveNoEnding(t) && frames != []
    requires !frames[0].ToolStart? && (frames[0].ToolEnd? ==> Key(frames[0].id) !in t.open)
    ensures SameList(t, Observed(t, frames[0]), frames)
  {
    var f, rest := frames[0], frames[1..];
    var u := Observed(t, f);
    assert u.open == t.open;
    forall i | 0 <= i < |t.tools| ensures Ended(u, i, rest) == Ended(t, i, frames) {
      assert u.tools[i] == t.tools[i];
    }
    if f.ToolEnd? {
      var added := Entry(f.id, f.name, None, Some(f.ending));
      assert Ended(u, |t.tools|, rest) == added;
      assert Completed(u, rest) == Completed(t, frames) + [added];
    } else {
      assert u.tools == t.tools;
      assert Completed(u, rest) == Completed(t, frames);
    }
  }

  lemma OpenStayUnended(t: Turn, f: Frame)
    requires Valid(t) && OpenHaveNoEnding(t)
    ensures OpenHaveNoEnding(Observed(t, f))
  {
    var u := Observed(t, f);
    forall k | k in u.open ensures u.tools[u.open[k]].ending == None {
      if k in t.open && t.open[k] == u.open[k] && f.ToolEnd? && Key(f.id) in t.open { assert k != Key(f.id); }
    }
  }

  lemma {:induction false} FoldCompletes(t: Turn, frames: seq<Frame>)
    requires Valid(t) && OpenHaveNoEnding(t)
    ensures Fold(t, frames).tools == Completed(t, frames) + Listing(frames, t.open.Keys)
    decreases |frames|
  {
    if frames == [] {
      assert Completed(t, frames) == t.tools;
    } else {
      OpenStayUnended(t, frames[0]);
      if frames[0].ToolStart? { CompletedStart(t, frames); }
      else if frames[0].ToolEnd? && Key(frames[0].id) in t.open { CompletedEnd(t, frames); }
      else { CompletedElsewhere(t, frames); }
      FoldCompletes(Observed(t, frames[0]), frames[1..]);
    }
  }

  /** The recorded tool list pairs every call with its own end, though ends come later, out of order,
    * twice, or never. */
  lemma CallsArePaired(frames: seq<Frame>)
    ensures Fold(EMPTY, frames).tools == Listing(frames, {})
  {
    FoldCompletes(EMPTY, frames);
    assert Completed(EMPTY, frames) == [] && EMPTY.open.Keys == {};
  }

  /** The last start or end under a key: the start's position and frame when it is a start. */
  function Waiting(frames: seq<Frame>, key: string): Option<nat> {
    if frames == [] then None
    else
      var n := |frames| - 1;
      match frames[n]
      case ToolStart(id, _, _) => if Key(id) == key then Some(n) else Waiting(frames[..n], key)
      case ToolEnd(id, _, _) => if Key(id) == key then None else Waiting(frames[..n], key)
      case _ => Waiting(frames[..n], key)
  }

  /** How many entries a run of frames lists: its starts and its unmatched ends. */
  function Starts(frames: seq<Frame>): nat {
    if frames == [] then 0
    else Starts(frames[..|frames| - 1]) + if frames[|frames| - 1].ToolStart? then 1 else 0
  }

  function UnmatchedEnds(frames: seq<Frame>): nat {
    if frames == [] then 0
    else
      var n := |frames| - 1;
      var f := frames[n];
      UnmatchedEnds(frames[..n]) + if f.ToolEnd? && Waiting(frames[..n], Key(f.id)).None? then 1 else 0
  }

  function Listed(frames: seq<Frame>): nat {
    Starts(frames) + UnmatchedEnds(frames)
  }

  /** What the open table says about one key: it is there exactly when the last start or end under it is
    * a start, and then it is that start's entry, still without an ending. */
  ghost predicate OpenAt(t: Turn, frames: seq<Frame>, key: string) {
    && (key in t.open <==> Waiting(frames, key).Some?)
    && (key in t.open ==>
          var i := Waiting(frames, key).value;
          && i < |frames| && frames[i].ToolStart? && Key(frames[i].id) == key
          && t.open[key] == Listed(frames[..i]) < |t.tools|
          && t.tools[t.open[key]] == Entry(frames[i].id, frames[i].name, Some(frames[i].args), None))
  }

  lemma OpenStep(t: Turn, frames: seq<Frame>, f: Frame, key: string)
    requires Valid(t) && |t.tools| == Listed(frames) && OpenAt(t, frames, key)
    ensures OpenAt(Observed(t, f), frames + [f], key)
  {
    if f.ToolStart? && Key(f.id) == key {
      OpenStarts(t, frames, f);
    } else if f.ToolEnd? && Key(f.id) == key {
      WaitingStep(frames, f, key);
    } else {
      OpenElsewhere(t, frames, f, key);
    }
  }

  lemma WaitingStep(frames: seq<Frame>, f: Frame, key: string)
    ensures Waiting(frames + [f], key)
         == if f.ToolStart? && Key(f.id) == key then Some(|frames|)
            else if f.ToolEnd? && Key(f.id) == key then None
            else Waiting(frames, key)
  {
    assert (frames + [f])[..|frames|] == frames;
  }

  lemma OpenStarts(t: Turn, frames: seq<Frame>, f: Frame)
    requires Valid(t) && |t.tools| == Listed(frames) && f.ToolStart?
    ensures OpenAt(Observed(t, f), frames + [f], Key(f.id))
  {
    assert (frames + [f])[..|frames|] == frames;
    WaitingStep(frames, f, Key(f.id));
  }

  lemma OpenElsewhere(t: Turn, frames: seq<Frame>, f: Frame, key: string)
    requires Valid(t) && OpenAt(t, frames, key)
    requires f.ToolStart? || f.ToolEnd? ==> Key(f.id) != key
    ensures OpenAt(Observed(t, f), frames + [f], key)
  {
    WaitingStep(frames, f, key);
    if Waiting(frames, key).Some? {
      var i := Waiting(frames, key).value;
      assert i < |frames| ==> (frames + [f])[..i] == frames[..i] && (frames + [f])[i] == frames[i];
      if f.ToolEnd? && Key(f.id) in t.open { assert t.open[Key(f.id)] != t.open[key]; }
    }
  }

  lemma ListedStep(t: Turn, frames: seq<Frame>, f: Frame)
    requires Valid(t) && |t.tools| == Listed(frames)
    requires f.ToolEnd? ==> OpenAt(t, frames, Key(f.id))
    ensures |Observed(t, f).tools| == Listed(frames + [f])
  {
    assert (frames + [f])[..|frames|] == frames;
  }

  /** The list holds one entry per start and per unmatched end, and the open table is exactly the calls
    * whose latest start has no end yet. */
  lemma {:induction false} OpenIsLatestUnended(frames: seq<Frame>, key: string)
    ensures |Fold(EMPTY, frames).tools| == Starts(frames) + UnmatchedEnds(frames)
    ensures OpenAt(Fold(EMPTY, frames), frames, key)
  {
    if frames != [] {
      var before, f := frames[..|frames| - 1], frames[|frames| - 1];
      assert frames == before + [f];
      var t := Fold(EMPTY, before);
      FoldAppend(EMPTY, before, f);
      OpenIsLatestUnended(before, key);
      if f.ToolEnd? { OpenIsLatestUnended(before, Key(f.id)); }
      OpenStep(t, before, f, key);
      ListedStep(t, before, f);
    }
  }

  // ---------------------------------------------------------------- everything else

  /** The prose the frames carry. */
  function Prose(frames: seq<Frame>): string {
    if frames == [] then ""
    else Prose(frames[..|frames| - 1]) + if frames[|frames| - 1].Token? then frames[|frames| - 1].delta else ""
  }

  function Markup(frames: seq<Frame>): string {
    if frames == [] then ""
    else Markup(frames[..|frames| - 1]) + if frames[|frames| - 1].Ui? then frames[|frames| - 1].delta else ""
  }

  function Content(t: Turn): string {
    Concat(t.text)
  }

  /** What the turn holds as text is what the frames carry. */
  predicate SameText(t: Turn, frames: seq<Frame>) {
    Content(t) == Prose(frames) && Concat(t.ui) == Markup(frames)
  }

  lemma SameTextStep(t: Turn, frames: seq<Frame>, f: Frame)
    requires Valid(t) && SameText(t, frames)
    ensures SameText(Observed(t, f), frames + [f])
  {
    assert (frames + [f])[..|frames|] == frames;
    assert Prose(frames) + "" == Prose(frames) && Markup(frames) + "" == Markup(frames);
    if f.Token? { ConcatAppend(t.text, f.delta); }
    if f.Ui? { ConcatAppend(t.ui, f.delta); }
  }

  /** The turn's prose is the token deltas in order, and its markup the ui deltas in order. */
  lemma {:induction false} ProseIsInOrder(frames: seq<Frame>)
    ensures SameText(Fold(EMPTY, frames), frames)
  {
    if frames != [] {
      var before, f := frames[..|frames| - 1], frames[|frames| - 1];
      assert frames == before + [f];
      FoldAppend(EMPTY, before, f);
      ProseIsInOrder(before);
      SameTextStep(Fold(EMPTY, before), before, f);
    }
  }

  function Charts(frames: seq<Frame>): seq<string> {
    if frames == [] then []
    else Charts(frames[..|frames| - 1]) + if frames[|frames| - 1].Viz? then [frames[|frames| - 1].body] else []
  }

  /** The frames stored whole beside the prose. */
  predicate IsNotice(f: Frame) {
    f.Notice? || f.Failure? || f.Confirm?
  }

  function Notices(frames: seq<Frame>): seq<Frame> {
    if frames == [] then []
    else Notices(frames[..|frames| - 1]) + if IsNotice(frames[|frames| - 1]) then [frames[|frames| - 1]] else []
  }

  function LastUsage(frames: seq<Frame>): Option<string> {
    if frames == [] then None
    else if frames[|frames| - 1].Usage? then Some(frames[|frames| - 1].body)
    else LastUsage(frames[..|frames| - 1])
  }

  function FirstFour(charts: seq<string>): seq<string> {
    if |charts| <= 4 then charts else charts[..4]
  }

  /** The parts of a turn that are kept beside the prose. */
  ghost predicate Parts(t: Turn, frames: seq<Frame>) {
    && t.viz == FirstFour(Charts(frames))
    && t.usage == LastUsage(frames)
    && t.notices == Notices(frames)
    && (t.paused <==> Asks(frames))
    && (t.ui != [] <==> Draws(frames))
  }

  predicate Draws(frames: seq<Frame>) {
    exists i :: 0 <= i < |frames| && frames[i].Ui?
  }

  lemma DrawsAppend(frames: seq<Frame>, f: Frame)
    ensures Draws(frames + [f]) <==> Draws(frames) || f.Ui?
  {
    if Draws(frames) {
      var i :| 0 <= i < |frames| && frames[i].Ui?;
      assert (frames + [f])[i].Ui?;
    }
    if f.Ui? { assert (frames + [f])[|frames|].Ui?; }
  }

  predicate Asks(frames: seq<Frame>) {
    exists i :: 0 <= i < |frames| && frames[i].Confirm?
  }

  lemma AsksAppend(frames: seq<Frame>, f: Frame)
    ensures Asks(frames + [f]) <==> Asks(frames) || f.Confirm?
  {
    if Asks(frames) {
      var i :| 0 <= i < |frames| && frames[i].Confirm?;
      assert (frames + [f])[i].Confirm?;
    }
    if f.Confirm? { assert (frames + [f])[|frames|].Confirm?; }
  }

  lemma ChartsStep(charts: seq<string>, body: string)
    ensures FirstFour(charts + [body]) == FirstFour(charts) + if |FirstFour(charts)| < 4 then [body] else []
  {
  }

  lemma VizStep(t: Turn, frames: seq<Frame>, f: Frame)
    requires Valid(t) && t.viz == FirstFour(Charts(frames))
    ensures Observed(t, f).viz == FirstFour(Charts(frames + [f]))
  {
    assert (frames + [f])[..|frames|] == frames;
    if f.Viz? {
      assert Charts(frames + [f]) == Charts(frames) + [f.body];
      ChartsStep(Charts(frames), f.body);
    } else {
      assert Charts(frames + [f]) == Charts(frames);
    }
  }

  lemma NoticesStep(t: Turn, frames: seq<Frame>, f: Frame)
    requires Valid(t) && t.notices == Notices(frames)
    ensures Observed(t, f).notices == Notices(frames + [f])
  {
    NoticesAppend(frames, f);
    ObservedNotices(t, f);
  }

  lemma NoticesAppend(frames: seq<Frame>, f: Frame)
    ensures Notices(frames + [f]) == if IsNotice(f) then Notices(frames) + [f] else Notices(frames)
  {
    var all := frames + [f];
    assert all[..|all| - 1] == frames && all[|all| - 1] == f;
    if !IsNotice(f) { assert Notices(frames) + [] == Notices(frames); }
  }

  lemma ObservedNotices(t: Turn, f: Frame)
    requires Valid(t)
    ensures Observed(t, f).notices == if IsNotice(f) then t.notices + [f] else t.notices
  {
  }

  lemma UsageStep(t: Turn, frames: seq<Frame>, f: Frame)
    requires Valid(t) && t.usage == LastUsage(frames)
    ensures Observed(t, f).usage == LastUsage(frames + [f])
  {
    assert (frames + [f])[..|frames|] == frames;
  }

  lemma FlagsStep(t: Turn, frames: seq<Frame>, f: Frame)
    requires Valid(t) && (t.paused <==> Asks(frames)) && (t.ui != [] <==> Draws(frames))
    ensures Observed(t, f).paused <==> Asks(frames + [f])
    ensures Observed(t, f).ui != [] <==> Draws(frames + [f])
  {
    AsksAppend(frames, f);
    DrawsAppend(frames, f);
  }

  lemma PartsStep(t: Turn, frames: seq<Frame>, f: Frame)
    requires Valid(t) && Parts(t, frames)
    ensures Parts(Observed(t, f), frames + [f])
  {
    VizStep(t, frames, f);
    NoticesStep(t, frames, f);
    UsageStep(t, frames, f);
    FlagsStep(t, frames, f);
  }

  /** The run and session of the last start frame. */
  function LastStart(frames: seq<Frame>): (string, string) {
    if frames == [] then ("", "")
    else if frames[|frames| - 1].Start? then (frames[|frames| - 1].runId, frames[|frames| - 1].sessionId)
    else LastStart(frames[..|frames| - 1])
  }

  lemma LastStartStep(t: Turn, frames: seq<Frame>, f: Frame)
    requires Valid(t) && (t.runId, t.sessionId) == LastStart(frames)
    ensures (Observed(t, f).runId, Observed(t, f).sessionId) == LastStart(frames + [f])
  {
    assert (frames + [f])[..|frames|] == frames;
  }

  /** A turn belongs to the run and session its last start frame names, and to none without one. */
  lemma {:induction false} RunIsLastStart(frames: seq<Frame>)
    ensures (Fold(EMPTY, frames).runId, Fold(EMPTY, frames).sessionId) == LastStart(frames)
  {
    if frames != [] {
      var before, f := frames[..|frames| - 1], frames[|frames| - 1];
      assert frames == before + [f];
      FoldAppend(EMPTY, before, f);
      RunIsLastStart(before);
      LastStartStep(Fold(EMPTY, before), before, f);
    }
  }

  /** The stored charts are the first four of the turn, the usage is the last one, the notices are all
    * of them in order, and the turn is paused exactly when it asked for a confirmation. */
  lemma {:induction false} SidecarParts(frames: seq<Frame>)
    ensures Parts(Fold(EMPTY, frames), frames)
  {
    if frames != [] {
      var before, f := frames[..|frames| - 1], frames[|frames| - 1];
      assert frames == before + [f];
      FoldAppend(EMPTY, before, f);
      SidecarParts(before);
      PartsStep(Fold(EMPTY, before), before, f);
    }
  }

  /** A stored sidecar entry. */
  datatype Side = Whole(frame: Frame) | Chart(body: string) | UiText(content: string) | Spent(body: string)
                | RunOf(runId: string)

  /** The markup of a turn, absent if none came. */
  function Drawn(ui: seq<string>): Option<string> {
    if ui == [] then None else Some(Concat(ui))
  }

  function Sidecar(notices: seq<Frame>, viz: seq<string>, ui: Option<string>, usage: Option<string>, runId: string)
    : seq<Side>
  {
    seq(|notices|, i requires 0 <= i < |notices| => Whole(notices[i]))
    + seq(|viz|, i requires 0 <= i < |viz| => Chart(viz[i]))
    + (if ui.Some? then [UiText(ui.value)] else [])
    + (if usage.Some? then [Spent(usage.value)] else [])
    + (if runId != "" then [RunOf(runId)] else [])
  }

  /** The sidecar, entry by entry: the notices whole and in order, then the charts in order, then the markup in
    * one piece, the usage and the run, each if there is one. */
  lemma SidecarIs(notices: seq<Frame>, viz: seq<string>, ui: Option<string>, usage: Option<string>, runId: string)
    ensures var s, n := Sidecar(notices, viz, ui, usage, runId), |notices| + |viz|;
            var m := n + if ui.Some? then 1 else 0;
            var k := m + if usage.Some? then 1 else 0;
            && |s| == k + (if runId != "" then 1 else 0)
            && (forall i :: 0 <= i < |notices| ==> s[i] == Whole(notices[i]))
            && (forall i :: 0 <= i < |viz| ==> s[|notices| + i] == Chart(viz[i]))
            && (ui.Some? ==> s[n] == UiText(ui.value))
            && (usage.Some? ==> s[m] == Spent(usage.value))
            && (runId != "" ==> s[k] == RunOf(runId))
  {
  }

  predicate HasContent(t: Turn) {
    t.text != [] || t.tools != [] || t.notices != [] || t.viz != [] || t.ui != [] || t.usage.Some?
  }

  /** Some frame carries more than the run's identity. */
  predicate Carries(frames: seq<Frame>) {
    exists i :: 0 <= i < |frames| && !frames[i].Start? && !frames[i].Other?
  }

  lemma CarriesAppend(frames: seq<Frame>, f: Frame)
    ensures Carries(frames + [f]) <==> Carries(frames) || (!f.Start? && !f.Other?)
  {
    var all := frames + [f];
    assert all[|frames|] == f;
    if Carries(frames) {
      var i :| 0 <= i < |frames| && !frames[i].Start? && !frames[i].Other?;
      assert all[i] == frames[i];
    }
  }

  lemma ContentStep(t: Turn, f: Frame)
    requires Valid(t)
    ensures HasContent(Observed(t, f)) <==> HasContent(t) || (!f.Start? && !f.Other?)
  {
  }

  /** A turn is worth storing exactly when some frame carried more than the run's identity. */
  lemma {:induction false} ContentIff(frames: seq<Frame>)
    ensures HasContent(Fold(EMPTY, frames)) <==> Carries(frames)
  {
    if frames != [] {
      var before, f := frames[..|frames| - 1], frames[|frames| - 1];
      assert frames == before + [f];
      FoldAppend(EMPTY, before, f);
      ContentIff(before);
      ContentStep(Fold(EMPTY, before), f);
      CarriesAppend(before, f);
    }
  }
}
