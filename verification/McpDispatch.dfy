/** The tools/call dispatcher of blueprints/mcp_http.py: scope check, quota, pre-write notice, execution
 * and audit. Any number of requests are under way at once, and each makes these steps in turn, with any
 * steps of the others in between.
 */
module McpDispatch {
  import opened Wrappers
  import opened Text
  import opened McpQuota
  import opened McpRateSpec

  const WRITE_SCOPE := "write:orders"

  /** The scopes of the tool registry. */
  const SCOPES := ["read:market", "read:account", WRITE_SCOPE]

  datatype Params = NotAnObject | Params(name: Option<string>, argumentsAreObject: bool)

  datatype Outcome = Success | BadArguments | Error

  /** One tools/call request: the token, the scopes it was granted, and what is asked for. */
  datatype Request = Request(jti: string, granted: seq<string>, params: Params)

  /** The tool registry: the scope each tool requires, and the tools that can be called. */
  datatype Registry = Registry(scopes: map<string, string>, callable: set<string>)

  datatype Reply = InvalidParams | UnknownTool | InsufficientScope | NotImplemented | RateLimited | ToolError | Result

  /** Where a request stands. `call` is the quota check it passed, `begun` when its tool was started. */
  datatype Stage =
    | Arrived
    | Turned(reply: Reply)
    | Admitted(call: Call)
    | Noticed(call: Call)
    | Running(call: Call, begun: real)
    | Ended(call: Call, begun: real, outcome: Outcome)
    | Answered(call: Call, begun: real, outcome: Outcome)

  datatype Thread = Thread(request: Request, stage: Stage)

  /** What requests leave behind, in order; `thread` says whose it is. */
  datatype Trace =
    | Notice(thread: nat)
    | Execution(thread: nat, call: Call, begun: real)
    | Audit(thread: nat, outcome: Outcome)

  /** `checks` are all quota checks made so far. */
  datatype State = State(now: real, buckets: map<string, seq<real>>, checks: seq<Call>,
                         threads: seq<Thread>, log: seq<Trace>)

  function Init(now: real): State {
    State(now, map[], [], [], [])
  }

  /** The quota of a scope, from the two configured specifications. */
  function LimitOf(readSpec: string, writeSpec: string, scope: string): Limit {
    ParseRateSpec(if Contains(scope, "write:") then writeSpec else readSpec)
  }

  // ---------------------------------------------------------------- one step

  /** The answer to a request that is turned away before the quota, or the scope it needs. */
  datatype Gate = Closed(reply: Reply) | Passed(scope: string)

  function Checks(tools: Registry, r: Request): Gate {
    if r.params.NotAnObject? || r.params.name.None? || r.params.name.value == "" || !r.params.argumentsAreObject then
      Closed(InvalidParams)
    else
      var name := r.params.name.value;
      if name !in tools.scopes then Closed(UnknownTool)
      else if tools.scopes[name] !in r.granted then Closed(InsufficientScope)
      else if name !in tools.callable then Closed(NotImplemented)
      else Passed(tools.scopes[name])
  }

  function SetStage(s: State, i: nat, stage: Stage): State
    requires i < |s.threads|
  {
    s.(threads := s.threads[i := s.threads[i].(stage := stage)])
  }

  function Logged(s: State, trace: Trace): State {
    s.(log := s.log + [trace])
  }

  /** The checks and the quota, which nothing interrupts. */
  function Checked(s: State, tools: Registry, limits: Limits, i: nat): State
    requires i < |s.threads|
  {
    match Checks(tools, s.threads[i].request)
    case Closed(reply) => SetStage(s, i, Turned(reply))
    case Passed(scope) =>
      var c := Call(s.threads[i].request.jti, scope, s.now);
      var (ok, buckets) := McpQuota.Checked(s.buckets, c, limits);
      SetStage(s.(buckets := buckets, checks := s.checks + [c]), i, if ok then Admitted(c) else Turned(RateLimited))
  }

  function Started(s: State, i: nat, c: Call): State
    requires i < |s.threads|
  {
    Logged(SetStage(s, i, Running(c, s.now)), Execution(i, c, s.now))
  }

  /** The next step of request `i`; `outcome` is how its tool ends, if it is the tool that ends. */
  function Moved(s: State, tools: Registry, limits: Limits, i: nat, outcome: Outcome): State
    requires i < |s.threads|
  {
    match s.threads[i].stage
    case Arrived => Checked(s, tools, limits, i)
    case Turned(_) => s
    case Admitted(c) =>
      if c.scope == WRITE_SCOPE then Logged(SetStage(s, i, Noticed(c)), Notice(i)) else Started(s, i, c)
    case Noticed(c) => Started(s, i, c)
    case Running(c, begun) => SetStage(s, i, Ended(c, begun, outcome))
    case Ended(c, begun, ended) => Logged(SetStage(s, i, Answered(c, begun, ended)), Audit(i, ended))
    case Answered(_, _, _) => s
  }

  datatype Action = Tick(elapsed: real) | Arrive(request: Request) | Move(thread: nat, outcome: Outcome)

  function Next(s: State, tools: Registry, limits: Limits, a: Action): State {
    match a
    case Tick(elapsed) => if elapsed >= 0.0 then s.(now := s.now + elapsed) else s
    case Arrive(request) => s.(threads := s.threads + [Thread(request, Arrived)])
    case Move(i, outcome) => if i < |s.threads| then Moved(s, tools, limits, i, outcome) else s
  }

  function Run(s: State, tools: Registry, limits: Limits, actions: seq<Action>): State
    decreases |actions|
  {
    if actions == [] then s else Run(Next(s, tools, limits, actions[0]), tools, limits, actions[1..])
  }

  // ---------------------------------------------------------------- one request, uninterrupted

  /** What an admitted request leaves in the log when its tool ends at once. */
  function TraceOf(i: nat, c: Call, outcome: Outcome): seq<Trace> {
    (if c.scope == WRITE_SCOPE then [Notice(i)] else []) + [Execution(i, c, c.at), Audit(i, outcome)]
  }

  /** The request as the next thread, served to its end. */
  function Served(s: State, tools: Registry, limits: Limits, r: Request, outcome: Outcome): (State, Reply) {
    var i := |s.threads|;
    match Checks(tools, r)
    case Closed(reply) => (s.(threads := s.threads + [Thread(r, Turned(reply))]), reply)
    case Passed(scope) =>
      var c := Call(r.jti, scope, s.now);
      var (ok, buckets) := McpQuota.Checked(s.buckets, c, limits);
      var checked := s.(buckets := buckets, checks := s.checks + [c]);
      if !ok then (checked.(threads := s.threads + [Thread(r, Turned(RateLimited))]), RateLimited)
      else (checked.(threads := s.threads + [Thread(r, Answered(c, s.now, outcome))],
                     log := s.log + TraceOf(i, c, outcome)),
            if outcome.Success? then Result else ToolError)
  }

  /** The dispatcher as it runs, one request from its first check to its reply. */
  class Dispatcher {
    const tools: Registry
    const limits: Limits
    var quota: ScopeQuota
    var log: seq<Trace>

    constructor (tools: Registry, limits: Limits)
      ensures quota.buckets == map[] && log == [] && fresh(quota)
      ensures this.tools == tools && this.limits == limits
    {
      this.tools, this.limits := tools, limits;
      quota := new ScopeQuota();
      log := [];
    }

    method DispatchToolCall(r: Request, outcome: Outcome, i: nat, now: real, ghost s: State) returns (reply: Reply)
      requires quota.buckets == s.buckets && log == s.log && i == |s.threads| && now == s.now
      modifies this, quota
      ensures quota == old(quota)
      ensures var (t, answer) := Served(s, tools, limits, r, outcome);
              quota.buckets == t.buckets && log == t.log && reply == answer
    {
      if r.params.NotAnObject? { return InvalidParams; }
      if r.params.name.None? || r.params.name.value == "" { return InvalidParams; }
      if !r.params.argumentsAreObject { return InvalidParams; }
      var name := r.params.name.value;
      if name !in tools.scopes { return UnknownTool; }
      var needed := tools.scopes[name];
      if needed !in r.granted { return InsufficientScope; }
      if name !in tools.callable { return NotImplemented; }
      var c := Call(r.jti, needed, now);
      var ok := quota.WithinScopeQuota(c, limits);
      if !ok { return RateLimited; }
      if needed == WRITE_SCOPE { log := log + [Notice(i)]; }
      log := log + [Execution(i, c, now)];
      log := log + [Audit(i, outcome)];
      assert log == old(log) + TraceOf(i, c, outcome);
      return if outcome.Success? then Result else ToolError;
    }
  }

  lemma RunOne(s: State, tools: Registry, limits: Limits, a: Action, rest: seq<Action>)
    ensures Run(s, tools, limits, [a] + rest) == Run(Next(s, tools, limits, a), tools, limits, rest)
  {
    assert ([a] + rest)[1..] == rest;
  }

  function Moves(i: nat, n: nat, outcome: Outcome): seq<Action> {
    if n == 0 then [] else [Move(i, outcome)] + Moves(i, n - 1, outcome)
  }

  /** How many steps a request takes to its reply. */
  function StepsLeft(t: Thread): nat {
    match t.stage
    case Admitted(c) => if c.scope == WRITE_SCOPE then 4 else 3
    case Noticed(_) => 3
    case Running(_, _) => 2
    case Ended(_, _, _) => 1
    case _ => 0
  }

  /** From its admission on, a request that nothing interrupts leaves its notice, execution and audit. */
  lemma FinishAdmitted(s: State, tools: Registry, limits: Limits, i: nat, c: Call, outcome: Outcome)
    requires i < |s.threads| && s.threads[i].stage == Admitted(c) && c.at == s.now
    ensures Run(s, tools, limits, Moves(i, StepsLeft(s.threads[i]), outcome))
         == SetStage(s, i, Answered(c, s.now, outcome)).(log := s.log + TraceOf(i, c, outcome))
  {
    var noticed := if c.scope == WRITE_SCOPE then Moved(s, tools, limits, i, outcome) else s;
    if c.scope == WRITE_SCOPE { RunOne(s, tools, limits, Move(i, outcome), Moves(i, 3, outcome)); }
    var running := Moved(noticed, tools, limits, i, outcome);
    RunOne(noticed, tools, limits, Move(i, outcome), Moves(i, 2, outcome));
    var ended := Moved(running, tools, limits, i, outcome);
    RunOne(running, tools, limits, Move(i, outcome), Moves(i, 1, outcome));
    RunOne(ended, tools, limits, Move(i, outcome), Moves(i, 0, outcome));
    var t := Moved(ended, tools, limits, i, outcome);
    assert t.log == s.log + TraceOf(i, c, outcome);
    assert t.threads == s.threads[i := s.threads[i].(stage := Answered(c, s.now, outcome))];
  }

  /** A request served to its end is a run of its own steps, so what is proved of every interleaving is
    * proved of the dispatcher. */
  lemma ServedIsARun(s: State, tools: Registry, limits: Limits, r: Request, outcome: Outcome)
    returns (actions: seq<Action>)
    ensures Run(s, tools, limits, actions) == Served(s, tools, limits, r, outcome).0
  {
    var i := |s.threads|;
    var arrived := Next(s, tools, limits, Arrive(r));
    var checked := Checked(arrived, tools, limits, i);
    var rest := Moves(i, StepsLeft(checked.threads[i]), outcome);
    actions := [Arrive(r)] + ([Move(i, outcome)] + rest);
    RunOne(s, tools, limits, Arrive(r), [Move(i, outcome)] + rest);
    RunOne(arrived, tools, limits, Move(i, outcome), rest);
    var t := Served(s, tools, limits, r, outcome).0;
    if checked.threads[i].stage.Admitted? {
      var c := checked.threads[i].stage.call;
      FinishAdmitted(checked, tools, limits, i, c, outcome);
      assert Run(checked, tools, limits, rest).threads == t.threads;
    } else {
      assert checked.threads == t.threads;
    }
  }

  // ---------------------------------------------------------------- each request's own traces

  /** The traces of one request, in order. */
  function Own(log: seq<Trace>, i: nat): seq<Trace> {
    if log == [] then []
    else Own(log[..|log| - 1], i) + if log[|log| - 1].thread == i then [log[|log| - 1]] else []
  }

  /** The notice a request owes before its execution. */
  function Lead(i: nat, c: Call): seq<Trace> {
    if c.scope == WRITE_SCOPE then [Notice(i)] else []
  }

  /** The traces a request has left at each stage. */
  function Expected(i: nat, stage: Stage): seq<Trace> {
    match stage
    case Noticed(_) => [Notice(i)]
    case Running(c, begun) => Lead(i, c) + [Execution(i, c, begun)]
    case Ended(c, begun, _) => Lead(i, c) + [Execution(i, c, begun)]
    case Answered(c, begun, outcome) => Lead(i, c) + [Execution(i, c, begun)] + [Audit(i, outcome)]
    case _ => []
  }

  predicate Past(stage: Stage) {
    !stage.Arrived? && !stage.Turned?
  }

  predicate Begun(stage: Stage) {
    stage.Running? || stage.Ended? || stage.Answered?
  }

  /** The call is the request's own, its scope granted, and its tool starts no earlier. */
  predicate Lawful(t: Thread, now: real) {
    && (Past(t.stage) ==>
          t.stage.call.jti == t.request.jti && t.stage.call.scope in t.request.granted && t.stage.call.at <= now)
    && (t.stage.Noticed? ==> t.stage.call.scope == WRITE_SCOPE)
    && (Begun(t.stage) ==> t.stage.call.at <= t.stage.begun <= now)
  }

  ghost predicate InOrderAt(s: State, i: nat)
    requires i < |s.threads|
  {
    Lawful(s.threads[i], s.now) && Own(s.log, i) == Expected(i, s.threads[i].stage)
  }

  ghost predicate AllInOrder(s: State) {
    && (forall i :: 0 <= i < |s.threads| ==> InOrderAt(s, i))
    && (forall k :: 0 <= k < |s.log| ==> s.log[k].thread < |s.threads|)
  }

  lemma OwnAppend(log: seq<Trace>, trace: Trace, i: nat)
    ensures Own(log + [trace], i) == Own(log, i) + if trace.thread == i then [trace] else []
  {
    assert (log + [trace])[..|log|] == log;
  }

  lemma {:induction false} OwnOfNone(log: seq<Trace>, i: nat)
    requires forall k :: 0 <= k < |log| ==> log[k].thread != i
    ensures Own(log, i) == []
  {
    if log != [] { OwnOfNone(log[..|log| - 1], i); }
  }

  /** A step changes the stage of its own request, and appends at most one trace, its own. */
  ghost predicate StepsOnly(s: State, t: State, i: nat)
    requires i < |s.threads|
  {
    && t.now == s.now && |t.threads| == |s.threads|
    && t.threads == s.threads[i := s.threads[i].(stage := t.threads[i].stage)]
    && (t.log == s.log || (t.log != [] && t.log[..|t.log| - 1] == s.log && t.log[|t.log| - 1].thread == i))
  }

  lemma MovedStepsOnly(s: State, tools: Registry, limits: Limits, i: nat, outcome: Outcome)
    requires i < |s.threads|
    ensures StepsOnly(s, Moved(s, tools, limits, i, outcome), i)
  {
  }

  lemma StageOwn(s: State, i: nat, stage: Stage)
    requires i < |s.threads| && InOrderAt(s, i)
    requires Expected(i, stage) == Expected(i, s.threads[i].stage) && Lawful(s.threads[i].(stage := stage), s.now)
    ensures InOrderAt(SetStage(s, i, stage), i)
  {
  }

  lemma TraceOwn(s: State, i: nat, stage: Stage, trace: Trace)
    requires i < |s.threads| && InOrderAt(s, i) && trace.thread == i
    requires Expected(i, stage) == Expected(i, s.threads[i].stage) + [trace]
    requires Lawful(s.threads[i].(stage := stage), s.now)
    ensures InOrderAt(Logged(SetStage(s, i, stage), trace), i)
  {
    OwnAppend(s.log, trace, i);
  }

  lemma MovedOwn(s: State, tools: Registry, limits: Limits, i: nat, outcome: Outcome)
    requires i < |s.threads| && InOrderAt(s, i)
    ensures InOrderAt(Moved(s, tools, limits, i, outcome), i)
  {
    match s.threads[i].stage
    case Arrived => CheckedOwn(s, tools, limits, i);
    case Turned(_) =>
    case Admitted(c) =>
      if c.scope == WRITE_SCOPE { TraceOwn(s, i, Noticed(c), Notice(i)); }
      else { TraceOwn(s, i, Running(c, s.now), Execution(i, c, s.now)); }
    case Noticed(c) => TraceOwn(s, i, Running(c, s.now), Execution(i, c, s.now));
    case Running(c, begun) => StageOwn(s, i, Ended(c, begun, outcome));
    case Ended(c, begun, ended) => TraceOwn(s, i, Answered(c, begun, ended), Audit(i, ended));
    case Answered(_, _, _) =>
  }

  lemma CheckedOwn(s: State, tools: Registry, limits: Limits, i: nat)
    requires i < |s.threads| && InOrderAt(s, i) && s.threads[i].stage.Arrived?
    ensures InOrderAt(Checked(s, tools, limits, i), i)
  {
  }

  lemma OtherOwn(s: State, t: State, i: nat, j: nat)
    requires i < |s.threads| && StepsOnly(s, t, i) && j < |s.threads| && j != i && InOrderAt(s, j)
    ensures InOrderAt(t, j)
  {
    assert t.threads[j] == s.threads[j];
    if t.log != s.log {
      var n := |t.log| - 1;
      assert t.log == t.log[..n] + [t.log[n]];
      OwnAppend(s.log, t.log[n], j);
    }
  }

  lemma MovedKeepsOrder(s: State, tools: Registry, limits: Limits, i: nat, outcome: Outcome)
    requires AllInOrder(s) && i < |s.threads|
    ensures AllInOrder(Moved(s, tools, limits, i, outcome))
  {
    var t := Moved(s, tools, limits, i, outcome);
    MovedStepsOnly(s, tools, limits, i, outcome);
    forall j | 0 <= j < |t.threads| ensures InOrderAt(t, j) {
      assert InOrderAt(s, j);
      if j == i { MovedOwn(s, tools, limits, i, outcome); } else { OtherOwn(s, t, i, j); }
    }
    assert forall k :: 0 <= k < |s.log| && k < |t.log| ==> t.log[k] == s.log[k];
  }

  lemma NextKeepsOrder(s: State, tools: Registry, limits: Limits, a: Action)
    requires AllInOrder(s)
    ensures AllInOrder(Next(s, tools, limits, a))
  {
    var t := Next(s, tools, limits, a);
    match a
    case Tick(_) =>
      forall j | 0 <= j < |t.threads| ensures InOrderAt(t, j) { assert InOrderAt(s, j); }
    case Arrive(_) =>
      OwnOfNone(s.log, |s.threads|);
      forall j | 0 <= j < |t.threads| ensures InOrderAt(t, j) { if j < |s.threads| { assert InOrderAt(s, j); } }
    case Move(i, outcome) => if i < |s.threads| { MovedKeepsOrder(s, tools, limits, i, outcome); }
  }

  lemma {:induction false} RunKeepsOrder(s: State, tools: Registry, limits: Limits, actions: seq<Action>)
    requires AllInOrder(s)
    ensures AllInOrder(Run(s, tools, limits, actions))
    decreases |actions|
  {
    if actions != [] {
      NextKeepsOrder(s, tools, limits, actions[0]);
      RunKeepsOrder(Next(s, tools, limits, actions[0]), tools, limits, actions[1..]);
    }
  }

  lemma {:induction false} OwnSplits(a: seq<Trace>, b: seq<Trace>, i: nat)
    ensures Own(a + b, i) == Own(a, i) + Own(b, i)
  {
    if b == [] {
      assert a + b == a;
    } else {
      assert (a + b)[..|a + b| - 1] == a + b[..|b| - 1];
      OwnSplits(a, b[..|b| - 1], i);
    }
  }

  lemma {:induction false} OwnAreIts(log: seq<Trace>, i: nat)
    ensures forall k :: 0 <= k < |Own(log, i)| ==> Own(log, i)[k].thread == i && Own(log, i)[k] in log
  {
    if log != [] { OwnAreIts(log[..|log| - 1], i); }
  }

  /** Around an execution in the log: its request was granted its scope; before it the request left
    * nothing but the notice it owes if it writes; after it, nothing but the one audit entry with its
    * outcome, and that exactly once it is answered. */
  ghost predicate Framed(s: State, k: nat)
    requires k < |s.log| && s.log[k].Execution?
  {
    var Execution(i, c, begun) := s.log[k];
    && i < |s.threads|
    && var t := s.threads[i];
    && Begun(t.stage) && t.stage.call == c && t.stage.begun == begun
    && c.jti == t.request.jti && c.scope in t.request.granted
    && Own(s.log[..k], i) == Lead(i, c)
    && Own(s.log[k + 1..], i) == if t.stage.Answered? then [Audit(i, t.stage.outcome)] else []
  }

  /** Two ways to read the traces of a begun request around its execution are one. */
  lemma OneExecution(i: nat, stage: Stage, before: seq<Trace>, x: Trace, after: seq<Trace>)
    requires x.Execution? && before + [x] + after == Expected(i, stage)
    ensures Begun(stage) && x == Execution(i, stage.call, stage.begun) && before == Lead(i, stage.call)
    ensures after == if stage.Answered? then [Audit(i, stage.outcome)] else []
  {
    var all := before + [x] + after;
    var n := |before|;
    assert all[n] == x;
    assert before == all[..n] && after == all[n + 1..];
    if Begun(stage) { assert n == |Lead(i, stage.call)|; }
  }

  lemma OwnAround(s: State, k: nat)
    requires AllInOrder(s) && k < |s.log|
    ensures var i := s.log[k].thread;
            i < |s.threads|
            && Own(s.log[..k], i) + [s.log[k]] + Own(s.log[k + 1..], i) == Expected(i, s.threads[i].stage)
  {
    var x := s.log[k];
    assert InOrderAt(s, x.thread);
    assert s.log == s.log[..k] + [x] + s.log[k + 1..];
    OwnSplits(s.log[..k] + [x], s.log[k + 1..], x.thread);
    OwnAppend(s.log[..k], x, x.thread);
  }

  /** Over any interleaving, every execution is framed. */
  lemma EveryExecutionIsFramed(now: real, tools: Registry, limits: Limits, actions: seq<Action>, k: nat)
    requires var log := Run(Init(now), tools, limits, actions).log; k < |log| && log[k].Execution?
    ensures Framed(Run(Init(now), tools, limits, actions), k)
  {
    RunKeepsOrder(Init(now), tools, limits, actions);
    var s := Run(Init(now), tools, limits, actions);
    var i := s.log[k].thread;
    OwnAround(s, k);
    assert InOrderAt(s, i);
    OneExecution(i, s.threads[i].stage, Own(s.log[..k], i), s.log[k], Own(s.log[k + 1..], i));
  }

  // ---- the tool a request names decides the scope

  /** The tool a request names, if its parameters are in order. */
  function ToolOf(r: Request): Option<string> {
    if r.params.Params? && r.params.name.Some? && r.params.name.value != "" && r.params.argumentsAreObject
    then r.params.name else None
  }

  /** Exactly which requests get as far as the quota, under which scope, and how the others are answered. */
  lemma QuotaReachedIff(tools: Registry, r: Request)
    ensures Checks(tools, r) ==
      match ToolOf(r)
      case None => Closed(InvalidParams)
      case Some(tool) =>
        if tool !in tools.scopes then Closed(UnknownTool)
        else if tools.scopes[tool] !in r.granted then Closed(InsufficientScope)
        else if tool !in tools.callable then Closed(NotImplemented)
        else Passed(tools.scopes[tool])
    ensures Checks(tools, r).Passed?
       <==> ToolOf(r).Some? && ToolOf(r).value in tools.scopes && tools.scopes[ToolOf(r).value] in r.granted
            && ToolOf(r).value in tools.callable
  {
  }

  /** How a request is answered that runs to its end at once. */
  lemma ReplyIs(s: State, tools: Registry, limits: Limits, r: Request, outcome: Outcome)
    ensures var reply := Served(s, tools, limits, r, outcome).1;
            && (Checks(tools, r).Closed? ==> reply == Checks(tools, r).reply)
            && (Checks(tools, r).Passed? ==>
                  var admitted := McpQuota.Checked(s.buckets, Call(r.jti, Checks(tools, r).scope, s.now), limits).0;
                  reply == if !admitted then RateLimited else if outcome == Success then Result else ToolError)
  {
  }

  /** A request past its quota check names a tool that is there, is called under that tool's scope, and its
    * token was granted it. */
  predicate OfItsTool(tools: Registry, t: Thread) {
    Past(t.stage) ==>
      && ToolOf(t.request).Some? && ToolOf(t.request).value in tools.scopes && ToolOf(t.request).value in tools.callable
      && t.stage.call.scope == tools.scopes[ToolOf(t.request).value]
      && t.stage.call.scope in t.request.granted && t.stage.call.jti == t.request.jti
  }

  ghost predicate AllOfTheirTools(s: State, tools: Registry) {
    forall i :: 0 <= i < |s.threads| ==> OfItsTool(tools, s.threads[i])
  }

  lemma MovedOfItsTool(s: State, tools: Registry, limits: Limits, i: nat, outcome: Outcome)
    requires i < |s.threads| && OfItsTool(tools, s.threads[i])
    ensures OfItsTool(tools, Moved(s, tools, limits, i, outcome).threads[i])
  {
    QuotaReachedIff(tools, s.threads[i].request);
  }

  lemma {:induction false} RunKeepsTools(s: State, tools: Registry, limits: Limits, actions: seq<Action>)
    requires AllOfTheirTools(s, tools)
    ensures AllOfTheirTools(Run(s, tools, limits, actions), tools)
    decreases |actions|
  {
    if actions != [] {
      NextKeepsTools(s, tools, limits, actions[0]);
      RunKeepsTools(Next(s, tools, limits, actions[0]), tools, limits, actions[1..]);
    }
  }

  lemma NextKeepsTools(s: State, tools: Registry, limits: Limits, a: Action)
    requires AllOfTheirTools(s, tools)
    ensures AllOfTheirTools(Next(s, tools, limits, a), tools)
  {
    if a.Move? && a.thread < |s.threads| {
      MovedOfItsTool(s, tools, limits, a.thread, a.outcome);
      MovedStepsOnly(s, tools, limits, a.thread, a.outcome);
    }
  }

  /** Over any interleaving, every execution is one of the tool its request names: the tool is in the registry
    * and callable, and what was checked, counted and granted is the scope that tool requires. */
  lemma ExecutionIsOfItsTool(now: real, tools: Registry, limits: Limits, actions: seq<Action>, k: nat)
    requires var log := Run(Init(now), tools, limits, actions).log; k < |log| && log[k].Execution?
    ensures var s := Run(Init(now), tools, limits, actions);
            var Execution(i, c, _) := s.log[k];
            && i < |s.threads|
            && var r := s.threads[i].request;
            && ToolOf(r).Some? && ToolOf(r).value in tools.scopes && ToolOf(r).value in tools.callable
            && c.scope == tools.scopes[ToolOf(r).value] && c.scope in r.granted && c.jti == r.jti
  {
    EveryExecutionIsFramed(now, tools, limits, actions, k);
    RunKeepsTools(Init(now), tools, limits, actions);
    var s := Run(Init(now), tools, limits, actions);
    assert OfItsTool(tools, s.threads[s.log[k].thread]);
  }

  lemma {:induction false} OwnIsThere(log: seq<Trace>, i: nat, x: Trace) returns (m: nat)
    requires x in Own(log, i)
    ensures m < |log| && log[m] == x
  {
    var n := |log| - 1;
    if x in Own(log[..n], i) { m := OwnIsThere(log[..n], i, x); } else { m := n; }
  }

  /** So a tool that requires the order-writing scope never runs without its notice before it. */
  lemma WriteToolIsNoticed(now: real, tools: Registry, limits: Limits, actions: seq<Action>, k: nat) returns (m: nat)
    requires var s := Run(Init(now), tools, limits, actions);
             && k < |s.log| && s.log[k].Execution? && s.log[k].thread < |s.threads|
             && var r := s.threads[s.log[k].thread].request;
             ToolOf(r).Some? && ToolOf(r).value in tools.scopes && tools.scopes[ToolOf(r).value] == "write:orders"
    ensures var log := Run(Init(now), tools, limits, actions).log; m < k && log[m] == Notice(log[k].thread)
  {
    var log := Run(Init(now), tools, limits, actions).log;
    ExecutionIsOfItsTool(now, tools, limits, actions, k);
    EveryExecutionIsFramed(now, tools, limits, actions, k);
    assert Notice(log[k].thread) in Own(log[..k], log[k].thread);
    m := OwnIsThere(log[..k], log[k].thread, Notice(log[k].thread));
  }

  lemma NoticeOrAudit(i: nat, stage: Stage, before: seq<Trace>, x: Trace, after: seq<Trace>)
    requires !x.Execution? && before + [x] + after == Expected(i, stage)
    ensures Past(stage)
    ensures x.Notice? ==> stage.Noticed? || stage.call.scope == WRITE_SCOPE
    ensures x.Audit? ==> stage.Answered? && x.outcome == stage.outcome
                         && before == Lead(i, stage.call) + [Execution(i, stage.call, stage.begun)]
  {
    var all := before + [x] + after;
    assert all[|before|] == x && before == all[..|before|];
  }

  /** And every notice and every audit entry is owed: a notice is that of an admitted order-writing
    * request, an audit entry that of a request that has executed, with its outcome. */
  lemma NoStrayTraces(now: real, tools: Registry, limits: Limits, actions: seq<Action>, k: nat)
    requires k < |Run(Init(now), tools, limits, actions).log|
    requires !Run(Init(now), tools, limits, actions).log[k].Execution?
    ensures var s := Run(Init(now), tools, limits, actions);
            && s.log[k].thread < |s.threads|
            && var t := s.threads[s.log[k].thread];
            && Past(t.stage)
            && (s.log[k].Notice? ==> t.stage.call.scope == WRITE_SCOPE)
            && (s.log[k].Audit? ==> t.stage.Answered? && s.log[k].outcome == t.stage.outcome
                                    && Execution(s.log[k].thread, t.stage.call, t.stage.begun) in s.log[..k])
  {
    RunKeepsOrder(Init(now), tools, limits, actions);
    var s := Run(Init(now), tools, limits, actions);
    var i := s.log[k].thread;
    OwnAround(s, k);
    assert InOrderAt(s, i);
    var stage, before := s.threads[i].stage, Own(s.log[..k], i);
    NoticeOrAudit(i, stage, before, s.log[k], Own(s.log[k + 1..], i));
    if s.log[k].Audit? {
      OwnAreIts(s.log[..k], i);
      assert before[|before| - 1] == Execution(i, stage.call, stage.begun);
    }
  }

  // ---------------------------------------------------------------- executions and admissions

  function CountCalls(calls: seq<Call>, p: Call -> bool): nat {
    if calls == [] then 0
    else CountCalls(calls[..|calls| - 1], p) + if p(calls[|calls| - 1]) then 1 else 0
  }

  function CountTraces(log: seq<Trace>, q: Trace -> bool): nat {
    if log == [] then 0
    else CountTraces(log[..|log| - 1], q) + if q(log[|log| - 1]) then 1 else 0
  }

  /** Executions whose call satisfies `p`. */
  function Ran(p: Call -> bool): Trace -> bool {
    (t: Trace) => t.Execution? && p(t.call)
  }

  predicate IsWaiting(stage: Stage) {
    stage.Admitted? || stage.Noticed?
  }

  /** Requests admitted to the quota whose tool has not started. */
  function Waiting(threads: seq<Thread>, p: Call -> bool): nat {
    if threads == [] then 0
    else
      var stage := threads[|threads| - 1].stage;
      Waiting(threads[..|threads| - 1], p) + if IsWaiting(stage) && p(stage.call) then 1 else 0
  }

  function Wait(stage: Stage, p: Call -> bool): nat {
    if IsWaiting(stage) && p(stage.call) then 1 else 0
  }

  lemma {:induction false} WaitingSet(threads: seq<Thread>, i: nat, t: Thread, p: Call -> bool)
    requires i < |threads|
    ensures Waiting(threads[i := t], p) + Wait(threads[i].stage, p) == Waiting(threads, p) + Wait(t.stage, p)
  {
    var n := |threads| - 1;
    if i == n {
      assert threads[i := t][..n] == threads[..n];
    } else {
      assert threads[i := t][..n] == threads[..n][i := t];
      WaitingSet(threads[..n], i, t, p);
    }
  }

  lemma CountTracesAppend(log: seq<Trace>, t: Trace, q: Trace -> bool)
    ensures CountTraces(log + [t], q) == CountTraces(log, q) + if q(t) then 1 else 0
  {
    assert (log + [t])[..|log|] == log;
  }

  lemma CountCallsAppend(calls: seq<Call>, c: Call, p: Call -> bool)
    ensures CountCalls(calls + [c], p) == CountCalls(calls, p) + if p(c) then 1 else 0
  {
    assert (calls + [c])[..|calls|] == calls;
  }

  /** The admissions of the quota checks made so far, by the limiter that keeps the whole history. */
  function Admissions(s: State, limits: Limits): seq<Call> {
    McpQuota.Admitted([], s.checks, limits)
  }

  predicate ScopesHaveNoBar(tools: Registry) {
    forall name :: name in tools.scopes ==> NoBar(tools.scopes[name])
  }

  /** The checks are in the order of the clock and every bucket is the recent end of its pair's history. */
  ghost predicate QuotaInv(s: State, limits: Limits) {
    && Ordered(s.checks) && (forall k :: 0 <= k < |s.checks| ==> s.checks[k].at <= s.now)
    && AllMirror(s.buckets, Admissions(s, limits), s.now, limits)
  }

  /** Every admission has executed or is still to execute. */
  ghost predicate Accounted(s: State, limits: Limits, p: Call -> bool) {
    CountCalls(Admissions(s, limits), p) == CountTraces(s.log, Ran(p)) + Waiting(s.threads, p)
  }

  lemma CheckKeepsQuota(s: State, limits: Limits, c: Call)
    requires QuotaInv(s, limits) && c.at == s.now && NoBar(c.scope)
    ensures var (ok, buckets) := McpQuota.Checked(s.buckets, c, limits);
            && QuotaInv(s.(buckets := buckets, checks := s.checks + [c]), limits)
            && McpQuota.Admitted([], s.checks + [c], limits) == After(Admissions(s, limits), c, ok)
  {
    CheckAgrees(s.buckets, Admissions(s, limits), s.now, c, limits);
    AdmittedAppend([], s.checks, c, limits);
  }

  lemma CheckedKeeps(s: State, tools: Registry, limits: Limits, i: nat, p: Call -> bool)
    requires QuotaInv(s, limits) && Accounted(s, limits, p) && ScopesHaveNoBar(tools)
    requires i < |s.threads| && s.threads[i].stage.Arrived?
    ensures QuotaInv(Checked(s, tools, limits, i), limits) && Accounted(Checked(s, tools, limits, i), limits, p)
  {
    var gate := Checks(tools, s.threads[i].request);
    if gate.Passed? {
      PassedKeeps(s, limits, i, Call(s.threads[i].request.jti, gate.scope, s.now), p);
    } else {
      WaitingSet(s.threads, i, Checked(s, tools, limits, i).threads[i], p);
    }
  }

  /** The quota check of a request that passed the others. */
  lemma PassedKeeps(s: State, limits: Limits, i: nat, c: Call, p: Call -> bool)
    requires QuotaInv(s, limits) && Accounted(s, limits, p)
    requires i < |s.threads| && s.threads[i].stage.Arrived? && c.at == s.now && NoBar(c.scope)
    ensures var (ok, buckets) := McpQuota.Checked(s.buckets, c, limits);
            var t := SetStage(s.(buckets := buckets, checks := s.checks + [c]), i,
                              if ok then Admitted(c) else Turned(RateLimited));
            QuotaInv(t, limits) && Accounted(t, limits, p)
  {
    var (ok, buckets) := McpQuota.Checked(s.buckets, c, limits);
    var u := s.(buckets := buckets, checks := s.checks + [c]);
    var t := SetStage(u, i, if ok then Admitted(c) else Turned(RateLimited));
    CheckKeepsQuota(s, limits, c);
    assert Admissions(t, limits) == After(Admissions(s, limits), c, ok);
    var one := if ok && p(c) then 1 else 0;
    assert CountCalls(Admissions(t, limits), p) == CountCalls(Admissions(s, limits), p) + one by {
      CountCallsAppend(Admissions(s, limits), c, p);
    }
    assert Waiting(t.threads, p) == Waiting(s.threads, p) + one by { WaitingSet(s.threads, i, t.threads[i], p); }
  }

  /** The move of request `i` changes both counts alike. */
  lemma CountsShift(s: State, t: State, limits: Limits, i: nat, p: Call -> bool)
    requires Accounted(s, limits, p) && i < |s.threads| && |t.threads| == |s.threads|
    requires t.checks == s.checks && t.threads == s.threads[i := t.threads[i]]
    requires CountTraces(t.log, Ran(p)) + Wait(t.threads[i].stage, p)
          == CountTraces(s.log, Ran(p)) + Wait(s.threads[i].stage, p)
    ensures Accounted(t, limits, p)
  {
    WaitingSet(s.threads, i, t.threads[i], p);
  }

  /** Everything but the log and the stage of request `i` is as before, and its two counts add up alike. */
  ghost predicate Shifted(s: State, t: State, i: nat, p: Call -> bool)
    requires i < |s.threads|
  {
    && t.now == s.now && t.buckets == s.buckets && t.checks == s.checks && |t.threads| == |s.threads|
    && t.threads == s.threads[i := t.threads[i]]
    && CountTraces(t.log, Ran(p)) + Wait(t.threads[i].stage, p)
       == CountTraces(s.log, Ran(p)) + Wait(s.threads[i].stage, p)
  }

  lemma LoggedShifts(s: State, i: nat, stage: Stage, trace: Trace, p: Call -> bool)
    requires i < |s.threads|
    requires Wait(s.threads[i].stage, p) == Wait(stage, p) + if Ran(p)(trace) then 1 else 0
    ensures Shifted(s, Logged(SetStage(s, i, stage), trace), i, p)
  {
    CountTracesAppend(s.log, trace, Ran(p));
  }

  lemma MovedCounts(s: State, tools: Registry, limits: Limits, i: nat, outcome: Outcome, p: Call -> bool)
    requires i < |s.threads| && !s.threads[i].stage.Arrived?
    ensures Shifted(s, Moved(s, tools, limits, i, outcome), i, p)
  {
    match s.threads[i].stage
    case Admitted(c) =>
      if c.scope == WRITE_SCOPE { LoggedShifts(s, i, Noticed(c), Notice(i), p); }
      else { LoggedShifts(s, i, Running(c, s.now), Execution(i, c, s.now), p); }
    case Noticed(c) => LoggedShifts(s, i, Running(c, s.now), Execution(i, c, s.now), p);
    case Ended(c, begun, ended) => LoggedShifts(s, i, Answered(c, begun, ended), Audit(i, ended), p);
    case _ =>
  }

  lemma MovedKeeps(s: State, tools: Registry, limits: Limits, i: nat, outcome: Outcome, p: Call -> bool)
    requires QuotaInv(s, limits) && Accounted(s, limits, p) && ScopesHaveNoBar(tools) && i < |s.threads|
    ensures QuotaInv(Moved(s, tools, limits, i, outcome), limits)
    ensures Accounted(Moved(s, tools, limits, i, outcome), limits, p)
  {
    if s.threads[i].stage.Arrived? {
      CheckedKeeps(s, tools, limits, i, p);
    } else {
      MovedCounts(s, tools, limits, i, outcome, p);
      CountsShift(s, Moved(s, tools, limits, i, outcome), limits, i, p);
    }
  }

  lemma LaterKeepsQuota(s: State, limits: Limits, later: real)
    requires QuotaInv(s, limits) && s.now <= later
    ensures QuotaInv(s.(now := later), limits)
  {
    AllMirrorLater(s.buckets, Admissions(s, limits), s.now, later, limits);
  }

  lemma {:induction false} RunAccounts(s: State, tools: Registry, limits: Limits, actions: seq<Action>, p: Call -> bool)
    requires QuotaInv(s, limits) && Accounted(s, limits, p) && ScopesHaveNoBar(tools)
    ensures QuotaInv(Run(s, tools, limits, actions), limits)
    ensures Accounted(Run(s, tools, limits, actions), limits, p)
    decreases |actions|
  {
    if actions != [] {
      NextAccounts(s, tools, limits, actions[0], p);
      RunAccounts(Next(s, tools, limits, actions[0]), tools, limits, actions[1..], p);
    }
  }

  lemma ArriveKeeps(s: State, limits: Limits, arrived: Thread, p: Call -> bool)
    requires QuotaInv(s, limits) && Accounted(s, limits, p) && arrived.stage.Arrived?
    ensures var t := s.(threads := s.threads + [arrived]); QuotaInv(t, limits) && Accounted(t, limits, p)
  {
    assert (s.threads + [arrived])[..|s.threads|] == s.threads;
    assert Waiting(s.threads + [arrived], p) == Waiting(s.threads, p);
  }

  lemma NextAccounts(s: State, tools: Registry, limits: Limits, a: Action, p: Call -> bool)
    requires QuotaInv(s, limits) && Accounted(s, limits, p) && ScopesHaveNoBar(tools)
    ensures QuotaInv(Next(s, tools, limits, a), limits) && Accounted(Next(s, tools, limits, a), limits, p)
  {
    match a
    case Tick(elapsed) => if elapsed >= 0.0 { LaterKeepsQuota(s, limits, s.now + elapsed); }
    case Arrive(r) => ArriveKeeps(s, limits, Thread(r, Arrived), p);
    case Move(i, outcome) => if i < |s.threads| { MovedKeeps(s, tools, limits, i, outcome, p); }
  }

  lemma InitAccounts(now: real, limits: Limits, p: Call -> bool)
    ensures QuotaInv(Init(now), limits) && Accounted(Init(now), limits, p)
  {
  }

  /** Whatever is counted -- a token, a scope, a span of time -- the executions of a run and the requests
    * still to execute are the admissions its quota checks get from the limiter that keeps everything. */
  lemma ExecutionsAreAdmissions(now: real, tools: Registry, limits: Limits, actions: seq<Action>, p: Call -> bool)
    requires ScopesHaveNoBar(tools)
    ensures var s := Run(Init(now), tools, limits, actions);
            && Ordered(s.checks)
            && CountTraces(s.log, Ran(p)) + Waiting(s.threads, p) == CountCalls(Admissions(s, limits), p)
  {
    InitAccounts(now, limits, p);
    RunAccounts(Init(now), tools, limits, actions, p);
  }

  // ---------------------------------------------------------------- writes per window

  /** The calls of a token and scope checked in a closed interval. */
  function CallsOf(jti: string, scope: string, from: real, to: real): Call -> bool {
    (c: Call) => c.jti == jti && c.scope == scope && from <= c.at <= to
  }

  function WritesOf(jti: string, from: real, to: real): Call -> bool {
    CallsOf(jti, WRITE_SCOPE, from, to)
  }

  lemma CountInAppend(times: seq<real>, at: real, from: real, to: real)
    ensures CountIn(times + [at], from, to) == CountIn(times, from, to) + if from <= at <= to then 1 else 0
  {
    assert (times + [at])[..|times|] == times;
  }

  lemma {:induction false} CountedByTime(calls: seq<Call>, jti: string, scope: string, from: real, to: real)
    ensures CountCalls(calls, CallsOf(jti, scope, from, to)) == CountIn(Times(calls, jti, scope), from, to)
  {
    if calls != [] {
      var before, c := calls[..|calls| - 1], calls[|calls| - 1];
      CountedByTime(before, jti, scope, from, to);
      var times := Times(before, jti, scope);
      CountInAppend(times, c.at, from, to);
      assert times + [] == times;
    }
  }

  function WriteLimit(writeSpec: string): Limit {
    ParseRateSpec(writeSpec)
  }

  lemma WriteScopeHasWriteLimit(readSpec: string, writeSpec: string)
    ensures LimitOf(readSpec, writeSpec, WRITE_SCOPE) == WriteLimit(writeSpec)
  {
    assert "write:" <= WRITE_SCOPE;
  }

  function AtLeastZero(n: int): nat {
    if n > 0 then n else 0
  }

  /** No token ever executes more order-writing tools admitted in one window than the configured
    * specification allows, however its requests overlap. */
  lemma WritesStayWithinLimit(now: real, tools: Registry, readSpec: string, writeSpec: string, actions: seq<Action>,
                              jti: string, from: real)
    requires ScopesHaveNoBar(tools)
    ensures var log := Run(Init(now), tools, s => LimitOf(readSpec, writeSpec, s), actions).log;
            var limit := WriteLimit(writeSpec);
            CountTraces(log, Ran(WritesOf(jti, from, from + limit.window as real))) <= AtLeastZero(limit.count)
  {
    WriteScopeHasWriteLimit(readSpec, writeSpec);
    AdmittedWritesWithin(now, tools, s => LimitOf(readSpec, writeSpec, s), actions, jti, from);
  }

  lemma AdmittedWritesWithin(now: real, tools: Registry, limits: Limits, actions: seq<Action>, jti: string, from: real)
    requires ScopesHaveNoBar(tools)
    ensures var limit := limits(WRITE_SCOPE);
            CountTraces(Run(Init(now), tools, limits, actions).log,
                        Ran(WritesOf(jti, from, from + limit.window as real)))
              <= AtLeastZero(limit.count)
  {
    var s := Run(Init(now), tools, limits, actions);
    var p := WritesOf(jti, from, from + limits(WRITE_SCOPE).window as real);
    assert Ordered(s.checks) && CountTraces(s.log, Ran(p)) <= CountCalls(Admissions(s, limits), p) by {
      ExecutionsAreAdmissions(now, tools, limits, actions, p);
    }
    AdmittedWithin(s.checks, limits, jti, WRITE_SCOPE, from);
    CallsWithin(Admissions(s, limits), jti, WRITE_SCOPE, from, limits(WRITE_SCOPE));
  }

  /** The limit of a scope bounds the admissions of a token in one window, when they are counted by time. */
  ghost predicate TimesWithin(admitted: seq<Call>, jti: string, scope: string, from: real, limit: Limit) {
    CountIn(Times(admitted, jti, scope), from, from + limit.window as real) <= AtLeastZero(limit.count)
  }

  lemma CallsWithin(admitted: seq<Call>, jti: string, scope: string, from: real, limit: Limit)
    requires TimesWithin(admitted, jti, scope, from, limit)
    ensures CountCalls(admitted, CallsOf(jti, scope, from, from + limit.window as real)) <= AtLeastZero(limit.count)
  {
    CountedByTime(admitted, jti, scope, from, from + limit.window as real);
  }

  lemma AdmittedWithin(checks: seq<Call>, limits: Limits, jti: string, scope: string, from: real)
    requires Ordered(checks)
    ensures TimesWithin(McpQuota.Admitted([], checks, limits), jti, scope, from, limits(scope))
  {
    AtMostCountPerWindow(checks, limits, jti, scope, from);
  }

  lemma {:induction false} CountSame(log: seq<Trace>, p: Trace -> bool, q: Trace -> bool)
    requires forall k :: 0 <= k < |log| ==> (p(log[k]) <==> q(log[k]))
    ensures CountTraces(log, p) == CountTraces(log, q)
  {
    if log != [] { CountSame(log[..|log| - 1], p, q); }
  }

  /** Executions of a token's tools that require the order-writing scope, admitted in a closed interval. */
  function OfWriteTools(threads: seq<Thread>, tools: Registry, jti: string, from: real, to: real): Trace -> bool {
    (t: Trace) =>
      && t.Execution? && t.thread < |threads| && threads[t.thread].request.jti == jti
      && ToolOf(threads[t.thread].request).Some? && ToolOf(threads[t.thread].request).value in tools.scopes
      && tools.scopes[ToolOf(threads[t.thread].request).value] == "write:orders"
      && from <= t.call.at <= to
  }

  /** The write limit, counted by what the tools require: no token has more of its order-writing tools admitted
    * in one window and executed than the configured specification allows. */
  lemma WriteToolsStayWithinLimit(now: real, tools: Registry, readSpec: string, writeSpec: string,
                                  actions: seq<Action>, jti: string, from: real)
    requires ScopesHaveNoBar(tools)
    ensures var s := Run(Init(now), tools, scope => LimitOf(readSpec, writeSpec, scope), actions);
            var limit := ParseRateSpec(writeSpec);
            CountTraces(s.log, OfWriteTools(s.threads, tools, jti, from, from + limit.window as real))
              <= AtLeastZero(limit.count)
  {
    var limits := scope => LimitOf(readSpec, writeSpec, scope);
    var s := Run(Init(now), tools, limits, actions);
    var to := from + ParseRateSpec(writeSpec).window as real;
    WriteScopeHasWriteLimit(readSpec, writeSpec);
    AdmittedWritesWithin(now, tools, limits, actions, jti, from);
    forall k | 0 <= k < |s.log|
      ensures OfWriteTools(s.threads, tools, jti, from, to)(s.log[k]) <==> Ran(WritesOf(jti, from, to))(s.log[k]) {
      if s.log[k].Execution? { ExecutionIsOfItsTool(now, tools, limits, actions, k); }
    }
    CountSame(s.log, OfWriteTools(s.threads, tools, jti, from, to), Ran(WritesOf(jti, from, to)));
  }

  /** The other two scopes are limited by the read specification. */
  lemma ReadScopeHasReadLimit(scope: string, readSpec: string, writeSpec: string)
    requires scope == "read:market" || scope == "read:account"
    ensures LimitOf(readSpec, writeSpec, scope) == ParseRateSpec(readSpec)
  {
    NoWrite(scope);
  }

  lemma {:induction false} NoWrite(scope: string)
    requires 'w' !in scope
    ensures !Contains(scope, "write:")
  {
    assert "write:"[0] == 'w';
    if scope != "" {
      assert scope[0] in scope && !("write:" <= scope);
      NoWrite(scope[1..]);
    }
  }

  /** Write executions of a token that begin in a closed interval. */
  function BegunIn(jti: string, from: real, to: real): Trace -> bool {
    (t: Trace) => t.Execution? && t.call.jti == jti && t.call.scope == WRITE_SCOPE && from <= t.begun <= to
  }

  /** Those among them that were admitted before the interval. */
  function LateIn(jti: string, from: real, to: real): Trace -> bool {
    (t: Trace) => t.Execution? && t.call.jti == jti && t.call.scope == WRITE_SCOPE && t.call.at < from <= t.begun <= to
  }

  predicate NoEarlyStart(log: seq<Trace>) {
    forall k :: 0 <= k < |log| && log[k].Execution? ==> log[k].call.at <= log[k].begun
  }

  lemma {:induction false} BegunSplits(log: seq<Trace>, jti: string, from: real, to: real)
    requires NoEarlyStart(log)
    ensures CountTraces(log, BegunIn(jti, from, to))
         <= CountTraces(log, Ran(WritesOf(jti, from, to))) + CountTraces(log, LateIn(jti, from, to))
  {
    if log != [] { BegunSplits(log[..|log| - 1], jti, from, to); }
  }

  lemma {:induction false} NoneLate(log: seq<Trace>, jti: string, from: real, to: real)
    requires forall k :: 0 <= k < |log| && log[k].Execution? ==> log[k].call.at == log[k].begun
    ensures CountTraces(log, LateIn(jti, from, to)) == 0
  {
    if log != [] {
      var last := log[|log| - 1];
      assert last.Execution? ==> last.call.at == last.begun;
      assert !LateIn(jti, from, to)(last);
      NoneLate(log[..|log| - 1], jti, from, to);
    }
  }

  /** Counted by the instant a tool starts, a window holds at most the limit and those starts that were
    * admitted before it; when no request waits between its admission and its start, at most the limit. */
  lemma WriteStartsPerWindow(now: real, tools: Registry, readSpec: string, writeSpec: string, actions: seq<Action>,
                             jti: string, from: real)
    requires ScopesHaveNoBar(tools)
    ensures var log := Run(Init(now), tools, s => LimitOf(readSpec, writeSpec, s), actions).log;
            var limit := WriteLimit(writeSpec);
            var to := from + limit.window as real;
            && CountTraces(log, BegunIn(jti, from, to))
                 <= AtLeastZero(limit.count) + CountTraces(log, LateIn(jti, from, to))
            && ((forall k :: 0 <= k < |log| && log[k].Execution? ==> log[k].call.at == log[k].begun) ==>
                  CountTraces(log, BegunIn(jti, from, to)) <= AtLeastZero(limit.count))
  {
    var limits := s => LimitOf(readSpec, writeSpec, s);
    var log := Run(Init(now), tools, limits, actions).log;
    var to := from + WriteLimit(writeSpec).window as real;
    WritesStayWithinLimit(now, tools, readSpec, writeSpec, actions, jti, from);
    forall k | 0 <= k < |log| && log[k].Execution? ensures log[k].call.at <= log[k].begun {
      EveryExecutionIsFramed(now, tools, limits, actions, k);
      RunKeepsOrder(Init(now), tools, limits, actions);
      assert InOrderAt(Run(Init(now), tools, limits, actions), log[k].thread);
    }
    BegunSplits(log, jti, from, to);
    if forall k :: 0 <= k < |log| && log[k].Execution? ==> log[k].call.at == log[k].begun {
      NoneLate(log, jti, from, to);
    }
  }

  /** One request is admitted and held up, a second admitted once the window has passed. */
  lemma HeldUp(tools: Registry, limits: Limits, r: Request, window: nat) returns (actions: seq<Action>)
    requires Checks(tools, r) == Passed(WRITE_SCOPE) && r.jti != "" && limits(WRITE_SCOPE) == Limit(1, window)
    ensures var s := Run(Init(0.0), tools, limits, actions);
            var later := window as real + 1.0;
            && s.now == later && s.log == []
            && s.threads == [Thread(r, Admitted(Call(r.jti, WRITE_SCOPE, 0.0))),
                             Thread(r, Admitted(Call(r.jti, WRITE_SCOPE, later)))]
  {
    var later, key := window as real + 1.0, KeyOf(r.jti, WRITE_SCOPE);
    var a, b := Call(r.jti, WRITE_SCOPE, 0.0), Call(r.jti, WRITE_SCOPE, later);
    var s1 := Next(Init(0.0), tools, limits, Arrive(r));
    assert s1.threads == [Thread(r, Arrived)];
    var s2 := Next(s1, tools, limits, Move(0, Success));
    assert BucketOf(map[], key) == [] && [] + [0.0] == [0.0];
    assert s2.threads == [Thread(r, Admitted(a))] && BucketOf(s2.buckets, key) == [0.0];
    var s3 := Next(s2, tools, limits, Tick(later));
    var s4 := Next(s3, tools, limits, Arrive(r));
    assert s4.threads == [Thread(r, Admitted(a)), Thread(r, Arrived)];
    assert Fresh([0.0], later - window as real) == [] by { assert [0.0][1..] == []; }
    var s5 := Next(s4, tools, limits, Move(1, Success));
    assert s5.threads == [Thread(r, Admitted(a)), Thread(r, Admitted(b))];
    var last := [Move(1, Success)] + [];
    RunOne(s4, tools, limits, Move(1, Success), []);
    RunOne(s3, tools, limits, Arrive(r), last);
    RunOne(s2, tools, limits, Tick(later), [Arrive(r)] + last);
    RunOne(s1, tools, limits, Move(0, Success), [Tick(later)] + ([Arrive(r)] + last));
    RunOne(Init(0.0), tools, limits, Arrive(r), [Move(0, Success)] + ([Tick(later)] + ([Arrive(r)] + last)));
    actions := [Arrive(r)] + ([Move(0, Success)] + ([Tick(later)] + ([Arrive(r)] + last)));
  }

  /** Two steps that start the tool of an admitted order-writing request. */
  function Start(i: nat): seq<Action> {
    [Move(i, Success)] + ([Move(i, Success)] + [])
  }

  lemma StartWrite(s: State, tools: Registry, limits: Limits, i: nat, c: Call)
    requires i < |s.threads| && s.threads[i].stage == Admitted(c) && c.scope == WRITE_SCOPE
    ensures var t := Run(s, tools, limits, Start(i));
            && t.log == s.log + [Notice(i)] + [Execution(i, c, s.now)]
            && t.now == s.now && t.threads == s.threads[i := s.threads[i].(stage := Running(c, s.now))]
  {
    RunOne(s, tools, limits, Move(i, Success), [Move(i, Success)] + []);
    RunOne(Next(s, tools, limits, Move(i, Success)), tools, limits, Move(i, Success), []);
  }

  lemma StartIsCounted(log: seq<Trace>, i: nat, c: Call, now: real, to: real)
    requires c.scope == WRITE_SCOPE && now <= to
    ensures CountTraces(log + [Notice(i)] + [Execution(i, c, now)], BegunIn(c.jti, now, to))
         == CountTraces(log, BegunIn(c.jti, now, to)) + 1
  {
    var q := BegunIn(c.jti, now, to);
    CountTracesAppend(log, Notice(i), q);
    CountTracesAppend(log + [Notice(i)], Execution(i, c, now), q);
  }

  lemma BothStart(s: State, tools: Registry, limits: Limits, a: Call, b: Call, to: real)
    requires |s.threads| == 2 && s.threads[0].stage == Admitted(a) && s.threads[1].stage == Admitted(b)
    requires a.scope == b.scope == WRITE_SCOPE && a.jti == b.jti && s.now <= to
    ensures CountTraces(Run(Run(s, tools, limits, Start(0)), tools, limits, Start(1)).log, BegunIn(a.jti, s.now, to))
         == CountTraces(s.log, BegunIn(a.jti, s.now, to)) + 2
  {
    StartWrite(s, tools, limits, 0, a);
    StartIsCounted(s.log, 0, a, s.now, to);
    var one := Run(s, tools, limits, Start(0));
    StartWrite(one, tools, limits, 1, b);
    StartIsCounted(one.log, 1, b, s.now, to);
  }

  lemma BothAreCounted(held: State, tools: Registry, limits: Limits, r: Request, window: nat)
    returns (first: seq<Action>, second: seq<Action>)
    requires held.log == []
    requires held.threads == [Thread(r, Admitted(Call(r.jti, WRITE_SCOPE, 0.0))),
                              Thread(r, Admitted(Call(r.jti, WRITE_SCOPE, held.now)))]
    ensures var s := Run(Run(held, tools, limits, first), tools, limits, second);
            CountTraces(s.log, BegunIn(r.jti, held.now, held.now + window as real)) == 2
  {
    first, second := Start(0), Start(1);
    BothStart(held, tools, limits, Call(r.jti, WRITE_SCOPE, 0.0), Call(r.jti, WRITE_SCOPE, held.now),
              held.now + window as real);
  }

  /** The limit bounds admissions, and only such starts as follow theirs at once: with one order a window
    * allowed, a held-up tool and the next one can start at the same instant. */
  lemma LateStartsPileUp(tools: Registry, limits: Limits, r: Request, window: nat)
    returns (before: seq<Action>, first: seq<Action>, second: seq<Action>)
    requires Checks(tools, r) == Passed(WRITE_SCOPE) && r.jti != "" && limits(WRITE_SCOPE) == Limit(1, window)
    ensures var held := Run(Init(0.0), tools, limits, before);
            var s := Run(Run(held, tools, limits, first), tools, limits, second);
            CountTraces(s.log, BegunIn(r.jti, held.now, held.now + window as real)) == 2
  {
    before := HeldUp(tools, limits, r, window);
    first, second := BothAreCounted(Run(Init(0.0), tools, limits, before), tools, limits, r, window);
  }

  /** The scopes of the registry meet the assumption of these results. */
  lemma RegistryScopesHaveNoBar(tools: Registry)
    requires forall name :: name in tools.scopes ==> tools.scopes[name] in SCOPES
    ensures ScopesHaveNoBar(tools)
  {
    assert NoBar(SCOPES[0]) && NoBar(SCOPES[1]) && NoBar(SCOPES[2]);
  }
}
