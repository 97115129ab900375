/** The workflow lifecycle of blueprints/flow.py.
 *
 * A stored row (graph, active flag, recorded job id) is kept in step with three in-memory
 * registries: scheduler jobs, price alerts and order watches. Every external call may fail; the
 * first half of this module says what each request does to a `State` under each pattern of
 * failures, the second half proves what every run of requests keeps. FlowService.dfy holds the
 * routes themselves, as methods that update the row table and the registries in place.
 */
module FlowLifecycle {
  import opened Wrappers

  // ---------------------------------------------------------------- graphs and registrations

  datatype NodeKind = Start | WebhookTrigger | PriceAlert | OrderUpdateTrigger | Other

  type Fields = map<string, string>

  datatype Node = Node(kind: NodeKind, data: Fields)

  type Graph = seq<Node>

  /** What is armed for one workflow: one slot a registry. */
  datatype Arms = Arms(job: Option<Fields>, alert: Option<Fields>, watch: Option<Fields>)

  const UNARMED := Arms(None, None, None)

  /** The fields each registration call captures. */
  const JOB_FIELDS: set<string> :=
    {"scheduleType", "time", "days", "executeAt", "intervalValue", "intervalUnit", "marketHoursOnly"}
  const ALERT_FIELDS: set<string> :=
    {"symbol", "exchange", "condition", "price", "priceLower", "priceUpper", "percentage", "trigger",
     "expiration"}
  const WATCH_FIELDS: set<string> := {"orderId", "symbol", "exchange", "status", "trigger"}

  /** The fields a save compares to decide whether a live trigger changed. */
  const CONFIG_FIELDS: set<string> :=
    {"scheduleType", "time", "days", "executeAt", "intervalMinutes", "intervalValue", "intervalUnit",
     "marketHoursOnly", "symbol", "exchange", "condition", "price", "priceLower", "priceUpper",
     "percentage", "expiration", "orderId", "status", "trigger"}

  function Restrict(data: Fields, keep: set<string>): Fields {
    map key | key in data && key in keep :: data[key]
  }

  predicate IsTrigger(node: Node) {
    !node.kind.Other?
  }

  /** The first trigger node of the graph, which is the one a registration is built from. */
  function TriggerNode(nodes: Graph): Option<Node> {
    if nodes == [] then None
    else if IsTrigger(nodes[0]) then Some(nodes[0])
    else TriggerNode(nodes[1..])
  }

  function Triggers(nodes: Graph): nat {
    if nodes == [] then 0 else (if IsTrigger(nodes[0]) then 1 else 0) + Triggers(nodes[1..])
  }

  predicate Scheduled(data: Fields) {
    "scheduleType" in data && data["scheduleType"] != "" && data["scheduleType"] != "manual"
  }

  /** What registering this trigger node arms; a webhook or a manual start arms nothing. */
  function ArmsOf(node: Node): Arms {
    match node.kind
    case Start => if Scheduled(node.data) then Arms(Some(Restrict(node.data, JOB_FIELDS)), None, None) else UNARMED
    case PriceAlert => Arms(None, Some(Restrict(node.data, ALERT_FIELDS)), None)
    case OrderUpdateTrigger => Arms(None, None, Some(Restrict(node.data, WATCH_FIELDS)))
    case WebhookTrigger => UNARMED
    case Other => UNARMED
  }

  /** The arms the stored graph describes. */
  function Wanted(nodes: Graph): Arms {
    match TriggerNode(nodes)
    case None => UNARMED
    case Some(node) => ArmsOf(node)
  }

  /** The snapshot a save compares: per trigger kind, the configuration of the LAST such node. */
  function TriggerConfig(nodes: Graph): map<NodeKind, Fields> {
    if nodes == [] then map[]
    else
      var last := |nodes| - 1;
      var config := TriggerConfig(nodes[..last]);
      if IsTrigger(nodes[last]) then config[nodes[last].kind := Restrict(nodes[last].data, CONFIG_FIELDS)]
      else config
  }

  // ---------------------------------------------------------------- state, requests, faults

  datatype Row = Row(nodes: Graph, active: bool, jobRecorded: bool)

  /** One workflow as every request sees it: its stored row, if any, and what is armed for it. */
  datatype Flow = Flow(row: Option<Row>, arms: Arms)

  /** Which undo actions of a rollback fail. */
  datatype Undo = Undo(job: bool, alert: bool, watch: bool, flag: bool)

  /** Which calls of one request fail. A request only looks at the calls it makes.
    *  read, snapshot     the row read, and the second read a PUT compares against
    *  apiKey             no API key is configured
    *  persist            the row write the request is about
    *  register           add_workflow_job, add_alert or add_watch raises
    *  recordId, undoJob  recording the job id fails; taking the job back then fails too
    *  removeJob .. clearId   the forward teardown calls
    *  undo               the four actions of a rollback
    */
  datatype Faults = Faults(read: bool, snapshot: bool, apiKey: bool, persist: bool,
                           register: bool, recordId: bool, undoJob: bool,
                           removeJob: bool, removeAlert: bool, removeWatch: bool,
                           release: bool, clearId: bool, undo: Undo)

  const NO_UNDO_FAULTS := Undo(false, false, false, false)
  const NO_FAULTS := Faults(false, false, false, false, false, false, false, false, false, false,
                            false, false, NO_UNDO_FAULTS)

  /** `complete` and `wellFormed` are the verdicts of the checks the graph validator makes beyond
    * counting triggers. */
  datatype Request =
    | Create(id: int, nodes: Graph, wellFormed: bool)
    | Activate(id: int, complete: bool)
    | Deactivate(id: int)
    | Save(id: int, graph: Option<Graph>, wellFormed: bool)
    | Replace(id: int, nodes: Graph, complete: bool)
    | Delete(id: int)

  datatype Outcome = Done | NeedsReactivate | AlreadyActive | AlreadyInactive | NotFound | Refused | Failed

  predicate Live(w: Flow) {
    w.row.Some? && w.row.value.active
  }

  // ---------------------------------------------------------------- what each step does

  function SetActive(w: Flow, active: bool): Flow
    requires w.row.Some?
  {
    w.(row := Some(w.row.value.(active := active)))
  }

  function SetNodes(w: Flow, nodes: Graph): Flow
    requires w.row.Some?
  {
    w.(row := Some(w.row.value.(nodes := nodes)))
  }

  function SetRecorded(w: Flow, recorded: bool): Flow
    requires w.row.Some?
  {
    w.(row := Some(w.row.value.(jobRecorded := recorded)))
  }

  function WithoutJob(w: Flow): Flow { w.(arms := w.arms.(job := None)) }
  function WithoutAlert(w: Flow): Flow { w.(arms := w.arms.(alert := None)) }
  function WithoutWatch(w: Flow): Flow { w.(arms := w.arms.(watch := None)) }

  /** Tear down all three kinds; the job removal is strict. The flag says whether a call raised. */
  function Unregistered(w: Flow, f: Faults): (Flow, bool) {
    if f.removeJob then (w, true)
    else if f.removeAlert then (WithoutJob(w), true)
    else if f.removeWatch then (WithoutAlert(WithoutJob(w)), true)
    else (WithoutWatch(WithoutAlert(WithoutJob(w))), false)
  }

  /** Arm one trigger node. A job whose id cannot be recorded is taken back before raising. */
  function Registered(w: Flow, node: Node, f: Faults): (Flow, bool)
    requires w.row.Some?
  {
    var wanted := ArmsOf(node);
    if wanted.job.Some? then
      if f.register then (w, true)
      else
        var armed := w.(arms := w.arms.(job := wanted.job));
        if !f.recordId then (SetRecorded(armed, true), false)
        else (if f.undoJob then armed else WithoutJob(armed), true)
    else if wanted.alert.Some? then
      if f.register then (w, true) else (w.(arms := w.arms.(alert := wanted.alert)), false)
    else if wanted.watch.Some? then
      if f.register then (w, true) else (w.(arms := w.arms.(watch := wanted.watch)), false)
    else (w, false)
  }

  /** Swap a live registration for the one the stored graph describes. */
  function Reregistered(w: Flow, f: Faults): (Flow, bool)
    requires w.row.Some?
  {
    match TriggerNode(w.row.value.nodes)
    case None => (w, true)
    case Some(node) =>
      if f.apiKey then (w, true)
      else
        var (torn, raised) := Unregistered(w, f);
        if raised then (torn, true) else Registered(torn, node, f)
  }

  /** Each undo action is attempted whatever became of the ones before it. */
  function RolledBack(w: Flow, u: Undo): Flow
    requires w.row.Some?
  {
    Flow(if u.flag then w.row else Some(w.row.value.(active := false)), Spared(w.arms, u))
  }

  /** The arms left when the undo actions marked in `u` fail. */
  function Spared(arms: Arms, u: Undo): Arms {
    Arms(if u.job then arms.job else None,
         if u.alert then arms.alert else None,
         if u.watch then arms.watch else None)
  }

  function Created(w: Flow, nodes: Graph, wellFormed: bool, f: Faults): (Flow, Outcome) {
    if !wellFormed then (w, Refused)
    else if f.persist || w.row.Some? then (w, Failed)
    else (w.(row := Some(Row(nodes, false, false))), Done)
  }

  function Activated(w: Flow, complete: bool, f: Faults): (Flow, Outcome) {
    if f.read || w.row.None? then (w, NotFound)
    else if w.row.value.active then (w, AlreadyActive)
    else if f.apiKey || !complete || Triggers(w.row.value.nodes) != 1 then (w, Refused)
    else
      match TriggerNode(w.row.value.nodes)
      case None => (w, Refused)
      case Some(node) =>
        if f.persist then (w, Failed)
        else
          var (armed, raised) := Registered(SetActive(w, true), node, f);
          if raised then (RolledBack(armed, f.undo), Failed) else (armed, Done)
  }

  function Deactivated(w: Flow, f: Faults): (Flow, Outcome) {
    if f.read || w.row.None? then (w, NotFound)
    else if !w.row.value.active then (w, AlreadyInactive)
    else if f.removeJob then (w, Failed)
    else
      var jobless := WithoutJob(w);
      var cleared := if w.row.value.jobRecorded && !f.clearId then SetRecorded(jobless, false) else jobless;
      if f.removeAlert then (cleared, Failed)
      else if f.removeWatch then (WithoutAlert(cleared), Failed)
      else
        var torn := WithoutWatch(WithoutAlert(cleared));
        if f.release || f.persist then (torn, Failed) else (SetActive(torn, false), Done)
  }

  /** Re-arm after the graph of an active workflow was saved; fail closed when that raises. */
  function Rearmed(w: Flow, f: Faults): (Flow, Outcome)
    requires w.row.Some?
  {
    var (armed, raised) := Reregistered(w, f);
    if raised then (RolledBack(armed, f.undo), NeedsReactivate) else (armed, Done)
  }

  /** PUT: the graph part is optional, and the comparison needs a second read of the row. */
  function Saved(w: Flow, graph: Option<Graph>, wellFormed: bool, f: Faults): (Flow, Outcome) {
    if graph.Some? && !wellFormed then (w, Refused)
    else if f.persist || w.row.None? then (w, NotFound)
    else
      var nodes := if graph.Some? then graph.value else w.row.value.nodes;
      var stored := SetNodes(w, nodes);
      if !f.snapshot && w.row.value.active && TriggerConfig(nodes) != TriggerConfig(w.row.value.nodes)
      then Rearmed(stored, f)
      else (stored, Done)
  }

  function Replaced(w: Flow, nodes: Graph, complete: bool, f: Faults): (Flow, Outcome) {
    if f.read || w.row.None? then (w, NotFound)
    else if !complete || Triggers(nodes) != 1 then (w, Refused)
    else if f.persist then (w, Failed)
    else
      var stored := SetNodes(w, nodes);
      if w.row.value.active && TriggerConfig(w.row.value.nodes) != TriggerConfig(nodes)
      then Rearmed(stored, f)
      else (stored, Done)
  }

  /** Deleting an active workflow tears it down first; here the job removal fails silently. */
  function Deleted(w: Flow, f: Faults): (Flow, Outcome) {
    if f.read || w.row.None? then (w, NotFound)
    else
      var active := w.row.value.active;
      var jobless := if active && !f.removeJob then WithoutJob(w) else w;
      if active && f.removeAlert then (jobless, Failed)
      else
        var alertless := if active then WithoutAlert(jobless) else jobless;
        if active && f.removeWatch then (alertless, Failed)
        else
          var torn := if active then WithoutWatch(alertless) else alertless;
          if f.release || f.persist then (torn, Failed) else (torn.(row := None), Done)
  }

  /** What a request does to the workflow it names. */
  function Step(w: Flow, r: Request, f: Faults): (Flow, Outcome) {
    match r
    case Create(_, nodes, wellFormed) => Created(w, nodes, wellFormed, f)
    case Activate(_, complete) => Activated(w, complete, f)
    case Deactivate(_) => Deactivated(w, f)
    case Save(_, graph, wellFormed) => Saved(w, graph, wellFormed, f)
    case Replace(_, nodes, complete) => Replaced(w, nodes, complete, f)
    case Delete(_) => Deleted(w, f)
  }

  // ---------------------------------------------------------------- the service and its runs

  /** The row table and the three registries, each keyed by workflow id. */
  datatype State = State(rows: map<int, Row>,
                         jobs: map<int, Fields>,
                         alerts: map<int, Fields>,
                         watches: map<int, Fields>)

  const EMPTY := State(map[], map[], map[], map[])

  function Lookup<V>(m: map<int, V>, id: int): Option<V> {
    if id in m then Some(m[id]) else None
  }

  function Assign<V>(m: map<int, V>, id: int, v: Option<V>): map<int, V> {
    if v.Some? then m[id := v.value] else m - {id}
  }

  /** One workflow of the service. */
  function At(s: State, id: int): Flow {
    Flow(Lookup(s.rows, id), Arms(Lookup(s.jobs, id), Lookup(s.alerts, id), Lookup(s.watches, id)))
  }

  function With(s: State, id: int, w: Flow): State {
    State(Assign(s.rows, id, w.row), Assign(s.jobs, id, w.arms.job),
          Assign(s.alerts, id, w.arms.alert), Assign(s.watches, id, w.arms.watch))
  }

  function Serve(s: State, r: Request, f: Faults): State {
    With(s, r.id, Step(At(s, r.id), r, f).0)
  }

  datatype Event = Event(request: Request, faults: Faults)

  function Run(s: State, events: seq<Event>): State
    decreases |events|
  {
    if events == [] then s else Run(Serve(s, events[0].request, events[0].faults), events[1..])
  }

  /** A request touches its own workflow only. */
  lemma ServeIsLocal(s: State, r: Request, f: Faults, id: int)
    ensures At(Serve(s, r, f), id) == if id == r.id then Step(At(s, id), r, f).0 else At(s, id)
  {
  }

  // ---------------------------------------------------------------- nothing armed on an inactive row

  /** Nothing is armed unless the row is stored and active. */
  predicate Contained(w: Flow) {
    w.arms != UNARMED ==> Live(w)
  }

  ghost predicate Safe(s: State) {
    forall id :: Contained(At(s, id))
  }

  /** The arms in place when the re-registration of a live workflow raises: none, unless the teardown
    * was not reached or stopped half way, or a job was armed, not recorded and not taken back. */
  function LeftByRearm(w: Flow, nodes: Graph, f: Faults): Arms {
    if TriggerNode(nodes).None? || f.apiKey || f.removeJob then w.arms
    else if f.removeAlert then w.arms.(job := None)
    else if f.removeWatch then UNARMED.(watch := w.arms.watch)
    else LeftByRegister(nodes, f)
  }

  /** The arms in place when registering the graph's trigger raises, nothing being armed before. */
  function LeftByRegister(nodes: Graph, f: Faults): Arms {
    if !f.register && f.recordId && f.undoJob then UNARMED.(job := Wanted(nodes).job) else UNARMED
  }

  /** Registering the graph's trigger raises. */
  predicate RegisterRaises(nodes: Graph, f: Faults) {
    (f.register && Wanted(nodes) != UNARMED) || (f.recordId && Wanted(nodes).job.Some?)
  }

  predicate RearmRaises(nodes: Graph, f: Faults) {
    || TriggerNode(nodes).None?
    || f.apiKey || f.removeJob || f.removeAlert || f.removeWatch
    || RegisterRaises(nodes, f)
  }

  /** The graph this request stores into an active row with a trigger it can see changed. */
  function RearmedGraph(w: Flow, r: Request, f: Faults): Option<Graph> {
    if !Live(w) || f.persist then None
    else
      match r
      case Save(_, graph, wellFormed) =>
        if graph.Some? && wellFormed && !f.snapshot
           && TriggerConfig(graph.value) != TriggerConfig(w.row.value.nodes) then graph else None
      case Replace(_, nodes, complete) =>
        if !f.read && complete && Triggers(nodes) == 1
           && TriggerConfig(w.row.value.nodes) != TriggerConfig(nodes) then Some(nodes) else None
      case _ => None
  }

  /** The activation gets past every check and its row write. */
  predicate ActivationStarts(w: Flow, complete: bool, f: Faults) {
    && w.row.Some? && !w.row.value.active
    && !f.read && !f.apiKey && complete && Triggers(w.row.value.nodes) == 1 && !f.persist
  }

  /** The only ways to leave something armed on an inactive or deleted workflow: a rollback that
    * clears the flag but cannot undo a registration that is in place, or a delete whose silent job
    * removal failed. */
  predicate Leaks(w: Flow, r: Request, f: Faults) {
    match r
    case Activate(_, complete) =>
      && ActivationStarts(w, complete, f) && RegisterRaises(w.row.value.nodes, f)
      && !f.undo.flag && Spared(LeftByRegister(w.row.value.nodes, f), f.undo) != UNARMED
    case Delete(_) =>
      && Live(w) && w.arms.job.Some? && f.removeJob
      && !f.read && !f.removeAlert && !f.removeWatch && !f.release && !f.persist
    case _ =>
      var stored := RearmedGraph(w, r, f);
      && stored.Some? && RearmRaises(stored.value, f)
      && !f.undo.flag && Spared(LeftByRearm(w, stored.value, f), f.undo) != UNARMED
  }

  /** A graph with one trigger node has one to register. */
  lemma {:induction false} OneTriggerIsFound(nodes: Graph)
    requires Triggers(nodes) > 0
    ensures TriggerNode(nodes).Some? && IsTrigger(TriggerNode(nodes).value)
  {
    if !IsTrigger(nodes[0]) {
      OneTriggerIsFound(nodes[1..]);
    }
  }

  /** From a clean slate, registering either arms what the graph wants or raises leaving
    * `LeftByRegister`; it never touches the graph or the active flag. */
  lemma RegisterEffect(w: Flow, nodes: Graph, f: Faults)
    requires w.row.Some? && w.arms == UNARMED && TriggerNode(nodes).Some?
    ensures var (t, raised) := Registered(w, TriggerNode(nodes).value, f);
            && raised == RegisterRaises(nodes, f)
            && t.arms == (if raised then LeftByRegister(nodes, f) else Wanted(nodes))
            && t.row.Some? && t.row.value.nodes == w.row.value.nodes && t.row.value.active == w.row.value.active
  {
  }

  lemma RearmEffect(w: Flow, f: Faults)
    requires w.row.Some?
    ensures var nodes := w.row.value.nodes;
            var (t, raised) := Reregistered(w, f);
            && raised == RearmRaises(nodes, f)
            && t.arms == (if raised then LeftByRearm(w, nodes, f) else Wanted(nodes))
            && t.row.Some? && t.row.value.nodes == nodes && t.row.value.active == w.row.value.active
  {
    if TriggerNode(w.row.value.nodes).Some? && !f.apiKey && !Unregistered(w, f).1 {
      RegisterEffect(Unregistered(w, f).0, w.row.value.nodes, f);
    }
  }

  lemma ActivateContainedIff(w: Flow, complete: bool, f: Faults)
    requires Contained(w)
    ensures Contained(Activated(w, complete, f).0) <==> !Leaks(w, Activate(0, complete), f)
  {
    if ActivationStarts(w, complete, f) {
      OneTriggerIsFound(w.row.value.nodes);
      RegisterEffect(SetActive(w, true), w.row.value.nodes, f);
    }
  }

  /** After every request, nothing is armed outside active workflows -- exactly unless it leaks. */
  lemma StepContainedIff(w: Flow, r: Request, f: Faults)
    requires Contained(w)
    ensures Contained(Step(w, r, f).0) <==> !Leaks(w, r, f)
  {
    match r
    case Create(_, _, _) =>
    case Activate(_, complete) => ActivateContainedIff(w, complete, f);
    case Deactivate(_) =>
    case Delete(_) =>
    case Save(_, graph, _) =>
      if RearmedGraph(w, r, f).Some? { RearmEffect(SetNodes(w, graph.value), f); }
    case Replace(_, nodes, _) =>
      if RearmedGraph(w, r, f).Some? { RearmEffect(SetNodes(w, nodes), f); }
  }

  /** The faults a run is allowed when it must never leave anything armed by mistake: every call may
    * fail except the teardown calls of a rollback and the silent job removal of a delete. */
  predicate TeardownHolds(e: Event) {
    && !e.faults.undo.job && !e.faults.undo.alert && !e.faults.undo.watch
    && (e.request.Delete? ==> !e.faults.removeJob)
  }

  /** Safety over whole runs, for every pattern of the other failures. */
  lemma {:induction false} RunStaysSafe(s: State, events: seq<Event>)
    requires Safe(s)
    requires forall i :: 0 <= i < |events| ==> TeardownHolds(events[i])
    ensures Safe(Run(s, events))
    decreases |events|
  {
    if events != [] {
      var e := events[0];
      var t := Serve(s, e.request, e.faults);
      assert TeardownHolds(events[0]);
      forall id ensures Contained(At(t, id)) {
        ServeIsLocal(s, e.request, e.faults, id);
        StepContainedIff(At(s, id), e.request, e.faults);
      }
      RunStaysSafe(t, events[1..]);
    }
  }

  // ---------------------------------------------------------------- armed exactly as the graph says

  /** Safe, and an active workflow has exactly the arms its stored graph describes. */
  predicate Exact(w: Flow) {
    Contained(w) && (Live(w) ==> w.arms == Wanted(w.row.value.nodes))
  }

  /** Wanted arms never occupy more than one registry. */
  lemma WantedIsSingle(nodes: Graph)
    ensures var a := Wanted(nodes);
            (a.job.Some? ==> a.alert.None? && a.watch.None?) && (a.alert.Some? ==> a.watch.None?)
  {
  }

  /** The arms left when a deactivation stops after its strict job removal. */
  function LeftByDeactivate(arms: Arms, f: Faults): Arms {
    Arms(None, if f.removeAlert then arms.alert else None,
         if f.removeAlert || f.removeWatch then arms.watch else None)
  }

  /** The arms left when a delete stops before its row is gone. */
  function LeftByDelete(arms: Arms, f: Faults): Arms {
    LeftByDeactivate(arms, f).(job := if f.removeJob then arms.job else None)
  }

  /** A forward teardown stops before the row write that completes it. */
  predicate StopsHalfWay(f: Faults) {
    f.removeAlert || f.removeWatch || f.release || f.persist
  }

  /** The graph this request stores into an active row without re-arming it. */
  function UnnoticedGraph(w: Flow, r: Request, f: Faults): Option<Graph> {
    if !Live(w) || f.persist then None
    else
      match r
      case Save(_, graph, wellFormed) =>
        if graph.Some? && wellFormed
           && (f.snapshot || TriggerConfig(graph.value) == TriggerConfig(w.row.value.nodes)) then graph else None
      case Replace(_, nodes, complete) =>
        if !f.read && complete && Triggers(nodes) == 1
           && TriggerConfig(w.row.value.nodes) == TriggerConfig(nodes) then Some(nodes) else None
      case _ => None
  }

  /** The only ways to leave an active workflow armed otherwise than its graph says: a rollback whose
    * flag write fails, a teardown that stops half way, or a changed trigger that went unnoticed. */
  predicate Strands(w: Flow, r: Request, f: Faults) {
    match r
    case Create(_, _, _) => false
    case Activate(_, complete) =>
      && ActivationStarts(w, complete, f) && RegisterRaises(w.row.value.nodes, f) && f.undo.flag
      && Spared(LeftByRegister(w.row.value.nodes, f), f.undo) != Wanted(w.row.value.nodes)
    case Deactivate(_) =>
      Live(w) && !f.read && !f.removeJob && StopsHalfWay(f) && LeftByDeactivate(w.arms, f) != w.arms
    case Delete(_) =>
      Live(w) && !f.read && StopsHalfWay(f) && LeftByDelete(w.arms, f) != w.arms
    case _ =>
      var unnoticed := UnnoticedGraph(w, r, f);
      var stored := RearmedGraph(w, r, f);
      || (unnoticed.Some? && Wanted(unnoticed.value) != Wanted(w.row.value.nodes))
      || (&& stored.Some? && RearmRaises(stored.value, f) && f.undo.flag
          && Spared(LeftByRearm(w, stored.value, f), f.undo) != Wanted(stored.value))
  }

  lemma ActivateExactIff(w: Flow, complete: bool, f: Faults)
    requires Exact(w)
    ensures Exact(Activated(w, complete, f).0)
       <==> !Leaks(w, Activate(0, complete), f) && !Strands(w, Activate(0, complete), f)
  {
    if ActivationStarts(w, complete, f) {
      OneTriggerIsFound(w.row.value.nodes);
      RegisterEffect(SetActive(w, true), w.row.value.nodes, f);
    }
  }

  lemma SaveExactIff(w: Flow, graph: Option<Graph>, wellFormed: bool, f: Faults)
    requires Exact(w)
    ensures Exact(Saved(w, graph, wellFormed, f).0)
       <==> !Leaks(w, Save(0, graph, wellFormed), f) && !Strands(w, Save(0, graph, wellFormed), f)
  {
    if RearmedGraph(w, Save(0, graph, wellFormed), f).Some? {
      RearmEffect(SetNodes(w, graph.value), f);
    }
  }

  lemma ReplaceExactIff(w: Flow, nodes: Graph, complete: bool, f: Faults)
    requires Exact(w)
    ensures Exact(Replaced(w, nodes, complete, f).0)
       <==> !Leaks(w, Replace(0, nodes, complete), f) && !Strands(w, Replace(0, nodes, complete), f)
  {
    if RearmedGraph(w, Replace(0, nodes, complete), f).Some? {
      RearmEffect(SetNodes(w, nodes), f);
    }
  }

  /** Exactness survives a request if and only if the request neither leaks nor strands. */
  lemma StepExactIff(w: Flow, r: Request, f: Faults)
    requires Exact(w)
    ensures Exact(Step(w, r, f).0) <==> !Leaks(w, r, f) && !Strands(w, r, f)
  {
    match r
    case Create(_, _, _) =>
    case Activate(_, complete) => ActivateExactIff(w, complete, f);
    case Deactivate(_) =>
    case Delete(_) =>
    case Save(_, graph, wellFormed) => SaveExactIff(w, graph, wellFormed, f);
    case Replace(_, nodes, complete) => ReplaceExactIff(w, nodes, complete, f);
  }

  // ---- with one trigger a graph, the compared configuration decides the registration

  lemma {:induction false} TriggersAppend(nodes: Graph, node: Node)
    ensures Triggers(nodes + [node]) == Triggers(nodes) + (if IsTrigger(node) then 1 else 0)
    ensures TriggerNode(nodes + [node])
         == if TriggerNode(nodes).Some? then TriggerNode(nodes)
            else if IsTrigger(node) then Some(node) else None
  {
    if nodes != [] {
      assert (nodes + [node])[1..] == nodes[1..] + [node];
      TriggersAppend(nodes[1..], node);
    }
  }

  function ConfigOf(trigger: Option<Node>): (config: map<NodeKind, Fields>)
    ensures trigger.Some? ==> trigger.value.kind in config
  {
    match trigger
    case None => map[]
    case Some(node) => map[node.kind := Restrict(node.data, CONFIG_FIELDS)]
  }

  lemma {:induction false} ConfigOfSingleTrigger(nodes: Graph)
    requires Triggers(nodes) <= 1
    ensures TriggerConfig(nodes) == ConfigOf(TriggerNode(nodes))
    ensures TriggerNode(nodes).Some? <==> Triggers(nodes) == 1
  {
    if nodes != [] {
      var last := |nodes| - 1;
      assert nodes == nodes[..last] + [nodes[last]];
      TriggersAppend(nodes[..last], nodes[last]);
      ConfigOfSingleTrigger(nodes[..last]);
    }
  }

  /** Every field a registration captures is among the fields a save compares. */
  lemma RestrictTwice(data: Fields, keep: set<string>)
    requires keep <= CONFIG_FIELDS
    ensures Restrict(Restrict(data, CONFIG_FIELDS), keep) == Restrict(data, keep)
  {
  }

  lemma ConfigDecidesArms(a: Node, b: Node)
    requires a.kind == b.kind
    requires Restrict(a.data, CONFIG_FIELDS) == Restrict(b.data, CONFIG_FIELDS)
    ensures ArmsOf(a) == ArmsOf(b)
  {
    RestrictTwice(a.data, JOB_FIELDS);
    RestrictTwice(b.data, JOB_FIELDS);
    RestrictTwice(a.data, ALERT_FIELDS);
    RestrictTwice(b.data, ALERT_FIELDS);
    RestrictTwice(a.data, WATCH_FIELDS);
    RestrictTwice(b.data, WATCH_FIELDS);
    assert Scheduled(a.data) == Scheduled(Restrict(a.data, CONFIG_FIELDS));
    assert Scheduled(b.data) == Scheduled(Restrict(b.data, CONFIG_FIELDS));
  }

  lemma SameConfigSameArms(before: Graph, after: Graph)
    requires Triggers(before) <= 1 && Triggers(after) <= 1
    requires TriggerConfig(before) == TriggerConfig(after)
    ensures Wanted(before) == Wanted(after)
  {
    ConfigOfSingleTrigger(before);
    ConfigOfSingleTrigger(after);
    assert TriggerConfig(before) == map[] <==> TriggerNode(before).None?;
    if TriggerNode(after).Some? {
      var b := TriggerNode(after).value;
      assert b.kind in TriggerConfig(before);
      assert TriggerConfig(before)[b.kind] == TriggerConfig(after)[b.kind];
      ConfigDecidesArms(TriggerNode(before).value, b);
    }
  }

  // ---- exactness over whole runs

  predicate SingleTrigger(w: Flow) {
    Live(w) ==> Triggers(w.row.value.nodes) <= 1
  }

  ghost predicate AllExact(s: State) {
    forall id :: Exact(At(s, id)) && SingleTrigger(At(s, id))
  }

  /** What a run may meet and still stay exact: no failing undo, no deactivate or delete that stops
    * half way, no PUT that loses its comparison read or stores a second trigger node. Every other
    * call may fail. */
  predicate Benign(e: Event) {
    && e.faults.undo == NO_UNDO_FAULTS
    && (e.request.Deactivate? ==> !StopsHalfWay(e.faults))
    && (e.request.Delete? ==> !e.faults.removeJob && !StopsHalfWay(e.faults))
    && (e.request.Save? && e.request.graph.Some? ==> !e.faults.snapshot && Triggers(e.request.graph.value) <= 1)
  }

  lemma BenignStepStaysExact(w: Flow, e: Event)
    requires Exact(w) && SingleTrigger(w) && Benign(e)
    ensures Exact(Step(w, e.request, e.faults).0)
    ensures SingleTrigger(Step(w, e.request, e.faults).0)
  {
    StepExactIff(w, e.request, e.faults);
    match e.request
    case Save(_, graph, _) =>
      if UnnoticedGraph(w, e.request, e.faults).Some? { SameConfigSameArms(w.row.value.nodes, graph.value); }
      if RearmedGraph(w, e.request, e.faults).Some? { RearmEffect(SetNodes(w, graph.value), e.faults); }
    case Replace(_, nodes, _) =>
      if UnnoticedGraph(w, e.request, e.faults).Some? { SameConfigSameArms(w.row.value.nodes, nodes); }
      if RearmedGraph(w, e.request, e.faults).Some? { RearmEffect(SetNodes(w, nodes), e.faults); }
    case Activate(_, complete) =>
      if ActivationStarts(w, complete, e.faults) {
        OneTriggerIsFound(w.row.value.nodes);
        RegisterEffect(SetActive(w, true), w.row.value.nodes, e.faults);
      }
    case _ =>
  }

  /** However often PUT or replace changed a trigger or its kind, an active workflow is armed with
    * exactly what its stored graph describes. */
  lemma {:induction false} RunStaysExact(s: State, events: seq<Event>)
    requires AllExact(s)
    requires forall i :: 0 <= i < |events| ==> Benign(events[i])
    ensures AllExact(Run(s, events))
    decreases |events|
  {
    if events != [] {
      var e := events[0];
      var t := Serve(s, e.request, e.faults);
      assert Benign(events[0]);
      forall id ensures Exact(At(t, id)) && SingleTrigger(At(t, id)) {
        ServeIsLocal(s, e.request, e.faults, id);
        BenignStepStaysExact(At(s, id), e);
      }
      RunStaysExact(t, events[1..]);
    }
  }

  /** Nothing is armed for a workflow that was never created, and it is armed as it should be. */
  lemma EmptyIsExact()
    ensures AllExact(EMPTY) && Safe(EMPTY)
  {
  }

  // ---- the exact condition over whole runs

  ghost predicate All(s: State, p: Flow -> bool) {
    forall id :: p(At(s, id))
  }

  predicate Slips(s: State, e: Event, slips: (Flow, Request, Faults) -> bool) {
    slips(At(s, e.request.id), e.request, e.faults)
  }

  /** `slips` is exactly what makes one request lose `p`. */
  ghost predicate Decides(p: Flow -> bool, slips: (Flow, Request, Faults) -> bool) {
    forall w, r, f :: p(w) ==> (p(Step(w, r, f).0) <==> !slips(w, r, f))
  }

  /** Every state the run passes has `p` for every workflow. */
  ghost predicate Always(s: State, events: seq<Event>, p: Flow -> bool) {
    forall k :: 0 <= k <= |events| ==> All(Run(s, events[..k]), p)
  }

  /** No request of the run slips in the state it meets. */
  ghost predicate NeverSlips(s: State, events: seq<Event>, slips: (Flow, Request, Faults) -> bool) {
    forall k :: 0 <= k < |events| ==> !Slips(Run(s, events[..k]), events[k], slips)
  }

  lemma ServeKeepsAllIff(s: State, e: Event, p: Flow -> bool, slips: (Flow, Request, Faults) -> bool)
    requires Decides(p, slips) && All(s, p)
    ensures All(Serve(s, e.request, e.faults), p) <==> !Slips(s, e, slips)
  {
    var t := Serve(s, e.request, e.faults);
    ServeIsLocal(s, e.request, e.faults, e.request.id);
    assert p(At(s, e.request.id));
    if !Slips(s, e, slips) {
      forall id ensures p(At(t, id)) {
        ServeIsLocal(s, e.request, e.faults, id);
        assert p(At(s, id));
      }
    } else {
      assert !p(At(t, e.request.id));
    }
  }

  /** A prefix of a run, seen from its second state. */
  lemma RunPrefix(s: State, events: seq<Event>, k: nat)
    requires k < |events|
    ensures Run(s, events[..k + 1]) == Run(Serve(s, events[0].request, events[0].faults), events[1..][..k])
  {
    assert events[..k + 1][1..] == events[1..][..k];
  }

  lemma AlwaysStep(s: State, events: seq<Event>, p: Flow -> bool)
    requires events != []
    ensures Always(s, events, p)
       <==> All(s, p) && Always(Serve(s, events[0].request, events[0].faults), events[1..], p)
  {
    var t, rest := Serve(s, events[0].request, events[0].faults), events[1..];
    assert Run(s, events[..0]) == s;
    if Always(s, events, p) {
      forall k | 0 <= k <= |rest| ensures All(Run(t, rest[..k]), p) { RunPrefix(s, events, k); }
    } else {
      var k :| 0 <= k <= |events| && !All(Run(s, events[..k]), p);
      if k > 0 { RunPrefix(s, events, k - 1); }
    }
  }

  lemma NeverSlipsStep(s: State, events: seq<Event>, slips: (Flow, Request, Faults) -> bool)
    requires events != []
    ensures NeverSlips(s, events, slips)
       <==> !Slips(s, events[0], slips) && NeverSlips(Serve(s, events[0].request, events[0].faults), events[1..], slips)
  {
    var t, rest := Serve(s, events[0].request, events[0].faults), events[1..];
    assert Run(s, events[..0]) == s;
    if NeverSlips(s, events, slips) {
      forall k | 0 <= k < |rest| ensures !Slips(Run(t, rest[..k]), rest[k], slips) {
        RunPrefix(s, events, k);
        assert rest[k] == events[k + 1];
      }
    } else {
      var k :| 0 <= k < |events| && Slips(Run(s, events[..k]), events[k], slips);
      if k > 0 {
        RunPrefix(s, events, k - 1);
        assert rest[k - 1] == events[k];
      }
    }
  }

  lemma {:induction false} RunKeepsIff(s: State, events: seq<Event>, p: Flow -> bool,
                                       slips: (Flow, Request, Faults) -> bool)
    requires Decides(p, slips) && All(s, p)
    ensures Always(s, events, p) <==> NeverSlips(s, events, slips)
    decreases |events|
  {
    if events == [] {
      assert Run(s, events[..0]) == s;
    } else {
      var t := Serve(s, events[0].request, events[0].faults);
      AlwaysStep(s, events, p);
      NeverSlipsStep(s, events, slips);
      ServeKeepsAllIff(s, events[0], p, slips);
      if All(t, p) {
        RunKeepsIff(t, events[1..], p, slips);
      } else {
        assert Run(t, events[1..][..0]) == t;
      }
    }
  }

  /** Over any run, whatever its requests store and whichever calls fail: nothing is ever armed outside
    * an active workflow if and only if no request leaks in the state it meets. */
  lemma RunSafeIff(s: State, events: seq<Event>)
    requires Safe(s)
    ensures Always(s, events, Contained) <==> NeverSlips(s, events, Leaks)
  {
    forall w, r, f | Contained(w) ensures Contained(Step(w, r, f).0) <==> !Leaks(w, r, f) { StepContainedIff(w, r, f); }
    RunKeepsIff(s, events, Contained, Leaks);
  }

  predicate LeaksOrStrands(w: Flow, r: Request, f: Faults) {
    Leaks(w, r, f) || Strands(w, r, f)
  }

  /** And every workflow is at all times armed exactly as its graph says if and only if none leaks or
    * strands. */
  lemma RunExactIff(s: State, events: seq<Event>)
    requires All(s, Exact)
    ensures Always(s, events, Exact) <==> NeverSlips(s, events, LeaksOrStrands)
  {
    forall w, r, f | Exact(w) ensures Exact(Step(w, r, f).0) <==> !LeaksOrStrands(w, r, f) { StepExactIff(w, r, f); }
    RunKeepsIff(s, events, Exact, LeaksOrStrands);
  }

  /** Both, over every run of a service that starts empty. */
  lemma FromEmptyIff(events: seq<Event>)
    ensures Always(EMPTY, events, Contained) <==> NeverSlips(EMPTY, events, Leaks)
    ensures Always(EMPTY, events, Exact) <==> NeverSlips(EMPTY, events, LeaksOrStrands)
  {
    EmptyIsExact();
    RunSafeIff(EMPTY, events);
    RunExactIff(EMPTY, events);
  }

  // ---------------------------------------------------------------- atomicity, recovery, orphans

  /** An activation arms exactly the stored trigger, or changes nothing at all. */
  lemma ActivationIsAtomic(w: Flow, complete: bool, f: Faults)
    requires Contained(w) && f.undo == NO_UNDO_FAULTS
    ensures var (t, outcome) := Activated(w, complete, f);
            && (outcome == Done ==> Live(t) && t.arms == Wanted(t.row.value.nodes) && !Live(w))
            && (outcome != Done ==> t == w)
  {
    if ActivationStarts(w, complete, f) {
      OneTriggerIsFound(w.row.value.nodes);
      RegisterEffect(SetActive(w, true), w.row.value.nodes, f);
    }
  }

  /** A deactivation without faults brings every active workflow, however broken, to rest. */
  lemma DeactivateRecovers(w: Flow)
    requires Live(w)
    ensures var (t, outcome) := Deactivated(w, NO_FAULTS);
            outcome == Done && !Live(t) && t.arms == UNARMED && t.row.Some?
            && t.row.value.nodes == w.row.value.nodes && !t.row.value.jobRecorded
  {
  }

  /** A second rollback undoes what the first could not: only what fails twice stays. */
  lemma RollbacksCompose(w: Flow, first: Undo, second: Undo)
    requires w.row.Some?
    ensures RolledBack(RolledBack(w, first), second)
         == RolledBack(w, Undo(first.job && second.job, first.alert && second.alert,
                               first.watch && second.watch, first.flag && second.flag))
  {
  }

  /** Why the order of writes matters: whatever is armed on an inactive workflow outlives every
    * request except an activation of that workflow, whatever fails or succeeds. */
  lemma {:induction false} OrphanIsPermanent(s: State, events: seq<Event>, id: int)
    requires !Live(At(s, id))
    requires forall i :: 0 <= i < |events| ==> !(events[i].request.Activate? && events[i].request.id == id)
    ensures !Live(At(Run(s, events), id)) && At(Run(s, events), id).arms == At(s, id).arms
    decreases |events|
  {
    if events != [] {
      var e := events[0];
      ServeIsLocal(s, e.request, e.faults, id);
      assert !(events[0].request.Activate? && events[0].request.id == id);
      OrphanIsPermanent(Serve(s, e.request, e.faults), events[1..], id);
    }
  }

  // ---------------------------------------------------------------- what is armed, registry by registry

  /** Node `k` is the graph's first trigger node. */
  predicate FirstTrigger(nodes: Graph, k: nat) {
    && k < |nodes| && nodes[k].kind in {Start, WebhookTrigger, PriceAlert, OrderUpdateTrigger}
    && forall j :: 0 <= j < k ==> nodes[j].kind == Other
  }

  /** The entry holds the node's own values of exactly these fields. */
  ghost predicate Captures(entry: Fields, data: Fields, names: set<string>) {
    forall key :: (key in entry <==> key in data && key in names) && (key in entry ==> entry[key] == data[key])
  }

  /** Which registry holds workflow `id`, and what is registered, read off a trigger node: a schedule that is
    * not manual is a job, a price alert an alert, an order update a watch, and anything else none. */
  ghost predicate Registers(s: State, id: int, node: Node) {
    && (id in s.jobs <==> node.kind == Start && "scheduleType" in node.data
                          && node.data["scheduleType"] != "" && node.data["scheduleType"] != "manual")
    && (id in s.alerts <==> node.kind == PriceAlert)
    && (id in s.watches <==> node.kind == OrderUpdateTrigger)
    && (id in s.jobs ==>
          Captures(s.jobs[id], node.data, {"scheduleType", "time", "days", "executeAt", "intervalValue",
                                           "intervalUnit", "marketHoursOnly"}))
    && (id in s.alerts ==>
          Captures(s.alerts[id], node.data, {"symbol", "exchange", "condition", "price", "priceLower", "priceUpper",
                                             "percentage", "trigger", "expiration"}))
    && (id in s.watches ==>
          Captures(s.watches[id], node.data, {"orderId", "symbol", "exchange", "status", "trigger"}))
  }

  lemma {:induction false} TriggerNodeIsFirst(nodes: Graph, k: nat)
    requires FirstTrigger(nodes, k)
    ensures TriggerNode(nodes) == Some(nodes[k])
  {
    if k > 0 {
      assert forall j :: 0 <= j < k - 1 ==> nodes[1..][j] == nodes[j + 1];
      TriggerNodeIsFirst(nodes[1..], k - 1);
    }
  }

  lemma {:induction false} NoTriggerNode(nodes: Graph)
    requires forall j :: 0 <= j < |nodes| ==> nodes[j].kind == Other
    ensures TriggerNode(nodes) == None
  {
    if nodes != [] { NoTriggerNode(nodes[1..]); }
  }

  lemma ArmedAsRegistered(s: State, id: int, node: Node)
    requires At(s, id).arms == ArmsOf(node)
    ensures Registers(s, id, node)
  {
  }

  /** What being armed exactly means: a live workflow is in the registry of its first trigger node's kind,
    * with that node's fields, and in no other; without a trigger node, or not live, it is in none. */
  lemma ExactMeansRegistered(s: State, id: int, k: nat)
    requires Exact(At(s, id))
    ensures Live(At(s, id)) && FirstTrigger(s.rows[id].nodes, k) ==> Registers(s, id, s.rows[id].nodes[k])
    ensures !Live(At(s, id)) ==> id !in s.jobs && id !in s.alerts && id !in s.watches
    ensures Live(At(s, id)) && (forall j :: 0 <= j < |s.rows[id].nodes| ==> s.rows[id].nodes[j].kind == Other) ==>
              id !in s.jobs && id !in s.alerts && id !in s.watches
  {
    if Live(At(s, id)) {
      var nodes := s.rows[id].nodes;
      if FirstTrigger(nodes, k) {
        TriggerNodeIsFirst(nodes, k);
        ArmedAsRegistered(s, id, nodes[k]);
      }
      if forall j :: 0 <= j < |nodes| ==> nodes[j].kind == Other { NoTriggerNode(nodes); }
    }
  }

  /** After an activation that answers with success, whatever failed on the way. */
  lemma ActivationRegisters(s: State, id: int, complete: bool, f: Faults, k: nat)
    requires Contained(At(s, id)) && Step(At(s, id), Activate(id, complete), f).1 == Done
    requires FirstTrigger(s.rows[id].nodes, k)
    ensures var t := Serve(s, Activate(id, complete), f);
            && id in t.rows && t.rows[id].active && t.rows[id].nodes == s.rows[id].nodes
            && Registers(t, id, s.rows[id].nodes[k])
  {
    var r, w := Activate(id, complete), At(s, id);
    ServeIsLocal(s, r, f, id);
    OneTriggerIsFound(w.row.value.nodes);
    RegisterEffect(SetActive(w, true), w.row.value.nodes, f);
    TriggerNodeIsFirst(w.row.value.nodes, k);
    ArmedAsRegistered(Serve(s, r, f), id, w.row.value.nodes[k]);
  }

  /** After a PUT of a graph with one trigger node at most, its comparison read working, into an active
    * workflow that was armed as it should be. */
  lemma SaveRegisters(s: State, id: int, graph: Graph, f: Faults, k: nat)
    requires Exact(At(s, id)) && Live(At(s, id)) && Triggers(s.rows[id].nodes) <= 1 && Triggers(graph) <= 1
    requires !f.snapshot && Step(At(s, id), Save(id, Some(graph), true), f).1 == Done
    requires FirstTrigger(graph, k)
    ensures var t := Serve(s, Save(id, Some(graph), true), f);
            && id in t.rows && t.rows[id].active && t.rows[id].nodes == graph && Registers(t, id, graph[k])
  {
    var r, w := Save(id, Some(graph), true), At(s, id);
    ServeIsLocal(s, r, f, id);
    if TriggerConfig(graph) == TriggerConfig(w.row.value.nodes) { SameConfigSameArms(w.row.value.nodes, graph); }
    else { RearmEffect(SetNodes(w, graph), f); }
    TriggerNodeIsFirst(graph, k);
    ArmedAsRegistered(Serve(s, r, f), id, graph[k]);
  }

  /** And after a replacement. */
  lemma ReplaceRegisters(s: State, id: int, graph: Graph, complete: bool, f: Faults, k: nat)
    requires Exact(At(s, id)) && Live(At(s, id)) && Triggers(s.rows[id].nodes) <= 1
    requires Step(At(s, id), Replace(id, graph, complete), f).1 == Done && FirstTrigger(graph, k)
    ensures var t := Serve(s, Replace(id, graph, complete), f);
            && id in t.rows && t.rows[id].active && t.rows[id].nodes == graph && Registers(t, id, graph[k])
  {
    var r, w := Replace(id, graph, complete), At(s, id);
    ServeIsLocal(s, r, f, id);
    if TriggerConfig(w.row.value.nodes) == TriggerConfig(graph) { SameConfigSameArms(w.row.value.nodes, graph); }
    else { RearmEffect(SetNodes(w, graph), f); }
    TriggerNodeIsFirst(graph, k);
    ArmedAsRegistered(Serve(s, r, f), id, graph[k]);
  }

  // ---- what each request does to the row, and when it answers with success

  lemma CreateStores(w: Flow, nodes: Graph, wellFormed: bool, f: Faults)
    ensures var (t, outcome) := Step(w, Create(0, nodes, wellFormed), f);
            && (outcome == Done <==> wellFormed && !f.persist && w.row.None?)
            && t == (if outcome == Done then Flow(Some(Row(nodes, false, false)), w.arms) else w)
  {
  }

  lemma ActivateDoneIff(w: Flow, complete: bool, f: Faults)
    requires Contained(w)
    ensures var outcome := Step(w, Activate(0, complete), f).1;
            && (outcome == NotFound <==> f.read || w.row.None?)
            && (outcome == AlreadyActive <==> !f.read && w.row.Some? && w.row.value.active)
            && (outcome == Done <==>
                  && !f.read && w.row.Some? && !w.row.value.active && !f.apiKey && complete
                  && Triggers(w.row.value.nodes) == 1 && !f.persist && !RegisterRaises(w.row.value.nodes, f))
  {
    if ActivationStarts(w, complete, f) {
      OneTriggerIsFound(w.row.value.nodes);
      RegisterEffect(SetActive(w, true), w.row.value.nodes, f);
    }
  }

  /** A deactivation answers with success exactly when all its calls work, and then nothing is left but the
    * inactive row. */
  lemma DeactivateDoneIff(w: Flow, f: Faults)
    ensures var (t, outcome) := Step(w, Deactivate(0), f);
            && (outcome == Done <==>
                  && !f.read && w.row.Some? && w.row.value.active
                  && !f.removeJob && !f.removeAlert && !f.removeWatch && !f.release && !f.persist)
            && (outcome == Done ==> t.row.Some? && !t.row.value.active && t.row.value.nodes == w.row.value.nodes
                                    && t.arms == UNARMED)
            && (outcome == AlreadyInactive || outcome == NotFound ==> t == w)
  {
  }

  /** A PUT stores exactly the graph it gives, active workflow or not; it touches nothing else of an inactive
    * one, and nothing at all when it is refused, finds no row, or gives no graph. */
  lemma SaveStores(w: Flow, graph: Option<Graph>, wellFormed: bool, f: Faults)
    ensures var (t, outcome) := Step(w, Save(0, graph, wellFormed), f);
            && (outcome == Refused <==> graph.Some? && !wellFormed)
            && (outcome == NotFound <==> (graph.None? || wellFormed) && (f.persist || w.row.None?))
            && (outcome == Refused || outcome == NotFound || graph.None? ==> t == w)
            && (outcome != Refused && outcome != NotFound && graph.Some? ==>
                  && t.row.Some? && t.row.value.nodes == graph.value
                  && (!w.row.value.active ==>
                        && outcome == Done && t.arms == w.arms && !t.row.value.active
                        && t.row.value.jobRecorded == w.row.value.jobRecorded))
  {
    if RearmedGraph(w, Save(0, graph, wellFormed), f).Some? { RearmEffect(SetNodes(w, graph.value), f); }
  }

  /** A replacement is taken exactly when its graph is complete with one trigger node, and stores it. */
  lemma ReplaceStores(w: Flow, nodes: Graph, complete: bool, f: Faults)
    ensures var (t, outcome) := Step(w, Replace(0, nodes, complete), f);
            && (outcome == Done || outcome == NeedsReactivate <==>
                  !f.read && w.row.Some? && complete && Triggers(nodes) == 1 && !f.persist)
            && (outcome == Done || outcome == NeedsReactivate ==> t.row.Some? && t.row.value.nodes == nodes)
            && (outcome != Done && outcome != NeedsReactivate ==> t == w)
            && (outcome == Done && !w.row.value.active ==>
                  t.arms == w.arms && !t.row.value.active && t.row.value.jobRecorded == w.row.value.jobRecorded)
  {
    if RearmedGraph(w, Replace(0, nodes, complete), f).Some? { RearmEffect(SetNodes(w, nodes), f); }
  }

  /** A delete answers with success exactly when the row goes; of an inactive workflow it takes nothing else. */
  lemma DeleteRemoves(w: Flow, f: Faults)
    ensures var (t, outcome) := Step(w, Delete(0), f);
            && (outcome == Done <==> && !f.read && w.row.Some? && !f.release && !f.persist
                                     && (w.row.value.active ==> !f.removeAlert && !f.removeWatch))
            && (outcome == Done <==> w.row.Some? && t.row.None?)
            && (outcome != Done ==> t.row == w.row)
            && (w.row.Some? && !w.row.value.active ==> t.arms == w.arms)
            && (outcome == Done && w.row.value.active ==>
                  t.arms == Arms(if f.removeJob then w.arms.job else None, None, None))
  {
  }

  // ---- what a save compares

  /** With one trigger node, the compared configuration is that node's kind and its own values of exactly
    * these fields: a change of anything else re-arms nothing. */
  lemma ComparedConfig(nodes: Graph, k: nat)
    requires Triggers(nodes) == 1 && FirstTrigger(nodes, k)
    ensures var config := TriggerConfig(nodes);
            && config.Keys == {nodes[k].kind}
            && Captures(config[nodes[k].kind], nodes[k].data,
                        {"scheduleType", "time", "days", "executeAt", "intervalMinutes", "intervalValue",
                         "intervalUnit", "marketHoursOnly", "symbol", "exchange", "condition", "price", "priceLower",
                         "priceUpper", "percentage", "expiration", "orderId", "status", "trigger"})
  {
    TriggerNodeIsFirst(nodes, k);
    ConfigOfSingleTrigger(nodes);
  }

  // ---------------------------------------------------------------- runs that go wrong

  function Schedule(time: string): Node {
    Node(Start, map["scheduleType" := "daily", "time" := time])
  }

  const DAILY := [Schedule("09:15")]
  const IDLE := Flow(Some(Row(DAILY, false, false)), UNARMED)
  const LIVE := Flow(Some(Row(DAILY, true, true)), Wanted(DAILY))

  function Quiet(r: Request): Event {
    Event(r, NO_FAULTS)
  }

  const CREATING := [Quiet(Create(1, DAILY, true))]
  const ARMING := CREATING + [Quiet(Activate(1, true))]

  lemma {:induction false} RunAppend(s: State, events: seq<Event>, e: Event)
    ensures Run(s, events + [e]) == Serve(Run(s, events), e.request, e.faults)
    decreases |events|
  {
    if events == [] {
      assert [] + [e] == [e] && [e][1..] == [];
    } else {
      assert (events + [e])[1..] == events[1..] + [e];
      RunAppend(Serve(s, events[0].request, events[0].faults), events[1..], e);
    }
  }

  /** One more request of workflow 1. */
  lemma NextAt(events: seq<Event>, e: Event)
    requires e.request.id == 1
    ensures At(Run(EMPTY, events + [e]), 1) == Step(At(Run(EMPTY, events), 1), e.request, e.faults).0
  {
    RunAppend(EMPTY, events, e);
    ServeIsLocal(Run(EMPTY, events), e.request, e.faults, 1);
  }

  /** From the empty service, one request leads to an idle workflow and two to an armed one. */
  lemma IdleAndLiveAreReached()
    ensures At(Run(EMPTY, CREATING), 1) == IDLE && Exact(IDLE)
    ensures At(Run(EMPTY, ARMING), 1) == LIVE && Exact(LIVE)
  {
    assert [] + [Quiet(Create(1, DAILY, true))] == CREATING;
    NextAt([], Quiet(Create(1, DAILY, true)));
    NextAt(CREATING, Quiet(Activate(1, true)));
    assert DAILY[1..] == [];
  }

  /** The comparison keeps the last schedule of a graph, registration takes the first. */
  lemma SameConfigInFront(first: string, last: string)
    requires first != last
    ensures TriggerConfig([Schedule(first), Schedule(last)]) == TriggerConfig([Schedule(last)])
    ensures Wanted([Schedule(first), Schedule(last)]) != Wanted([Schedule(last)])
  {
    var before, after := [Schedule(last)], [Schedule(first), Schedule(last)];
    assert after[..1] == [Schedule(first)] && before[..0] == [] && after[..1][..0] == [];
    assert TriggerConfig(before) == map[Start := Restrict(Schedule(last).data, CONFIG_FIELDS)];
    assert TriggerConfig(after) == TriggerConfig(before);
    assert Wanted(after).job.value["time"] == first && Wanted(before).job.value["time"] == last;
  }

  /** After a PUT that puts a second schedule node in front of the live one, all calls succeeding: the
    * comparison sees the unchanged last node, the graph now describes the first. */
  lemma SecondTriggerGoesUnnoticed()
    ensures var put := Save(1, Some([Schedule("15:00"), Schedule("09:15")]), true);
            var before, after := At(Run(EMPTY, ARMING), 1), At(Run(EMPTY, ARMING + [Quiet(put)]), 1);
            && Exact(before) && Step(before, put, NO_FAULTS).1 == Done
            && Live(after) && !Exact(after) && after.arms == before.arms == Wanted(DAILY)
  {
    var after := [Schedule("15:00"), Schedule("09:15")];
    IdleAndLiveAreReached();
    NextAt(ARMING, Quiet(Save(1, Some(after), true)));
    SameConfigInFront("15:00", "09:15");
  }

  /** A failing flag write in the rollback of an activation leaves an active workflow that nothing
    * will ever trigger and that cannot be activated again. */
  lemma LostFlagWriteLeavesItUnarmed()
    ensures var e := Event(Activate(1, true), NO_FAULTS.(register := true, undo := NO_UNDO_FAULTS.(flag := true)));
            var w := At(Run(EMPTY, CREATING + [e]), 1);
            && Exact(At(Run(EMPTY, CREATING), 1)) && Live(w) && w.arms == UNARMED && !Exact(w)
            && Activated(w, true, NO_FAULTS) == (w, AlreadyActive)
  {
    IdleAndLiveAreReached();
    NextAt(CREATING, Event(Activate(1, true), NO_FAULTS.(register := true, undo := NO_UNDO_FAULTS.(flag := true))));
    assert DAILY[1..] == [];
  }

  /** A job removal that fails silently during a delete leaves a job without a workflow. */
  lemma SilentDeleteLeavesAnOrphan()
    ensures var e := Event(Delete(1), NO_FAULTS.(removeJob := true));
            var w := At(Run(EMPTY, ARMING + [e]), 1);
            Exact(At(Run(EMPTY, ARMING), 1)) && w.row.None? && w.arms.job.Some?
  {
    IdleAndLiveAreReached();
    NextAt(ARMING, Event(Delete(1), NO_FAULTS.(removeJob := true)));
  }
}
