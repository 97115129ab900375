/** The lifecycle routes of blueprints/flow.py as they run: methods that update the row table and the
 * three registries in place, one call after the other. Each is proved against the function of
 * FlowLifecycle that says what the request does to its workflow, and to change no other workflow.
 */
module FlowService {
  import opened Wrappers
  import opened FlowLifecycle

  datatype UndoAction = UndoJob | UndoAlert | UndoWatch | UndoFlag

  /** The undo actions of a rollback, in order. */
  const UNDO_ACTIONS := [UndoJob, UndoAlert, UndoWatch, UndoFlag]

  /** `t` differs from `s` in workflow `id` only, which is now `w`. */
  ghost predicate Becomes(s: State, t: State, id: int, w: Flow) {
    At(t, id) == w && forall other :: other != id ==> At(t, other) == At(s, other)
  }

  /** `t` and `outcome` are what request `r` makes of `s`. */
  ghost predicate Serves(s: State, r: Request, f: Faults, t: State, outcome: Outcome) {
    Becomes(s, t, r.id, Step(At(s, r.id), r, f).0) && outcome == Step(At(s, r.id), r, f).1
  }

  /** So a route of the service and the run function of FlowLifecycle reach the same state. */
  lemma ServesIsServe(s: State, r: Request, f: Faults, t: State, outcome: Outcome)
    requires Serves(s, r, f, t, outcome)
    ensures t == Serve(s, r, f)
  {
    var u := Serve(s, r, f);
    forall id ensures At(t, id) == At(u, id) {
      ServeIsLocal(s, r, f, id);
    }
    SameWorkflowsSameState(t, u);
  }

  lemma SameWorkflowsSameState(s: State, t: State)
    requires forall id :: At(s, id) == At(t, id)
    ensures s == t
  {
    forall id ensures Lookup(s.rows, id) == Lookup(t.rows, id) && Lookup(s.jobs, id) == Lookup(t.jobs, id)
                   && Lookup(s.alerts, id) == Lookup(t.alerts, id) && Lookup(s.watches, id) == Lookup(t.watches, id) {
      assert At(s, id) == At(t, id);
    }
    SameLookupsSameMap(s.rows, t.rows);
    SameLookupsSameMap(s.jobs, t.jobs);
    SameLookupsSameMap(s.alerts, t.alerts);
    SameLookupsSameMap(s.watches, t.watches);
  }

  lemma SameLookupsSameMap<V>(a: map<int, V>, b: map<int, V>)
    requires forall id :: Lookup(a, id) == Lookup(b, id)
    ensures a == b
  {
    forall id ensures id in a <==> id in b {
      assert Lookup(a, id) == Lookup(b, id);
    }
    forall id | id in a ensures a[id] == b[id] {
      assert Lookup(a, id) == Lookup(b, id);
    }
    assert a.Keys == b.Keys;
  }

  class Service {
    var rows: map<int, Row>
    var jobs: map<int, Fields>
    var alerts: map<int, Fields>
    var watches: map<int, Fields>

    function Snapshot(): State
      reads this
    {
      State(rows, jobs, alerts, watches)
    }

    function Workflow(id: int): Flow
      reads this
    {
      At(Snapshot(), id)
    }

    constructor ()
      ensures Snapshot() == EMPTY
    {
      rows, jobs, alerts, watches := map[], map[], map[], map[];
    }

    method UnregisterTrigger(id: int, f: Faults) returns (raised: bool)
      modifies `jobs, `alerts, `watches
      ensures Becomes(old(Snapshot()), Snapshot(), id, Unregistered(old(Workflow(id)), f).0)
      ensures raised == Unregistered(old(Workflow(id)), f).1
    {
      if f.removeJob { return true; }
      jobs := jobs - {id};
      if f.removeAlert { return true; }
      alerts := alerts - {id};
      if f.removeWatch { return true; }
      watches := watches - {id};
      return false;
    }

    method RegisterTrigger(id: int, node: Node, f: Faults) returns (raised: bool)
      requires id in rows
      modifies this
      ensures Becomes(old(Snapshot()), Snapshot(), id, Registered(old(Workflow(id)), node, f).0)
      ensures raised == Registered(old(Workflow(id)), node, f).1
    {
      if node.kind == Start {
        if Scheduled(node.data) {
          if f.register { return true; }
          jobs := jobs[id := Restrict(node.data, JOB_FIELDS)];
          if f.recordId {
            if !f.undoJob { jobs := jobs - {id}; }
            return true;
          }
          rows := rows[id := rows[id].(jobRecorded := true)];
        }
      } else if node.kind == PriceAlert {
        if f.register { return true; }
        alerts := alerts[id := Restrict(node.data, ALERT_FIELDS)];
      } else if node.kind == OrderUpdateTrigger {
        if f.register { return true; }
        watches := watches[id := Restrict(node.data, WATCH_FIELDS)];
      }
      return false;
    }

    method ReregisterTrigger(id: int, f: Faults) returns (raised: bool)
      requires id in rows
      modifies this
      ensures Becomes(old(Snapshot()), Snapshot(), id, Reregistered(old(Workflow(id)), f).0)
      ensures raised == Reregistered(old(Workflow(id)), f).1
    {
      var node := TriggerNode(rows[id].nodes);
      if node == None || f.apiKey { return true; }
      raised := UnregisterTrigger(id, f);
      if !raised {
        raised := RegisterTrigger(id, node.value, f);
      }
    }

    /** Each undo runs in its own try, so a failure never skips the ones after it. */
    method RollbackActivation(id: int, u: Undo)
      requires id in rows
      modifies this
      ensures Becomes(old(Snapshot()), Snapshot(), id, RolledBack(old(Workflow(id)), u))
    {
      for i := 0 to |UNDO_ACTIONS|
        invariant jobs == if i > 0 && !u.job then old(jobs) - {id} else old(jobs)
        invariant alerts == if i > 1 && !u.alert then old(alerts) - {id} else old(alerts)
        invariant watches == if i > 2 && !u.watch then old(watches) - {id} else old(watches)
        invariant rows == if i > 3 && !u.flag then old(rows)[id := old(rows)[id].(active := false)] else old(rows)
      {
        match UNDO_ACTIONS[i]
        case UndoJob => if !u.job { jobs := jobs - {id}; }
        case UndoAlert => if !u.alert { alerts := alerts - {id}; }
        case UndoWatch => if !u.watch { watches := watches - {id}; }
        case UndoFlag => if !u.flag { rows := rows[id := rows[id].(active := false)]; }
      }
    }

    method CreateWorkflow(id: int, nodes: Graph, wellFormed: bool, f: Faults) returns (outcome: Outcome)
      modifies `rows
      ensures Serves(old(Snapshot()), Create(id, nodes, wellFormed), f, Snapshot(), outcome)
    {
      if !wellFormed { return Refused; }
      if f.persist || id in rows { return Failed; }
      rows := rows[id := Row(nodes, false, false)];
      return Done;
    }

    method ActivateWorkflow(id: int, complete: bool, f: Faults) returns (outcome: Outcome)
      modifies this
      ensures Serves(old(Snapshot()), Activate(id, complete), f, Snapshot(), outcome)
    {
      if f.read || id !in rows { return NotFound; }
      if rows[id].active { return AlreadyActive; }
      if f.apiKey { return Refused; }
      if !complete || Triggers(rows[id].nodes) != 1 { return Refused; }
      var node := TriggerNode(rows[id].nodes);
      if node == None { return Refused; }
      // The flag is persisted before anything is armed.
      if f.persist { return Failed; }
      rows := rows[id := rows[id].(active := true)];
      var raised := RegisterTrigger(id, node.value, f);
      if raised {
        RollbackActivation(id, f.undo);
        return Failed;
      }
      return Done;
    }

    method DeactivateWorkflow(id: int, f: Faults) returns (outcome: Outcome)
      modifies this
      ensures Serves(old(Snapshot()), Deactivate(id), f, Snapshot(), outcome)
    {
      if f.read || id !in rows { return NotFound; }
      if !rows[id].active { return AlreadyInactive; }
      // A strict removal: the row is never marked inactive over a job that is still there.
      if f.removeJob { return Failed; }
      jobs := jobs - {id};
      if rows[id].jobRecorded && !f.clearId {
        rows := rows[id := rows[id].(jobRecorded := false)];
      }
      if f.removeAlert { return Failed; }
      alerts := alerts - {id};
      if f.removeWatch { return Failed; }
      watches := watches - {id};
      if f.release { return Failed; }
      if f.persist { return Failed; }
      rows := rows[id := rows[id].(active := false)];
      return Done;
    }

    method UpdateWorkflow(id: int, graph: Option<Graph>, wellFormed: bool, f: Faults) returns (outcome: Outcome)
      modifies this
      ensures Serves(old(Snapshot()), Save(id, graph, wellFormed), f, Snapshot(), outcome)
    {
      if graph.Some? && !wellFormed { return Refused; }
      var before, wasActive := map[], false;
      if !f.snapshot && id in rows {
        before, wasActive := TriggerConfig(rows[id].nodes), rows[id].active;
      }
      if f.persist || id !in rows { return NotFound; }
      if graph.Some? {
        rows := rows[id := rows[id].(nodes := graph.value)];
      }
      if wasActive && TriggerConfig(rows[id].nodes) != before {
        var raised := ReregisterTrigger(id, f);
        if raised {
          RollbackActivation(id, f.undo);
          return NeedsReactivate;
        }
      }
      return Done;
    }

    method ReplaceWorkflow(id: int, nodes: Graph, complete: bool, f: Faults) returns (outcome: Outcome)
      modifies this
      ensures Serves(old(Snapshot()), Replace(id, nodes, complete), f, Snapshot(), outcome)
    {
      if f.read || id !in rows { return NotFound; }
      if !complete || Triggers(nodes) != 1 { return Refused; }
      // Compared before the write, which would otherwise compare the new graph with itself.
      var changed := TriggerConfig(rows[id].nodes) != TriggerConfig(nodes);
      var wasActive := rows[id].active;
      if f.persist { return Failed; }
      rows := rows[id := rows[id].(nodes := nodes)];
      if wasActive && changed {
        var raised := ReregisterTrigger(id, f);
        if raised {
          RollbackActivation(id, f.undo);
          return NeedsReactivate;
        }
      }
      return Done;
    }

    method DeleteWorkflow(id: int, f: Faults) returns (outcome: Outcome)
      modifies this
      ensures Serves(old(Snapshot()), Delete(id), f, Snapshot(), outcome)
    {
      if f.read || id !in rows { return NotFound; }
      if rows[id].active {
        if !f.removeJob { jobs := jobs - {id}; }
        if f.removeAlert { return Failed; }
        alerts := alerts - {id};
        if f.removeWatch { return Failed; }
        watches := watches - {id};
      }
      if f.release { return Failed; }
      if f.persist { return Failed; }
      rows := rows - {id};
      return Done;
    }
  }
}
