/** From executed tool calls to the audit log's file: the dispatcher's audit step is an attempt to append a
 * line, and the log keeps what its writes let it keep.
 */
module McpAuditTrail {
  import D = McpDispatch
  import L = McpAuditLog
  import opened McpQuota

  /** How many audit steps these traces hold. */
  function Audits(log: seq<D.Trace>): nat {
    if log == [] then 0 else Audits(log[..|log| - 1]) + if log[|log| - 1].Audit? then 1 else 0
  }

  /** The writes the audit steps attempt, in order: what each entry prints as, and how its write goes. */
  function Attempts(log: seq<D.Trace>, shown: D.Trace -> string, faults: nat -> L.Fault): seq<L.Write> {
    if log == [] then []
    else
      var n := |log| - 1;
      Attempts(log[..n], shown, faults)
      + if log[n].Audit? then [L.Write(shown(log[n]), faults(Audits(log[..n])))] else []
  }

  /** An audit step's write stands among the attempts where it stands among the audit steps. */
  lemma {:induction false} AttemptAt(log: seq<D.Trace>, shown: D.Trace -> string, faults: nat -> L.Fault, m: nat)
    requires m < |log| && log[m].Audit?
    ensures |Attempts(log, shown, faults)| == Audits(log)
    ensures Audits(log[..m]) < |Attempts(log, shown, faults)|
    ensures Attempts(log, shown, faults)[Audits(log[..m])] == L.Write(shown(log[m]), faults(Audits(log[..m])))
  {
    var n := |log| - 1;
    AttemptsCount(log[..n], shown, faults);
    AttemptsCount(log, shown, faults);
    if m < n {
      assert log[..n][..m] == log[..m];
      AttemptAt(log[..n], shown, faults, m);
    }
  }

  lemma {:induction false} AttemptsCount(log: seq<D.Trace>, shown: D.Trace -> string, faults: nat -> L.Fault)
    ensures |Attempts(log, shown, faults)| == Audits(log)
  {
    if log != [] { AttemptsCount(log[..|log| - 1], shown, faults); }
  }

  /** A write that goes through adds its entry to the history where it stands. */
  lemma {:induction false} HistoryAt(writes: seq<L.Write>, j: nat)
    requires j < |writes| && !writes[j].fault.AppendFails?
    ensures |L.History(writes[..j])| < |L.History(writes)|
    ensures L.History(writes)[|L.History(writes[..j])|] == writes[j].entry
  {
    var n := |writes| - 1;
    if j < n {
      assert writes[..n][..j] == writes[..j];
      HistoryAt(writes[..n], j);
    }
  }

  /** An entry whose write went through is in the file as long as at most 5000 entries have reached it since,
    * itself included. */
  lemma WrittenIsKept(writes: seq<L.Write>, j: nat)
    requires j < |writes| && !writes[j].fault.AppendFails?
    requires |L.History(writes)| - |L.History(writes[..j])| <= L.MAX_LINES
    ensures writes[j].entry in L.Run(writes)
  {
    HistoryAt(writes, j);
    L.LogIsRecentHistory(writes);
    var all, kept, p := L.History(writes), L.Run(writes), |L.History(writes[..j])|;
    var cut := |all| - |kept|;
    assert cut <= p;
    assert kept[p - cut] == all[cut..][p - cut] == all[p];
  }

  /** However requests overlap and writes fail: an executed tool call whose request is answered has an audit
    * step of its own after it, with its outcome, and the line of that step is in the file if its own write
    * went through and at most 5000 entries have reached the file since. */
  lemma AuditedExecutionIsInFile(now: real, tools: D.Registry, limits: Limits, actions: seq<D.Action>,
                                 k: nat, shown: D.Trace -> string, faults: nat -> L.Fault) returns (m: nat)
    requires var s := D.Run(D.Init(now), tools, limits, actions);
             && k < |s.log| && s.log[k].Execution?
             && s.log[k].thread < |s.threads| && s.threads[s.log[k].thread].stage.Answered?
    ensures k < m < |D.Run(D.Init(now), tools, limits, actions).log|
    ensures var s := D.Run(D.Init(now), tools, limits, actions);
            var writes, j := Attempts(s.log, shown, faults), Audits(s.log[..m]);
            && s.log[m] == D.Audit(s.log[k].thread, s.threads[s.log[k].thread].stage.outcome)
            && j < |writes| && writes[j] == L.Write(shown(s.log[m]), faults(j))
            && (!faults(j).AppendFails? && |L.History(writes)| - |L.History(writes[..j])| <= L.MAX_LINES ==>
                  shown(s.log[m]) in L.Run(writes))
  {
    var s := D.Run(D.Init(now), tools, limits, actions);
    var i := s.log[k].thread;
    var x := D.Audit(i, s.threads[i].stage.outcome);
    assert D.Own(s.log[k + 1..], i) == [x] by { D.EveryExecutionIsFramed(now, tools, limits, actions, k); }
    var p := D.OwnIsThere(s.log[k + 1..], i, x);
    m := k + 1 + p;
    assert s.log[m] == s.log[k + 1..][p] == x;
    AttemptAt(s.log, shown, faults, m);
    KeptIfWritten(Attempts(s.log, shown, faults), Audits(s.log[..m]));
  }

  lemma KeptIfWritten(writes: seq<L.Write>, j: nat)
    requires j < |writes|
    ensures !writes[j].fault.AppendFails? && |L.History(writes)| - |L.History(writes[..j])| <= L.MAX_LINES ==>
              writes[j].entry in L.Run(writes)
  {
    if !writes[j].fault.AppendFails? && |L.History(writes)| - |L.History(writes[..j])| <= L.MAX_LINES {
      WrittenIsKept(writes, j);
    }
  }
}
