/** Requests from the energy-saving controller: `power_on`, `power_off` and
    `recover`. They only queue tasks; the task processor acts on them later. */
module Requests {
  import opened Wrappers
  import opened Tasks
  import opened Tracking
  import opened Reconciler

  /** The `(success, nname)` pair the requests return. */
  datatype Reply = Reply(success: bool, nname: string)

  /** What `recover` returns: `Node.OFF` or `False`. */
  datatype RecoverReply = NodeOff | NotRecovered

  /** `power_on`: refuse at the instance ceiling (checked first), accept an
      already tracked node without queuing anything, otherwise queue a
      power-on task for it. */
  function PowerOn(st: State, maxInstances: int, nname: string): (r: (State, Reply))
    ensures r.1.nname == nname
    ensures r.1.success <==> |st.tracked| < maxInstances
    ensures !r.1.success ==> r.0 == st
    ensures r.0.tracked == st.tracked && r.0.masters == st.masters
    ensures r.0.pending == st.pending || r.0.pending == st.pending + [Task(POWER_ON, nname)]
    ensures r.0 != st <==> |st.tracked| < maxInstances && nname !in st.tracked && Task(POWER_ON, nname) !in st.pending
    ensures r.1.success && nname !in st.tracked ==> Task(POWER_ON, nname) in r.0.pending
    ensures Invariant(st) ==> Invariant(r.0)
  {
    if |st.tracked| >= maxInstances then (st, Reply(false, nname))
    else if nname in st.tracked then (st, Reply(true, nname))
    else (st.(pending := AddTask(st.pending, Task(POWER_ON, nname))), Reply(true, nname))
  }

  /** `power_off`: a node that is not tracked, or whose VM id is empty (falsy),
      is refused; otherwise a power-off task naming its VM id is queued. */
  function PowerOff(st: State, nname: string): (r: (State, Reply))
    ensures r.1.nname == nname
    ensures r.1.success <==> nname in st.tracked && st.tracked[nname].vmId != ""
    ensures !r.1.success ==> r.0 == st
    ensures r.0.tracked == st.tracked && r.0.masters == st.masters
    ensures r.1.success ==> Task(POWER_OFF, st.tracked[nname].vmId) in r.0.pending
    ensures r.1.success ==> r.0.pending == st.pending || r.0.pending == st.pending + [Task(POWER_OFF, st.tracked[nname].vmId)]
    ensures Invariant(st) ==> Invariant(r.0)
  {
    var vmid := UuidOf(st.tracked, nname);
    if vmid.None? || vmid.value == "" then (st, Reply(false, nname))
    else (st.(pending := AddTask(st.pending, Task(POWER_OFF, vmid.value))), Reply(true, nname))
  }

  /** `recover`: power the node off; answer `Node.OFF` exactly when that request
      succeeded. */
  function Recover(st: State, nname: string): (r: (State, RecoverReply))
    ensures r.0 == PowerOff(st, nname).0
    ensures r.1 == NodeOff <==> nname in st.tracked && st.tracked[nname].vmId != ""
  {
    var (st', reply) := PowerOff(st, nname);
    (st', if reply.success then NodeOff else NotRecovered)
  }

  /** The power-off task queued for a node names a VM that the reverse lookup
      attributes back to that node, as long as VM ids are distinct. */
  lemma PowerOffTargetsOwnVm(st: State, nname: string)
    requires Invariant(st)
    requires PowerOff(st, nname).1.success
    ensures exists t | t in PowerOff(st, nname).0.pending ::
      t.operation == POWER_OFF && NodeNameOf(st.tracked, t.nname) == Some(nname)
  {
    var uuid := st.tracked[nname].vmId;
    LookupRoundTrip(st.tracked, nname, uuid);
    assert Task(POWER_OFF, uuid) in PowerOff(st, nname).0.pending;
  }

  /** The unit cases of `power_on`: three nodes tracked; a new node is accepted
      under a ceiling of 5, refused under a ceiling of 1, and a tracked node is
      accepted without queuing anything. */
  lemma PowerOnCases()
    ensures var st := State(map["test1" := NewRecord("u1", 0), "test2" := NewRecord("u2", 0), "test3" := NewRecord("u3", 0)], [], []);
      && PowerOn(st, 5, "test5") == (st.(pending := [Task(POWER_ON, "test5")]), Reply(true, "test5"))
      && PowerOn(st, 1, "test2") == (st, Reply(false, "test2"))
      && PowerOn(st, 5, "test2") == (st, Reply(true, "test2"))
  {
    var st := State(map["test1" := NewRecord("u1", 0), "test2" := NewRecord("u2", 0), "test3" := NewRecord("u3", 0)], [], []);
    assert st.tracked.Keys == {"test1", "test2", "test3"};
    assert |st.tracked| == 3;
    assert "test5" !in st.tracked;
  }

  /** Under the default ceiling of `INDIGO_ORCHESTRATOR_MAX_INSTANCES` (0) every
      power-on request is refused and nothing changes. */
  lemma DefaultCeilingRefusesAll(st: State, nname: string)
    ensures PowerOn(st, DEFAULT_CONFIG.maxInstances, nname) == (st, Reply(false, nname))
  {
  }
}
