/** The task processor (`_process_pending_tasks`) and the power-on step it
    starts (`_power_on`). */
module Processor {
  import opened Wrappers
  import opened Tasks
  import opened Tracking
  import opened Masters
  import opened Monitoring
  import opened Reconciler

  /** Deployment states in which the orchestrator refuses a structural change. */
  const BUSY_STATUSES: set<string> := {"CREATE_IN_PROGRESS", "UPDATE_IN_PROGRESS", "DELETE_IN_PROGRESS"}

  /** HTTP codes `_power_on` and `_power_off` accept as success. */
  const ACCEPTED_CODES: set<int> := {200, 201, 202, 204}

  /** `status` is the answer of `_get_deployment_status`; `None` is what a
      non-200 reply yields, and it does not defer processing. */
  predicate Busy(status: Option<string>)
  {
    status.Some? && status.value in BUSY_STATUSES
  }

  /** What one processing pass hands to the orchestrator. */
  datatype Outcome =
    | NothingPending                      // empty queue
    | Deferred                            // deployment busy
    | PowerOnStarted(nname: string)       // `_power_on(nname)` is called
    | PowerOffIssued(batch: seq<string>)  // `_power_off(batch)` is called
    | BatchLost(batch: seq<string>)       // the drain raised before `_power_off`
    | UnknownOperation(operation: int)    // front task has another code

  /** A drained power-off task enters the batch: monitoring lists its name and
      the node is not in use. */
  predicate Admitted(mon: seq<MonNode>, t: Task)
  {
    NodeInfo(mon, t.nname).Some? && NodeInfo(mon, t.nname).value.state != Used
  }

  /** Reference definition of the batch: the names of the admitted tasks of a
      run, in queue order. */
  function AdmittedNames(run: seq<Task>, mon: seq<MonNode>): (r: seq<string>)
    ensures |r| <= |run|
    ensures forall n :: n in r <==> exists t | t in run :: Admitted(mon, t) && t.nname == n
    decreases |run|
  {
    if run == [] then []
    else
      var rest := AdmittedNames(run[1..], mon);
      assert forall t | t in run :: t == run[0] || t in run[1..];
      (if Admitted(mon, run[0]) then [run[0].nname] else []) + rest
  }

  /** The drain loop of the power-off branch: pop tasks while the front is a
      power-off, collecting the admitted names. It stops at the first task of
      another kind and leaves it and everything behind it queued. */
  function Drain(q: seq<Task>, mon: seq<MonNode>): (r: (seq<Task>, seq<string>))
    ensures |r.0| <= |q| && r.0 == q[|q| - |r.0|..]
    ensures forall i | 0 <= i < |q| - |r.0| :: q[i].operation == POWER_OFF
    ensures r.0 != [] ==> r.0[0].operation != POWER_OFF
    ensures r.1 == AdmittedNames(q[..|q| - |r.0|], mon)
    decreases |q|
  {
    if q == [] || q[0].operation != POWER_OFF then (q, [])
    else
      var (rest, batch) := Drain(q[1..], mon);
      assert q[1..][..|q[1..]| - |rest|] == q[1..|q| - |rest|];
      assert q[..|q| - |rest|][1..] == q[1..|q| - |rest|];
      (rest, (if Admitted(mon, q[0]) then [q[0].nname] else []) + batch)
  }

  /** `_process_pending_tasks` as written: when the power-off run reaches the
      end of the queue, reading the new front raises and the batch is never
      sent (the caller swallows the exception). */
  function ProcessAsWritten(q: seq<Task>, mon: seq<MonNode>, status: Option<string>): (r: (seq<Task>, Outcome))
    ensures q != [] && q[0].operation == POWER_OFF && !Busy(status) && Drain(q, mon).0 == [] ==>
      r.0 == [] && r.1.BatchLost?
  {
    if q == [] then (q, NothingPending)
    else if Busy(status) then (q, Deferred)
    else if q[0].operation == POWER_ON then (q[1..], PowerOnStarted(q[0].nname))
    else if q[0].operation == POWER_OFF then
      var (rest, batch) := Drain(q, mon);
      if rest == [] then ([], BatchLost(batch)) else (rest, PowerOffIssued(batch))
    else (q, UnknownOperation(q[0].operation))
  }

  /** `_process_pending_tasks` with the drain corrected to stop at the end of
      the queue: one pass starts at most one power-on, or sends one batch built
      from the maximal run of power-off tasks at the front, leaving out names
      monitoring does not list and nodes in use. */
  function Process(q: seq<Task>, mon: seq<MonNode>, status: Option<string>): (r: (seq<Task>, Outcome))
    ensures q == [] ==> r == (q, NothingPending)
    ensures q != [] && Busy(status) ==> r == (q, Deferred)
    ensures q != [] && !Busy(status) && q[0].operation == POWER_ON ==> r == (q[1..], PowerOnStarted(q[0].nname))
    ensures q != [] && !Busy(status) && q[0].operation == POWER_OFF ==>
      && r.1.PowerOffIssued?
      && |r.0| < |q|
      && r.0 == q[|q| - |r.0|..]
      && (forall i | 0 <= i < |q| - |r.0| :: q[i].operation == POWER_OFF)
      && (r.0 != [] ==> r.0[0].operation != POWER_OFF)
      && r.1.batch == AdmittedNames(q[..|q| - |r.0|], mon)
    ensures q != [] && !Busy(status) && q[0].operation != POWER_ON && q[0].operation != POWER_OFF ==>
      r == (q, UnknownOperation(q[0].operation))
    ensures |r.0| <= |q| && r.0 == q[|q| - |r.0|..]
  {
    if q == [] then (q, NothingPending)
    else if Busy(status) then (q, Deferred)
    else if q[0].operation == POWER_ON then (q[1..], PowerOnStarted(q[0].nname))
    else if q[0].operation == POWER_OFF then
      var (rest, batch) := Drain(q, mon);
      (rest, PowerOffIssued(batch))
    else (q, UnknownOperation(q[0].operation))
  }

  /** A node that monitoring reports in use, or does not list, is never in a
      batch, even though its task is dequeued. */
  lemma InUseNeverBatched(q: seq<Task>, mon: seq<MonNode>, status: Option<string>, n: string)
    requires Process(q, mon, status).1.PowerOffIssued?
    requires NodeInfo(mon, n).None? || NodeInfo(mon, n).value.state == Used
    ensures n !in Process(q, mon, status).1.batch
  {
  }

  /** The source and the corrected processor differ only when the power-off run
      empties the queue: the source then loses the batch the corrected one
      sends. */
  lemma AsWrittenLosesOnlyTrailingRuns(q: seq<Task>, mon: seq<MonNode>, status: Option<string>)
    ensures ProcessAsWritten(q, mon, status).0 == Process(q, mon, status).0
    ensures ProcessAsWritten(q, mon, status).1 != Process(q, mon, status).1 <==>
      q != [] && !Busy(status) && q[0].operation == POWER_OFF && Drain(q, mon).0 == []
    ensures ProcessAsWritten(q, mon, status).1.BatchLost? ==>
      Process(q, mon, status).1 == PowerOffIssued(ProcessAsWritten(q, mon, status).1.batch)
  {
  }

  /** What the pass needs of the processor as written: it leaves the corrected
      processor's queue, and it reports the corrected outcome unless it lost the
      batch; a power-on it starts is the front task. */
  lemma AsWrittenAgrees(q: seq<Task>, mon: seq<MonNode>, status: Option<string>)
    ensures ProcessAsWritten(q, mon, status).0 == Process(q, mon, status).0
    ensures ProcessAsWritten(q, mon, status).1.BatchLost? || ProcessAsWritten(q, mon, status).1 == Process(q, mon, status).1
  {
    AsWrittenLosesOnlyTrailingRuns(q, mon, status);
  }

  /** The processor as written only dequeues: it leaves a suffix of the queue,
      and a power-on it starts is the front task, the only one removed. */
  lemma AsWrittenDequeues(q: seq<Task>, mon: seq<MonNode>, status: Option<string>)
    ensures var r := ProcessAsWritten(q, mon, status).0;
      |r| <= |q| && r == q[|q| - |r|..]
    ensures var p := ProcessAsWritten(q, mon, status);
      p.1.PowerOnStarted? ==> q != [] && q[0] == Task(POWER_ON, p.1.nname) && p.0 == q[1..]
  {
    if q != [] && !Busy(status) && q[0].operation == POWER_OFF {
      var d := Drain(q, mon);
      assert ProcessAsWritten(q, mon, status).0 == d.0;
    }
  }

  /** A queue holding one power-off task for a node that is on: the source drops
      the task and sends nothing. */
  lemma LoneTaskIsLost()
    ensures ProcessAsWritten([Task(POWER_OFF, "vm1")], [MonNode("vm1", true, OtherState("ON"), 0)], None)
      == ([], BatchLost(["vm1"]))
    ensures Process([Task(POWER_OFF, "vm1")], [MonNode("vm1", true, OtherState("ON"), 0)], None)
      == ([], PowerOffIssued(["vm1"]))
  {
    var q := [Task(POWER_OFF, "vm1")];
    var mon := [MonNode("vm1", true, OtherState("ON"), 0)];
    assert NodeInfo(mon, "vm1") == Some(mon[0]);
    assert Admitted(mon, q[0]);
    assert q[1..] == [];
    assert Drain(q[1..], mon) == ([], []);
    assert Drain(q, mon) == (Drain(q[1..], mon).0, [q[0].nname] + Drain(q[1..], mon).1);
    assert q[0].nname == "vm1";
    assert [q[0].nname] + Drain(q[1..], mon).1 == ["vm1"];
    assert Drain(q, mon).0 == [];
    assert Drain(q, mon).1 == ["vm1"];
    assert !Busy(None);
  }

  /** Batching stops at the first non-power-off task: with
      `[PowerOff(A), PowerOff(B), PowerOn(C), PowerOff(D)]` queued, only A and B
      are batched and `PowerOn(C), PowerOff(D)` stay queued. Monitoring need
      not list D: its task is not looked at. */
  lemma BatchStopsAtPowerOn()
    ensures var mon := [MonNode("A", true, OtherState("ON"), 0), MonNode("B", true, OtherState("ON"), 0)];
      Process([Task(POWER_OFF, "A"), Task(POWER_OFF, "B"), Task(POWER_ON, "C"), Task(POWER_OFF, "D")], mon, None)
        == ([Task(POWER_ON, "C"), Task(POWER_OFF, "D")], PowerOffIssued(["A", "B"]))
  {
    var mon := [MonNode("A", true, OtherState("ON"), 0), MonNode("B", true, OtherState("ON"), 0)];
    var q := [Task(POWER_OFF, "A"), Task(POWER_OFF, "B"), Task(POWER_ON, "C"), Task(POWER_OFF, "D")];
    assert NodeInfo(mon, "A") == Some(mon[0]);
    assert NodeInfo(mon[1..], "B") == Some(mon[1]);
    assert NodeInfo(mon, "B") == Some(mon[1]);
    assert Admitted(mon, q[0]) && Admitted(mon, q[1]);
    var tail := q[2..];
    assert tail[0] == Task(POWER_ON, "C");
    assert Drain(tail, mon) == (tail, []);
    assert q[1..][1..] == tail;
    assert Drain(q[1..], mon).0 == tail;
    assert Drain(q[1..], mon).1 == ["B"];
    assert Drain(q, mon).0 == tail;
    assert Drain(q, mon).1 == ["A", "B"];
    assert tail == [Task(POWER_ON, "C"), Task(POWER_OFF, "D")];
    assert !Busy(None);
  }

  /** `u` is neither a master nor the VM id of any tracked node. */
  predicate IsNewId(tracked: Tracked, masters: seq<string>, u: string)
  {
    u !in masters && forall n | n in tracked :: tracked[n].vmId != u
  }

  /** The uuids of the polled inventory that are neither masters nor tracked
      (`new_uuids` in `_power_on`), in inventory order. */
  function NewVmIds(tracked: Tracked, masters: seq<string>, poll: seq<Resource>): (r: seq<string>)
    ensures forall u :: u in r <==> (exists x | x in poll :: x.uuid == u) && IsNewId(tracked, masters, u)
    decreases |poll|
  {
    if poll == [] then []
    else
      var rest := NewVmIds(tracked, masters, poll[1..]);
      assert forall x | x in poll :: x == poll[0] || x in poll[1..];
      (if IsNewId(tracked, masters, poll[0].uuid) then [poll[0].uuid] else []) + rest
  }

  /** `_power_on` after the orchestrator answered `code` to the scale-up request
      and the inventory was polled: the node is tracked under the new VM exactly
      when the request was accepted and the poll shows exactly one new VM. */
  function PowerOnNode(st: State, nname: string, code: int, poll: seq<Resource>, stamp: int): (r: (State, bool))
    ensures r.0.pending == st.pending
    ensures r.0.masters == if code !in ACCEPTED_CODES || poll == [] then st.masters else MasterIds(st.masters, poll)
    ensures r.1 <==> code in ACCEPTED_CODES && |NewVmIds(st.tracked, r.0.masters, poll)| == 1
    ensures !r.1 ==> r.0.tracked == st.tracked
    ensures r.1 ==> && r.0.tracked.Keys == st.tracked.Keys + {nname}
                    && r.0.tracked[nname].vmId == NewVmIds(st.tracked, r.0.masters, poll)[0]
                    && r.0.tracked[nname] == NewRecord(r.0.tracked[nname].vmId, stamp)
                    && r.0.tracked[nname].vmId !in r.0.masters
                    && (forall n | n in st.tracked :: st.tracked[n].vmId != r.0.tracked[nname].vmId)
                    && (forall n | n in st.tracked && n != nname :: r.0.tracked[n] == st.tracked[n])
    ensures DistinctVmIds(st.tracked) ==> DistinctVmIds(r.0.tracked)
  {
    if code !in ACCEPTED_CODES then (st, false)
    else
      var masters := if poll == [] then st.masters else MasterIds(st.masters, poll);
      var ids := NewVmIds(st.tracked, masters, poll);
      if |ids| == 1 then
        assert ids[0] in ids;
        (st.(tracked := st.tracked[nname := NewRecord(ids[0], stamp)], masters := masters), true)
      else (st.(masters := masters), false)
  }

  /** A single polled resource contributes its uuid exactly when it is new. */
  lemma NewVmIdsSingle(tracked: Tracked, masters: seq<string>, x: Resource)
    ensures NewVmIds(tracked, masters, [x]) == if IsNewId(tracked, masters, x.uuid) then [x.uuid] else []
  {
    assert [x][1..] == [];
  }

  /** The new ids are collected one polled resource at a time, so the
      collection distributes over concatenation and a poll that lists a VM
      twice contributes it twice. */
  lemma {:induction false} NewVmIdsConcat(tracked: Tracked, masters: seq<string>, a: seq<Resource>, b: seq<Resource>)
    ensures NewVmIds(tracked, masters, a + b) == NewVmIds(tracked, masters, a) + NewVmIds(tracked, masters, b)
    decreases |a|
  {
    if a == [] {
      assert a + b == b;
    } else {
      var ab := a + b;
      assert ab[0] == a[0] && ab[1..] == a[1..] + b;
      NewVmIdsConcat(tracked, masters, a[1..], b);
    }
  }

  /** A poll that lists the one new VM twice yields two new ids, so the node
      is not adopted and the store is unchanged. */
  lemma RepeatedNewVmNotAdopted()
    ensures var v := Resource("v", "running", 5, COMPUTE_TYPE);
      var r := PowerOnNode(State(map[], [], ["m"]), "w1", 200, [v, v], 7);
      !r.1 && r.0.tracked == map[]
  {
    var v := Resource("v", "running", 5, COMPUTE_TYPE);
    NewVmIdsSingle(map[], ["m"], v);
    NewVmIdsConcat(map[], ["m"], [v], [v]);
    assert [v, v] == [v] + [v];
    assert |NewVmIds(map[], ["m"], [v, v])| == 2;
  }
}
