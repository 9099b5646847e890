/** One reconciliation pass (`lifecycle`): refresh the tracked VMs from the
    inventory, compare them with the monitoring snapshot, queue the recoveries,
    and process the backlog. */
module Lifecycle {
  import opened Wrappers
  import opened DictOrder
  import opened Tasks
  import opened Tracking
  import opened Masters
  import opened Monitoring
  import opened Reconciler
  import opened Requests
  import opened InventoryRefresh
  import opened Processor

  /** Case (2) of `lifecycle`: an enabled node failing in monitoring, whose VM
      is still tracked, is recovered when the feature is on (`drop > 0`), it has
      been failing for longer than `drop`, and it was not recovered within the
      last `drop` time units. */
  predicate Recoverable(tracked: Tracked, node: MonNode, now: int, drop: int)
  {
    && node.enabled
    && Failing(node.state)
    && drop > 0
    && node.name in tracked
    && now - node.stateSince > drop
    && now - tracked[node.name].recovered > drop
  }

  /** The first loop of `lifecycle` over the monitored nodes, in order: each
      recoverable node gets its recovery stamp and its name is listed. */
  function CheckFailing(tracked: Tracked, nodes: seq<MonNode>, now: int, stamp: int, drop: int)
    : (r: (Tracked, seq<string>))
    ensures r.0.Keys == tracked.Keys
    ensures forall n | n in tracked ::
      r.0[n] == tracked[n].(recovered := if n in r.1 then stamp else tracked[n].recovered)
    ensures forall n | n in r.1 :: n in tracked && n in Names(nodes)
    decreases |nodes|
  {
    if nodes == [] then (tracked, [])
    else
      var node := nodes[0];
      var (t1, here) :=
        if Recoverable(tracked, node, now, drop)
        then (tracked[node.name := tracked[node.name].(recovered := stamp)], [node.name])
        else (tracked, []);
      var (t2, rest) := CheckFailing(t1, nodes[1..], now, stamp, drop);
      assert Names(nodes) == [node.name] + Names(nodes[1..]);
      (t2, here + rest)
  }

  /** Some monitored node called `n` is recoverable. */
  ghost predicate SomeRecoverable(tracked: Tracked, nodes: seq<MonNode>, now: int, drop: int, n: string)
  {
    exists i | 0 <= i < |nodes| :: nodes[i].name == n && Recoverable(tracked, nodes[i], now, drop)
  }

  lemma SomeRecoverableSplit(tracked: Tracked, nodes: seq<MonNode>, now: int, drop: int, n: string)
    requires nodes != []
    ensures SomeRecoverable(tracked, nodes, now, drop, n) <==>
      (nodes[0].name == n && Recoverable(tracked, nodes[0], now, drop)) || SomeRecoverable(tracked, nodes[1..], now, drop, n)
  {
    if SomeRecoverable(tracked, nodes, now, drop, n) {
      var i :| 0 <= i < |nodes| && nodes[i].name == n && Recoverable(tracked, nodes[i], now, drop);
      if i > 0 { assert nodes[1..][i - 1] == nodes[i]; }
    }
    if SomeRecoverable(tracked, nodes[1..], now, drop, n) {
      var i :| 0 <= i < |nodes[1..]| && nodes[1..][i].name == n && Recoverable(tracked, nodes[1..][i], now, drop);
      assert nodes[i + 1] == nodes[1..][i];
    }
  }

  /** Whether a node called `n` is recoverable depends only on the record of `n`. */
  lemma SomeRecoverableLocal(t1: Tracked, t2: Tracked, nodes: seq<MonNode>, now: int, drop: int, n: string)
    requires (n in t1) == (n in t2)
    requires n in t1 ==> t1[n].recovered == t2[n].recovered
    ensures SomeRecoverable(t1, nodes, now, drop, n) == SomeRecoverable(t2, nodes, now, drop, n)
  {
    assert forall i | 0 <= i < |nodes| && nodes[i].name == n ::
      Recoverable(t1, nodes[i], now, drop) == Recoverable(t2, nodes[i], now, drop);
  }

  /** When the recovery stamp is not earlier than `now`, the first loop lists
      a name exactly when some monitored node with that name is recoverable,
      and lists it once: the stamp of a first recovery blocks a second one
      through the cooldown. */
  lemma {:induction false} CheckFailingExactly(tracked: Tracked, nodes: seq<MonNode>, now: int, stamp: int, drop: int, n: string)
    requires now <= stamp
    ensures n in CheckFailing(tracked, nodes, now, stamp, drop).1 <==> SomeRecoverable(tracked, nodes, now, drop, n)
    ensures multiset(CheckFailing(tracked, nodes, now, stamp, drop).1)[n] <= 1
    decreases |nodes|
  {
    if nodes != [] {
      var node := nodes[0];
      var hit := Recoverable(tracked, node, now, drop);
      var t1 := if hit then tracked[node.name := tracked[node.name].(recovered := stamp)] else tracked;
      var here: seq<string> := if hit then [node.name] else [];
      var rest := CheckFailing(t1, nodes[1..], now, stamp, drop).1;
      assert CheckFailing(tracked, nodes, now, stamp, drop).1 == here + rest;
      assert multiset(here + rest)[n] == multiset(here)[n] + multiset(rest)[n];
      CheckFailingExactly(t1, nodes[1..], now, stamp, drop, n);
      SomeRecoverableSplit(tracked, nodes, now, drop, n);
      if hit && node.name == n {
        assert !SomeRecoverable(t1, nodes[1..], now, drop, n);
      } else {
        SomeRecoverableLocal(t1, tracked, nodes[1..], now, drop, n);
      }
    }
  }

  /** Case (3) of `lifecycle`: the tracked nodes that monitoring does not list at
      all, in iteration order. */
  function Unmonitored(tracked: Tracked, mon: seq<MonNode>): (r: seq<string>)
    ensures forall n :: n in r <==> n in tracked && n !in Names(mon)
    ensures forall i, j | 0 <= i < j < |r| :: r[i] != r[j]
  {
    Without(SortedKeys(tracked.Keys), Names(mon))
  }

  /** The elements of `xs` that are not in `ys`, in order. */
  function Without(xs: seq<string>, ys: seq<string>): (r: seq<string>)
    ensures forall x :: x in r <==> x in xs && x !in ys
    ensures (forall i, j | 0 <= i < j < |xs| :: xs[i] != xs[j]) ==> forall i, j | 0 <= i < j < |r| :: r[i] != r[j]
    decreases |xs|
  {
    if xs == [] then []
    else
      var rest := Without(xs[1..], ys);
      assert forall x | x in xs :: x == xs[0] || x in xs[1..];
      assert (forall i, j | 0 <= i < j < |xs| :: xs[i] != xs[j]) ==> xs[0] !in xs[1..];
      (if xs[0] in ys then [] else [xs[0]]) + rest
  }

  /** `vm.recovered()` for every listed tracked node. */
  function StampRecovered(tracked: Tracked, names: seq<string>, stamp: int): (r: Tracked)
    ensures r.Keys == tracked.Keys
    ensures forall n | n in tracked :: r[n] == tracked[n].(recovered := if n in names then stamp else tracked[n].recovered)
  {
    map n | n in tracked :: if n in names then tracked[n].(recovered := stamp) else tracked[n]
  }

  /** `_recover_ids`: `recover` every listed node in order. Only the queue
      changes: it gains a power-off task for the VM of every listed node that is
      tracked with a non-empty VM id. */
  function RecoverAll(st: State, names: seq<string>): (r: State)
    ensures r.tracked == st.tracked && r.masters == st.masters
    ensures |st.pending| <= |r.pending| && r.pending[..|st.pending|] == st.pending
    ensures forall t :: t in r.pending <==>
      || t in st.pending
      || exists n | n in names :: n in st.tracked && st.tracked[n].vmId != "" && t == Task(POWER_OFF, st.tracked[n].vmId)
    ensures Invariant(st) ==> Invariant(r)
    decreases |names|
  {
    if names == [] then st
    else
      var st1 := Recover(st, names[0]).0;
      var r := RecoverAll(st1, names[1..]);
      assert forall n | n in names :: n == names[0] || n in names[1..];
      r
  }

  /** The three-way diff of `lifecycle` over the refreshed state `st`: list and
      recover the failing nodes (case 2) followed by the unmonitored tracked
      nodes (case 3). The second component is `recover`, the list handed to
      `_recover_ids`. Only the recovery stamps of the listed nodes change in the
      store, and the queue keeps every task and gains exactly the power-offs of
      the listed nodes with a non-empty VM id. */
  function Diff(st: State, cfg: Config, now: int, stamp: int, mon: seq<MonNode>): (r: (State, seq<string>))
    ensures r.0.tracked.Keys == st.tracked.Keys && r.0.masters == st.masters
    ensures forall n | n in r.1 :: n in st.tracked
    ensures forall n | n in st.tracked ::
      r.0.tracked[n] == st.tracked[n].(recovered := if n in r.1 then stamp else st.tracked[n].recovered)
    ensures |st.pending| <= |r.0.pending| && r.0.pending[..|st.pending|] == st.pending
    ensures forall t :: t in r.0.pending <==>
      || t in st.pending
      || exists n | n in r.1 :: n in st.tracked && st.tracked[n].vmId != "" && t == Task(POWER_OFF, st.tracked[n].vmId)
    ensures Invariant(st) ==> Invariant(r.0)
  {
    var (t2, failing) := CheckFailing(st.tracked, mon, now, stamp, cfg.dropFailing);
    var unmonitored := Unmonitored(t2, mon);
    var t3 := StampRecovered(t2, unmonitored, stamp);
    var recover := failing + unmonitored;
    assert forall n :: n in recover <==> n in failing || n in unmonitored;
    RestampKeepsInvariant(st, t3);
    RecoverQueue(st, t3, recover);
    (RecoverAll(st.(tracked := t3), recover), recover)
  }

  /** Everything `lifecycle` does before `_process_pending_tasks`: refresh from
      the compute resources of `inventory`, then the three-way diff. Relative
      to the refreshed state, only recovery stamps change and the queue only
      gains the recovery power-offs. */
  function Reconcile(st: State, cfg: Config, now: int, stamp: int, mon: seq<MonNode>, inventory: seq<Resource>)
    : (r: (State, seq<string>))
    ensures var refreshed := Refresh(st, cfg.forgetMissing, now, stamp, ComputeOnly(inventory));
      r.0.tracked.Keys == refreshed.tracked.Keys && r.0.masters == refreshed.masters
    ensures forall n | n in r.1 :: n in r.0.tracked && r.0.tracked[n].recovered == stamp
    ensures var refreshed := Refresh(st, cfg.forgetMissing, now, stamp, ComputeOnly(inventory)).tracked;
      forall n | n in refreshed ::
        r.0.tracked[n] == refreshed[n].(recovered := if n in r.1 then stamp else refreshed[n].recovered)
    ensures var refreshed := Refresh(st, cfg.forgetMissing, now, stamp, ComputeOnly(inventory));
      |refreshed.pending| <= |r.0.pending| && r.0.pending[..|refreshed.pending|] == refreshed.pending
    ensures var refreshed := Refresh(st, cfg.forgetMissing, now, stamp, ComputeOnly(inventory));
      forall t :: t in r.0.pending <==>
        || t in refreshed.pending
        || exists n | n in r.1 :: n in refreshed.tracked && refreshed.tracked[n].vmId != "" && t == Task(POWER_OFF, refreshed.tracked[n].vmId)
    ensures Invariant(st) ==> Invariant(r.0)
  {
    Diff(Refresh(st, cfg.forgetMissing, now, stamp, ComputeOnly(inventory)), cfg, now, stamp, mon)
  }

  /** Recovering over a restamped store queues the same tasks as over the
      store before the restamp: only the VM ids are read. */
  lemma RecoverQueue(st: State, t: Tracked, names: seq<string>)
    requires t.Keys == st.tracked.Keys
    requires forall n | n in t :: t[n].vmId == st.tracked[n].vmId
    ensures forall x :: x in RecoverAll(st.(tracked := t), names).pending <==>
      || x in st.pending
      || exists n | n in names :: n in st.tracked && st.tracked[n].vmId != "" && x == Task(POWER_OFF, st.tracked[n].vmId)
  {
  }

  /** Changing only clock readings of the tracked records keeps the invariant. */
  lemma RestampKeepsInvariant(st: State, t: Tracked)
    requires t.Keys == st.tracked.Keys
    requires forall n | n in t :: t[n].vmId == st.tracked[n].vmId
    ensures Invariant(st) ==> Invariant(st.(tracked := t))
  {
  }

  /** The pass of `lifecycle` given the monitoring snapshot, the inventory, the
      deployment status, and, for a power-on, the orchestrator's answer `code`
      and the inventory `poll` read afterwards. The processor runs as written, so
      a trailing power-off run is lost. After the diff, the store and the master
      cache change only through `_power_on` (`PowerOnEffect`). The token refresh
      and the exceptions other than the drain's read of `self._pending_tasks[0]`
      after the queue empties are left out. */
  function Pass(st: State, cfg: Config, now: int, stamp: int, mon: seq<MonNode>, inventory: seq<Resource>,
                status: Option<string>, code: int, poll: seq<Resource>): (r: (State, Outcome))
    ensures var reconciled := Reconcile(st, cfg, now, stamp, mon, inventory).0;
      && r.1 == ProcessAsWritten(reconciled.pending, mon, status).1
      && r.0.pending == ProcessAsWritten(reconciled.pending, mon, status).0
    ensures PowerOnEffect(Reconcile(st, cfg, now, stamp, mon, inventory).0, r.0, r.1, code, poll, stamp)
    ensures Invariant(st) ==> Invariant(r.0)
  {
    var (st1, _) := Reconcile(st, cfg, now, stamp, mon, inventory);
    ProcessStep(st1, mon, status, code, poll, stamp)
  }

  /** `_process_pending_tasks` as `lifecycle` calls it at the end of its `try`, followed, for
      a power-on, by `_power_on`. A power-off run that empties the queue loses
      its batch (`BatchLost`); otherwise the outcome is the corrected
      processor's (`AsWrittenAgrees`). The queue left is the processor's: a suffix of the old one.
      Records that were tracked before keep their contents when the invariant
      holds: the node powered on is never one of them. */
  function ProcessStep(st: State, mon: seq<MonNode>, status: Option<string>, code: int, poll: seq<Resource>, stamp: int)
    : (r: (State, Outcome))
    ensures r.1 == ProcessAsWritten(st.pending, mon, status).1
    ensures r.0.pending == ProcessAsWritten(st.pending, mon, status).0
    ensures |r.0.pending| <= |st.pending| && r.0.pending == st.pending[|st.pending| - |r.0.pending|..]
    ensures Invariant(st) ==> Invariant(r.0)
    ensures Invariant(st) ==> forall n | n in st.tracked :: n in r.0.tracked && r.0.tracked[n] == st.tracked[n]
    ensures PowerOnEffect(st, r.0, r.1, code, poll, stamp)
  {
    var p := ProcessAsWritten(st.pending, mon, status);
    DequeueReadyForPowerOn(st, mon, status);
    (StartPowerOn(st.(pending := p.0), p.1, code, poll, stamp), p.1)
  }

  /** The processor as written leaves a suffix of the queue that keeps the
      invariant, and a power-on it starts is for a node neither tracked nor
      still queued for power-on. */
  lemma DequeueReadyForPowerOn(st: State, mon: seq<MonNode>, status: Option<string>)
    ensures var q := ProcessAsWritten(st.pending, mon, status).0;
      |q| <= |st.pending| && q == st.pending[|st.pending| - |q|..]
    ensures Invariant(st) ==> Invariant(st.(pending := ProcessAsWritten(st.pending, mon, status).0))
    ensures var p := ProcessAsWritten(st.pending, mon, status);
      Invariant(st) && p.1.PowerOnStarted? ==> Task(POWER_ON, p.1.nname) !in p.0 && p.1.nname !in st.tracked
  {
    var p := ProcessAsWritten(st.pending, mon, status);
    AsWrittenDequeues(st.pending, mon, status);
    DequeueKeepsInvariant(st, p.0);
    if Invariant(st) && p.1.PowerOnStarted? {
      assert |p.0| < |st.pending| && st.pending[0] in st.pending;
    }
  }

  /** The effect of `_power_on` on the store and the master cache, given the
      processor's outcome `out`, the orchestrator's answer `code` and the
      inventory `poll` read afterwards. Without a started power-on nothing
      changes. With one, the cache is refreshed from the compute resources of
      a non-empty poll when the code is accepted; the node is adopted exactly
      when the code is accepted and the poll shows one new VM id, and then it
      gets a fresh record for that id; otherwise the store is unchanged. Other
      records never change. */
  predicate PowerOnEffect(before: State, after: State, out: Outcome, code: int, poll: seq<Resource>, stamp: int)
  {
    if !out.PowerOnStarted? then
      after.tracked == before.tracked && after.masters == before.masters
    else
      var compute := ComputeOnly(poll);
      var newIds := NewVmIds(before.tracked, after.masters, compute);
      var adopted := code in ACCEPTED_CODES && |newIds| == 1;
      && after.masters == (if code !in ACCEPTED_CODES || compute == [] then before.masters
                           else MasterIds(before.masters, compute))
      && (out.nname in after.tracked <==> out.nname in before.tracked || adopted)
      && (adopted ==> && after.tracked.Keys == before.tracked.Keys + {out.nname}
                      && out.nname in after.tracked
                      && after.tracked[out.nname] == NewRecord(newIds[0], stamp))
      && (!adopted ==> after.tracked == before.tracked)
      && (forall n | n in before.tracked && n != out.nname :: n in after.tracked && after.tracked[n] == before.tracked[n])
  }

  /** `_power_on` when the processor started one, nothing otherwise. Started
      for a node that is neither tracked nor still queued for power-on, it keeps
      the invariant and every record tracked before. */
  function StartPowerOn(st: State, out: Outcome, code: int, poll: seq<Resource>, stamp: int): (r: State)
    ensures r.pending == st.pending
    ensures !out.PowerOnStarted? ==> r == st
    ensures PowerOnEffect(st, r, out, code, poll, stamp)
    ensures && Invariant(st)
            && (out.PowerOnStarted? ==> Task(POWER_ON, out.nname) !in st.pending && out.nname !in st.tracked)
        ==> && Invariant(r)
            && forall n | n in st.tracked :: n in r.tracked && r.tracked[n] == st.tracked[n]
  {
    if out.PowerOnStarted? then
      var r := PowerOnNode(st, out.nname, code, ComputeOnly(poll), stamp).0;
      assert Invariant(st) && Task(POWER_ON, out.nname) !in st.pending && out.nname !in st.tracked ==>
        Invariant(r) && forall n | n in st.tracked :: n in r.tracked && r.tracked[n] == st.tracked[n] by {
        if Invariant(st) && Task(POWER_ON, out.nname) !in st.pending && out.nname !in st.tracked {
          PowerOnKeepsInvariant(st, out.nname, code, ComputeOnly(poll), stamp);
        }
      }
      r
    else st
  }

  /** Dropping tasks from the front of the queue keeps the invariant. */
  lemma DequeueKeepsInvariant(st: State, q: seq<Task>)
    requires |q| <= |st.pending| && q == st.pending[|st.pending| - |q|..]
    ensures Invariant(st) ==> Invariant(st.(pending := q))
    ensures Invariant(st) && q != st.pending ==> st.pending[0] !in q
  {
    var k := |st.pending| - |q|;
    assert forall i | 0 <= i < |q| :: q[i] == st.pending[k + i];
  }

  /** Tracking a node whose power-on task has left the queue keeps the
      invariant and leaves every other record as it was. */
  lemma PowerOnKeepsInvariant(st: State, nname: string, code: int, poll: seq<Resource>, stamp: int)
    requires Invariant(st)
    requires Task(POWER_ON, nname) !in st.pending
    requires nname !in st.tracked
    ensures Invariant(PowerOnNode(st, nname, code, poll, stamp).0)
    ensures forall n | n in st.tracked ::
      && n in PowerOnNode(st, nname, code, poll, stamp).0.tracked
      && PowerOnNode(st, nname, code, poll, stamp).0.tracked[n] == st.tracked[n]
  {
  }

  /** The recovery decision of one pass, both directions: a node is recovered
      exactly when a monitored node of that name is recoverable (case 2) or
      it is tracked and monitoring does not list it (case 3). The two cases are
      disjoint, so no node is recovered twice. */
  lemma RecoveryDecision(st: State, cfg: Config, now: int, stamp: int, mon: seq<MonNode>, inventory: seq<Resource>, n: string)
    requires now <= stamp
    ensures var refreshed := Refresh(st, cfg.forgetMissing, now, stamp, ComputeOnly(inventory)).tracked;
      n in Reconcile(st, cfg, now, stamp, mon, inventory).1 <==>
        || SomeRecoverable(refreshed, mon, now, cfg.dropFailing, n)
        || (n in refreshed && n !in Names(mon))
    ensures multiset(Reconcile(st, cfg, now, stamp, mon, inventory).1)[n] <= 1
  {
    var st1 := Refresh(st, cfg.forgetMissing, now, stamp, ComputeOnly(inventory));
    var (t2, failing) := CheckFailing(st1.tracked, mon, now, stamp, cfg.dropFailing);
    var unmonitored := Unmonitored(t2, mon);
    assert Reconcile(st, cfg, now, stamp, mon, inventory).1 == failing + unmonitored;
    CheckFailingExactly(st1.tracked, mon, now, stamp, cfg.dropFailing, n);
    assert multiset(failing + unmonitored)[n] == multiset(failing)[n] + multiset(unmonitored)[n];
    OnceInDistinct(unmonitored, n);
    assert n in failing ==> n in Names(mon);
  }

  /** In a sequence without repetitions every element occurs once. */
  lemma OnceInDistinct(xs: seq<string>, x: string)
    requires forall i, j | 0 <= i < j < |xs| :: xs[i] != xs[j]
    ensures multiset(xs)[x] <= 1
  {
    if x in xs {
      var i :| 0 <= i < |xs| && xs[i] == x;
      var before, after := xs[..i], xs[i + 1..];
      assert xs == before + [x] + after;
      assert x !in before && x !in after;
    }
  }

  /** Every recovered node with a non-empty VM id leaves a power-off task for
      that VM in the queue. */
  lemma RecoveredNodesAreQueued(st: State, cfg: Config, now: int, stamp: int, mon: seq<MonNode>, inventory: seq<Resource>, n: string)
    ensures var (r, recovered) := Reconcile(st, cfg, now, stamp, mon, inventory);
      n in recovered && n in r.tracked && r.tracked[n].vmId != "" ==> Task(POWER_OFF, r.tracked[n].vmId) in r.pending
  {
  }

  /** The cooldown across passes: a node recovered by one pass is not picked by
      the failing-node check of a later pass that starts within `dropFailing` of
      that recovery. */
  lemma CooldownAcrossPasses(st: State, cfg: Config, now: int, stamp: int, mon: seq<MonNode>, inventory: seq<Resource>,
                             status: Option<string>, code: int, poll: seq<Resource>,
                             now2: int, stamp2: int, mon2: seq<MonNode>, inventory2: seq<Resource>, n: string)
    requires Invariant(st)
    requires now2 - stamp <= cfg.dropFailing
    ensures var later := Pass(st, cfg, now, stamp, mon, inventory, status, code, poll).0;
      n in Reconcile(st, cfg, now, stamp, mon, inventory).1 ==>
      !SomeRecoverable(Refresh(later, cfg.forgetMissing, now2, stamp2, ComputeOnly(inventory2)).tracked,
                       mon2, now2, cfg.dropFailing, n)
  {
    var (st1, recovered) := Reconcile(st, cfg, now, stamp, mon, inventory);
    if n in recovered {
      var later := Pass(st, cfg, now, stamp, mon, inventory, status, code, poll).0;
      assert later == ProcessStep(st1, mon, status, code, poll, stamp).0;
      assert later.tracked[n].recovered == stamp;
    }
  }

  /** A node failing for 40 time units against a window of 30, never recovered
      before, is recovered and stamped. */
  lemma FailingNodeIsRecovered()
    ensures var tracked := map["w1" := VMRecord("u1", 0, 100, 0)];
      var r := CheckFailing(tracked, [MonNode("w1", true, Off, 60)], 100, 100, 30);
      r.1 == ["w1"] && r.0["w1"].recovered == 100
  {
    var tracked := map["w1" := VMRecord("u1", 0, 100, 0)];
    var nodes := [MonNode("w1", true, Off, 60)];
    assert Recoverable(tracked, nodes[0], 100, 30);
    assert nodes[1..] == [];
  }

  /** A started power-on with an accepted answer, whose poll shows the known
      master and one other compute VM, adopts that VM for the node. */
  lemma PowerOnAdoptsNewVm()
    ensures var poll := [Resource("m", "running", 0, COMPUTE_TYPE), Resource("v", "running", 5, COMPUTE_TYPE)];
      var r := StartPowerOn(State(map[], [], ["m"]), PowerOnStarted("w1"), 200, poll, 7);
      "w1" in r.tracked && r.tracked["w1"] == NewRecord("v", 7) && r.masters == ["m"]
  {
    var poll := [Resource("m", "running", 0, COMPUTE_TYPE), Resource("v", "running", 5, COMPUTE_TYPE)];
    var compute := ComputeOnly(poll);
    ComputeOnlyConcat([poll[0]], [poll[1]], poll[0]);
    ComputeOnlyConcat([], [poll[1]], poll[1]);
    assert poll == [poll[0]] + [poll[1]];
    assert compute == poll;
    var ids := NewVmIds(map[], ["m"], compute);
    assert compute[1..][1..] == [];
    assert NewVmIds(map[], ["m"], compute[1..][1..]) == [];
    assert NewVmIds(map[], ["m"], compute[1..]) == ["v"];
    assert ids == ["v"];
  }
}
