/** Inventory refresh (`_get_vms`): classify every non-master compute resource
    of a fresh inventory, then forget tracked VMs the inventory has not shown
    for too long. */
module InventoryRefresh {
  import opened Wrappers
  import opened Tasks
  import opened Tracking
  import opened Masters
  import opened Reconciler

  const ERROR_STATE: string := "ERROR"
  const DELETING_STATE: string := "DELETING"

  /** The resource gets a power-off task for its own uuid: it is in `ERROR`, or
      it is live and no tracked node (or only one with an empty name) owns it. */
  predicate Suspect(tracked: Tracked, masters: seq<string>, r: Resource)
  {
    && r.uuid !in masters
    && (|| r.state == ERROR_STATE
        || (&& r.state != DELETING_STATE
            && (NodeNameOf(tracked, r.uuid).None? || NodeNameOf(tracked, r.uuid).value == "")))
  }

  /** The resource is live and owned by tracked node `n`, whose seen stamp it
      refreshes. */
  predicate Refreshes(tracked: Tracked, masters: seq<string>, r: Resource, n: string)
  {
    && r.uuid !in masters
    && r.state != ERROR_STATE
    && r.state != DELETING_STATE
    && NodeNameOf(tracked, r.uuid) == Some(n)
    && n != ""
  }

  /** What one iteration of the resource loop does with a resource. */
  datatype Action = Ignore | PowerOffVm(uuid: string) | MarkSeen(node: string)

  /** The decision of one iteration of the resource loop of `_get_vms`, in the
      source's order: masters are skipped, `ERROR` is powered off, `DELETING` is
      ignored, and a live resource refreshes its owner or, without one, is
      powered off. The branch that adopts an owner missing from the store is left
      out: the owner is found by walking the store, so it is always there. */
  function Classify(tracked: Tracked, masters: seq<string>, r: Resource): (a: Action)
    ensures a.PowerOffVm? <==> Suspect(tracked, masters, r)
    ensures a.PowerOffVm? ==> a.uuid == r.uuid
    ensures forall n :: a == MarkSeen(n) <==> Refreshes(tracked, masters, r, n)
    ensures a.MarkSeen? ==> a.node in tracked
  {
    if r.uuid in masters then Ignore
    else if r.state == ERROR_STATE then PowerOffVm(r.uuid)
    else if r.state == DELETING_STATE then Ignore
    else
      var owner := NodeNameOf(tracked, r.uuid);
      if owner.None? || owner.value == "" then PowerOffVm(r.uuid)
      else MarkSeen(owner.value)
  }

  /** One iteration of the resource loop: apply the decision. */
  function ScanResource(tracked: Tracked, pending: seq<Task>, masters: seq<string>, r: Resource, stamp: int)
    : (out: (Tracked, seq<Task>))
    ensures out.0.Keys == tracked.Keys
    ensures forall n | n in tracked ::
      out.0[n] == tracked[n].(seen := if Refreshes(tracked, masters, r, n) then stamp else tracked[n].seen)
    ensures forall t :: t in out.1 <==> t in pending || (Suspect(tracked, masters, r) && t == Task(POWER_OFF, r.uuid))
    ensures |pending| <= |out.1| && out.1[..|pending|] == pending
    ensures NoDuplicates(pending) ==> NoDuplicates(out.1)
  {
    match Classify(tracked, masters, r)
    case Ignore => (tracked, pending)
    case PowerOffVm(uuid) => (tracked, AddTask(pending, Task(POWER_OFF, uuid)))
    case MarkSeen(n) => (tracked[n := tracked[n].(seen := stamp)], pending)
  }

  /** The resource loop of `_get_vms` over a whole inventory. The store keeps
      its names and everything but the seen stamps; the queue only grows, at its
      back, and stays duplicate-free. */
  function ScanAll(tracked: Tracked, pending: seq<Task>, masters: seq<string>, rs: seq<Resource>, stamp: int)
    : (out: (Tracked, seq<Task>))
    ensures out.0.Keys == tracked.Keys
    ensures forall n | n in tracked :: out.0[n] == tracked[n].(seen := out.0[n].seen)
    ensures |pending| <= |out.1| && out.1[..|pending|] == pending
    ensures NoDuplicates(pending) ==> NoDuplicates(out.1)
    decreases |rs|
  {
    if rs == [] then (tracked, pending)
    else
      var (t1, p1) := ScanResource(tracked, pending, masters, rs[0], stamp);
      ScanAll(t1, p1, masters, rs[1..], stamp)
  }

  /** Scanning keeps every reverse lookup: names and VM ids do not change. */
  lemma ScanKeepsOwners(tracked: Tracked, pending: seq<Task>, masters: seq<string>, r: Resource, stamp: int)
    ensures forall u: string :: NodeNameOf(ScanResource(tracked, pending, masters, r, stamp).0, u) == NodeNameOf(tracked, u)
  {
    var t1 := ScanResource(tracked, pending, masters, r, stamp).0;
    forall u: string ensures NodeNameOf(t1, u) == NodeNameOf(tracked, u) {
      SameOwners(t1, tracked, u);
    }
  }

  /** After the loop an entry's seen stamp is `stamp` exactly when some resource
      of the inventory refreshes it, and is unchanged otherwise. */
  lemma {:induction false} ScanStamps(tracked: Tracked, pending: seq<Task>, masters: seq<string>, rs: seq<Resource>, stamp: int, n: string)
    requires n in tracked
    ensures ScanAll(tracked, pending, masters, rs, stamp).0[n].seen ==
      if exists r | r in rs :: Refreshes(tracked, masters, r, n) then stamp else tracked[n].seen
    decreases |rs|
  {
    if rs != [] {
      var (t1, p1) := ScanResource(tracked, pending, masters, rs[0], stamp);
      ScanKeepsOwners(tracked, pending, masters, rs[0], stamp);
      ScanStamps(t1, p1, masters, rs[1..], stamp, n);
      var here := Refreshes(tracked, masters, rs[0], n);
      var later := exists r | r in rs[1..] :: Refreshes(t1, masters, r, n);
      assert later <==> exists r | r in rs[1..] :: Refreshes(tracked, masters, r, n);
      assert t1[n].seen == if here then stamp else tracked[n].seen;
      assert (exists r | r in rs :: Refreshes(tracked, masters, r, n)) <==> here || later by {
        assert forall r | r in rs :: r == rs[0] || r in rs[1..];
      }
    }
  }

  /** After the loop the queue holds the old tasks plus exactly the power-off
      tasks of the suspect resources. */
  lemma {:induction false} ScanQueue(tracked: Tracked, pending: seq<Task>, masters: seq<string>, rs: seq<Resource>, stamp: int, t: Task)
    ensures t in ScanAll(tracked, pending, masters, rs, stamp).1 <==>
      t in pending || exists r | r in rs :: Suspect(tracked, masters, r) && t == Task(POWER_OFF, r.uuid)
    decreases |rs|
  {
    if rs != [] {
      var (t1, p1) := ScanResource(tracked, pending, masters, rs[0], stamp);
      ScanKeepsOwners(tracked, pending, masters, rs[0], stamp);
      ScanQueue(t1, p1, masters, rs[1..], stamp, t);
      assert forall r | r in rs :: r == rs[0] || r in rs[1..];
    }
  }

  /** The seen stamp of tracked node `n` once the inventory `rs` was scanned. */
  ghost function SeenAfter(tracked: Tracked, masters: seq<string>, rs: seq<Resource>, stamp: int, n: string): int
    requires n in tracked
  {
    if exists r | r in rs :: Refreshes(tracked, masters, r, n) then stamp else tracked[n].seen
  }

  /** `_get_vms`. `now` is the clock reading taken before the inventory is
      fetched, `stamp` the reading used by the seen stamps. An empty inventory
      (also what a failed fetch yields) classifies nothing and leaves the master
      cache alone, but the eviction still runs. */
  function Refresh(st: State, window: int, now: int, stamp: int, resources: seq<Resource>): (r: State)
    ensures r.masters == if resources == [] then st.masters else MasterIds(st.masters, resources)
    ensures r.tracked.Keys <= st.tracked.Keys
    ensures forall n | n in st.tracked ::
      n in r.tracked <==> now - SeenAfter(st.tracked, r.masters, resources, stamp, n) <= window
    ensures forall n | n in r.tracked ::
      r.tracked[n] == st.tracked[n].(seen := SeenAfter(st.tracked, r.masters, resources, stamp, n))
    ensures forall t :: t in r.pending <==>
      t in st.pending || exists x | x in resources :: Suspect(st.tracked, r.masters, x) && t == Task(POWER_OFF, x.uuid)
    ensures |st.pending| <= |r.pending| && r.pending[..|st.pending|] == st.pending
    ensures Invariant(st) ==> Invariant(r)
  {
    var masters := if resources == [] then st.masters else MasterIds(st.masters, resources);
    var (scanned, pending) := ScanAll(st.tracked, st.pending, masters, resources, stamp);
    assert forall n | n in st.tracked :: scanned[n].seen == SeenAfter(st.tracked, masters, resources, stamp, n) by {
      forall n | n in st.tracked ensures scanned[n].seen == SeenAfter(st.tracked, masters, resources, stamp, n) {
        ScanStamps(st.tracked, st.pending, masters, resources, stamp, n);
      }
    }
    assert forall t :: t in pending <==>
      t in st.pending || exists x | x in resources :: Suspect(st.tracked, masters, x) && t == Task(POWER_OFF, x.uuid) by {
      forall t ensures t in pending <==>
        t in st.pending || exists x | x in resources :: Suspect(st.tracked, masters, x) && t == Task(POWER_OFF, x.uuid) {
        ScanQueue(st.tracked, st.pending, masters, resources, stamp, t);
      }
    }
    State(Forget(scanned, now, window), pending, masters)
  }

  /** An entry refreshed by this pass is never evicted by it, because `now` is
      read before the seen stamps and the window is not negative. Every other
      entry stays exactly when it was seen within the window. */
  lemma SeenThisPassIsKept(st: State, window: int, now: int, stamp: int, resources: seq<Resource>, n: string)
    requires now <= stamp && 0 <= window
    requires n in st.tracked
    ensures (exists x | x in resources :: Refreshes(st.tracked, Refresh(st, window, now, stamp, resources).masters, x, n))
      ==> n in Refresh(st, window, now, stamp, resources).tracked
  {
  }

  /** A non-master resource in `ERROR` always leaves a power-off task for its
      uuid in the queue, whether or not a tracked node owns it. */
  lemma ErrorResourceIsQueued(st: State, window: int, now: int, stamp: int, resources: seq<Resource>, x: Resource)
    requires x in resources && x.state == ERROR_STATE
    requires x.uuid !in Refresh(st, window, now, stamp, resources).masters
    ensures Task(POWER_OFF, x.uuid) in Refresh(st, window, now, stamp, resources).pending
  {
  }

  /** With the master cache still empty, a lone resource in `ERROR` is taken for
      the master and nothing is queued. */
  lemma LoneErrorResourceIsMaster(now: int, stamp: int)
    ensures var r := Refresh(State(map[], [], []), 30, now, stamp, [Resource("U1", ERROR_STATE, 0, COMPUTE_TYPE)]);
      r.masters == ["U1"] && r.pending == []
  {
    var rs := [Resource("U1", ERROR_STATE, 0, COMPUTE_TYPE)];
    assert ScanOldest(rs[1..], 0) == [];
    assert ScanOldest(rs, SENTINEL) == ["U1"];
    assert ComputeOnly(rs) == rs;
    var r := Refresh(State(map[], [], []), 30, now, stamp, rs);
    assert r.masters == ["U1"];
    assert Classify(map[], ["U1"], rs[0]) == Ignore;
    assert ScanAll(map[], [], ["U1"], rs, stamp).1 == [];
  }

  /** With the masters known, a resource in `ERROR` is powered off even though
      no tracked node owns it. */
  lemma ErrorResourceWithKnownMasters(now: int, stamp: int)
    ensures var r := Refresh(State(map[], [], ["M"]), 30, now, stamp, [Resource("U1", ERROR_STATE, 0, COMPUTE_TYPE)]);
      r.pending == [Task(POWER_OFF, "U1")]
  {
    var x := Resource("U1", ERROR_STATE, 0, COMPUTE_TYPE);
    var st := State(map[], [], ["M"]);
    var r := Refresh(st, 30, now, stamp, [x]);
    assert MasterIds(["M"], [x]) == ["M"];
    assert r.masters == ["M"];
    assert Classify(map[], ["M"], x) == PowerOffVm("U1");
    assert ScanAll(map[], [], ["M"], [x], stamp).1 == [Task(POWER_OFF, "U1")];
  }
}
