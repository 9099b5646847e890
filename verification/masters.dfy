/** The orchestrator inventory and the master-node classifier
    (`_get_resources` filtering, `_get_master_node_id`). */
module Masters {

  /** One deployment resource as the orchestrator lists it. `creationTime` is the
      parsed creation timestamp in minutes. */
  datatype Resource = Resource(uuid: string, state: string, creationTime: int, nodeType: string)

  const COMPUTE_TYPE: string := "tosca.nodes.indigo.Compute"

  /** 5000-12-01T00:00, in minutes since 1970-01-01T00:00: the initial "oldest so
      far" of the scan. */
  const SENTINEL: int := 1594107360

  /** The compute resources of a fetched inventory, in order. */
  function ComputeOnly(rs: seq<Resource>): (r: seq<Resource>)
    ensures forall x :: x in r <==> x in rs && x.nodeType == COMPUTE_TYPE
    ensures |r| <= |rs|
    decreases |rs|
  {
    if rs == [] then []
    else (if rs[0].nodeType == COMPUTE_TYPE then [rs[0]] else []) + ComputeOnly(rs[1..])
  }

  /** The filter is a list comprehension: it keeps a single resource exactly
      when it is a compute node, and distributes over concatenation, so the
      kept resources stay in inventory order, repeats included. */
  lemma {:induction false} ComputeOnlyConcat(a: seq<Resource>, b: seq<Resource>, x: Resource)
    ensures ComputeOnly([x]) == if x.nodeType == COMPUTE_TYPE then [x] else []
    ensures ComputeOnly(a + b) == ComputeOnly(a) + ComputeOnly(b)
    decreases |a|
  {
    assert [x][1..] == [];
    if a == [] {
      assert a + b == b;
    } else {
      assert (a + b)[0] == a[0];
      assert (a + b)[1..] == a[1..] + b;
      ComputeOnlyConcat(a[1..], b, x);
    }
  }

  /** The scan of `_get_master_node_id`: keep a resource when it is not later
      than the oldest creation time met so far (`best`), and make it the new
      oldest. */
  function ScanOldest(rs: seq<Resource>, best: int): (r: seq<string>)
    ensures |r| <= |rs|
    ensures forall u | u in r :: exists i | 0 <= i < |rs| :: rs[i].uuid == u && rs[i].creationTime <= best
    ensures |rs| > 0 && rs[0].creationTime <= best ==> |r| > 0 && r[0] == rs[0].uuid
    decreases |rs|
  {
    if rs == [] then []
    else if rs[0].creationTime <= best then [rs[0].uuid] + ScanOldest(rs[1..], rs[0].creationTime)
    else ScanOldest(rs[1..], best)
  }

  /** `_get_master_node_id` with its cache: a non-empty cache is answered as is,
      an empty one is recomputed from `rs` as the running minima of the creation
      times below the sentinel. */
  function MasterIds(cache: seq<string>, rs: seq<Resource>): (r: seq<string>)
    ensures cache != [] ==> r == cache
    ensures cache == [] ==> r == RunningMinima(rs, SENTINEL, 0)
    ensures cache == [] && rs != [] && rs[0].creationTime <= SENTINEL ==> r != []
  {
    ScanKeepsRunningMinima(rs);
    if cache != [] then cache else ScanOldest(rs, SENTINEL)
  }

  // Reference definition of the kept resources, one index at a time.

  /** Resource `i` is not later than `bound` nor than any resource before it. */
  ghost predicate IsRunningMinimum(rs: seq<Resource>, i: int, bound: int)
    requires 0 <= i < |rs|
  {
    rs[i].creationTime <= bound && forall j | 0 <= j < i :: rs[i].creationTime <= rs[j].creationTime
  }

  /** The uuids of the running minima among `rs[k..]`, in order. */
  ghost function RunningMinima(rs: seq<Resource>, bound: int, k: nat): seq<string>
    requires k <= |rs|
    decreases |rs| - k
  {
    if k == |rs| then []
    else (if IsRunningMinimum(rs, k, bound) then [rs[k].uuid] else []) + RunningMinima(rs, bound, k + 1)
  }

  /** The oldest creation time among `bound` and `rs[..k]`. */
  ghost function OldestBefore(rs: seq<Resource>, bound: int, k: nat): int
    requires k <= |rs|
  {
    if k == 0 then bound
    else
      var m := OldestBefore(rs, bound, k - 1);
      if rs[k - 1].creationTime <= m then rs[k - 1].creationTime else m
  }

  lemma {:induction false} OldestBeforeBounds(rs: seq<Resource>, bound: int, k: nat, c: int)
    requires k <= |rs|
    ensures c <= OldestBefore(rs, bound, k) <==> c <= bound && forall j | 0 <= j < k :: c <= rs[j].creationTime
  {
    if k > 0 {
      OldestBeforeBounds(rs, bound, k - 1, c);
    }
  }

  lemma {:induction false} ScanFrom(rs: seq<Resource>, bound: int, k: nat)
    requires k <= |rs|
    ensures ScanOldest(rs[k..], OldestBefore(rs, bound, k)) == RunningMinima(rs, bound, k)
    decreases |rs| - k
  {
    if k < |rs| {
      var best := OldestBefore(rs, bound, k);
      OldestBeforeBounds(rs, bound, k, rs[k].creationTime);
      assert rs[k..][0] == rs[k];
      assert rs[k..][1..] == rs[k + 1..];
      ScanFrom(rs, bound, k + 1);
    }
  }

  /** The scan keeps exactly the running minima of the inventory in input order:
      a resource is a master iff it is not later than the sentinel nor than any
      resource listed before it. */
  lemma ScanKeepsRunningMinima(rs: seq<Resource>)
    ensures ScanOldest(rs, SENTINEL) == RunningMinima(rs, SENTINEL, 0)
  {
    ScanFrom(rs, SENTINEL, 0);
    assert rs[0..] == rs;
  }

  lemma {:induction false} RunningMinimaMembers(rs: seq<Resource>, bound: int, k: nat, i: int)
    requires k <= i < |rs|
    requires IsRunningMinimum(rs, i, bound)
    ensures rs[i].uuid in RunningMinima(rs, bound, k)
    decreases |rs| - k
  {
    if k < i {
      RunningMinimaMembers(rs, bound, k + 1, i);
    }
  }

  lemma {:induction false} RunningMinimaOrigin(rs: seq<Resource>, bound: int, k: nat, u: string)
    requires k <= |rs|
    requires u in RunningMinima(rs, bound, k)
    ensures exists i | k <= i < |rs| :: rs[i].uuid == u && IsRunningMinimum(rs, i, bound)
    decreases |rs| - k
  {
    if !(IsRunningMinimum(rs, k, bound) && rs[k].uuid == u) {
      RunningMinimaOrigin(rs, bound, k + 1, u);
    }
  }

  /** Membership in the master set, both directions: a uuid is a master iff some
      resource with that uuid is a running minimum. In particular the first
      resource and every resource attaining the overall oldest creation time are
      masters, so ties at the oldest minute are all kept. */
  lemma MastersAreRunningMinima(rs: seq<Resource>, u: string)
    ensures u in ScanOldest(rs, SENTINEL) <==>
      exists i | 0 <= i < |rs| :: rs[i].uuid == u && IsRunningMinimum(rs, i, SENTINEL)
    ensures |rs| > 0 && rs[0].creationTime <= SENTINEL ==> rs[0].uuid in ScanOldest(rs, SENTINEL)
    ensures forall i | 0 <= i < |rs| && rs[i].creationTime <= SENTINEL &&
      (forall j | 0 <= j < |rs| :: rs[i].creationTime <= rs[j].creationTime) ::
        rs[i].uuid in ScanOldest(rs, SENTINEL)
  {
    ScanKeepsRunningMinima(rs);
    if u in ScanOldest(rs, SENTINEL) {
      RunningMinimaOrigin(rs, SENTINEL, 0, u);
    }
    forall i | 0 <= i < |rs| && IsRunningMinimum(rs, i, SENTINEL)
      ensures rs[i].uuid in ScanOldest(rs, SENTINEL)
    {
      RunningMinimaMembers(rs, SENTINEL, 0, i);
    }
  }

  /** Asking twice with the same inventory gives the same masters: once the
      answer is cached it is returned whatever the inventory, and an empty answer
      is recomputed from the same input. */
  lemma MasterIdsStable(cache: seq<string>, rs: seq<Resource>, later: seq<Resource>)
    ensures MasterIds(MasterIds(cache, rs), rs) == MasterIds(cache, rs)
    ensures MasterIds(cache, rs) != [] ==> MasterIds(MasterIds(cache, rs), later) == MasterIds(cache, rs)
  {
  }
}
