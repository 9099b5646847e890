/** The tracked-VM store (`_mvs_seen` and `powermanager.VM_Node`): node name to
    the orchestrator's VM id and three clock readings. */
module Tracking {
  import opened Wrappers
  import opened DictOrder

  /** `VM_Node`: the VM id and when it was created, last seen in the inventory,
      and last recovered (0 when never). */
  datatype VMRecord = VMRecord(vmId: string, created: int, seen: int, recovered: int)

  type Tracked = map<string, VMRecord>

  /** `VM_Node(vm_id)` built at clock reading `t`. */
  function NewRecord(vmId: string, t: int): (r: VMRecord)
    ensures r.vmId == vmId
    ensures r.created == t && r.seen == r.created
    ensures r.recovered == 0
  {
    VMRecord(vmId, t, t, 0)
  }

  /** Node `n` is tracked with VM id `uuid`. */
  predicate Owns(tracked: Tracked, n: string, uuid: string)
  {
    n in tracked && tracked[n].vmId == uuid
  }

  /** The first of `keys[k..]` that owns `uuid`, as an index into `keys`. */
  function FirstOwnerFrom(keys: seq<string>, tracked: Tracked, uuid: string, k: nat): (r: Option<nat>)
    requires k <= |keys|
    ensures r.Some? ==> k <= r.value < |keys| && Owns(tracked, keys[r.value], uuid)
    ensures r.Some? ==> forall j | k <= j < r.value :: !Owns(tracked, keys[j], uuid)
    ensures r.None? <==> forall j | k <= j < |keys| :: !Owns(tracked, keys[j], uuid)
    decreases |keys| - k
  {
    if k == |keys| then None
    else if Owns(tracked, keys[k], uuid) then Some(k)
    else FirstOwnerFrom(keys, tracked, uuid, k + 1)
  }

  /** `_get_nodename_from_uuid`: walk the store in iteration order and answer the
      first node whose VM id is `uuid`. With several owners that is the least
      name; with none the answer is `None`. */
  function NodeNameOf(tracked: Tracked, uuid: string): (r: Option<string>)
    ensures r.None? <==> forall n | n in tracked :: tracked[n].vmId != uuid
    ensures r.Some? ==> Owns(tracked, r.value, uuid)
    ensures r.Some? ==> forall n | Owns(tracked, n, uuid) :: LexLe(r.value, n)
  {
    var keys := SortedKeys(tracked.Keys);
    var i := FirstOwnerFrom(keys, tracked, uuid, 0);
    if i.None? then
      assert forall n | n in tracked :: n in keys;
      None
    else
      var first := keys[i.value];
      assert forall n | Owns(tracked, n, uuid) :: LexLe(first, n) by {
        forall n | Owns(tracked, n, uuid) ensures LexLe(first, n) {
          assert n in keys;
          var j :| 0 <= j < |keys| && keys[j] == n;
          if j == i.value { LexLeReflexive(n); }
        }
      }
      Some(first)
  }

  /** `_get_uuid_from_nodename`: the VM id of a tracked node, `None` otherwise. */
  function UuidOf(tracked: Tracked, name: string): (r: Option<string>)
    ensures r.Some? <==> name in tracked
    ensures r.Some? ==> Owns(tracked, name, r.value)
  {
    if name in tracked then Some(tracked[name].vmId) else None
  }

  /** No two tracked nodes share a VM id. */
  predicate DistinctVmIds(tracked: Tracked)
  {
    forall n, m | n in tracked && m in tracked && n != m :: tracked[n].vmId != tracked[m].vmId
  }

  /** The two lookups are inverse: the owner found for a VM id has that id, and
      when VM ids are distinct the owner of a node's VM id is the node itself. */
  lemma {:induction false} LookupRoundTrip(tracked: Tracked, name: string, uuid: string)
    ensures NodeNameOf(tracked, uuid) == Some(name) ==> UuidOf(tracked, name) == Some(uuid)
    ensures DistinctVmIds(tracked) && UuidOf(tracked, name) == Some(uuid) ==> NodeNameOf(tracked, uuid) == Some(name)
  {
    if DistinctVmIds(tracked) && UuidOf(tracked, name) == Some(uuid) {
      var r := NodeNameOf(tracked, uuid);
      assert tracked[name].vmId == uuid;
      assert r.Some?;
    }
  }

  /** Two stores with the same names and the same VM ids answer every reverse
      lookup alike, whatever their clock readings. */
  lemma SameOwners(t1: Tracked, t2: Tracked, uuid: string)
    requires t1.Keys == t2.Keys
    requires forall n | n in t1 :: t1[n].vmId == t2[n].vmId
    ensures NodeNameOf(t1, uuid) == NodeNameOf(t2, uuid)
  {
    var r1, r2 := NodeNameOf(t1, uuid), NodeNameOf(t2, uuid);
    if r1.Some? && r2.Some? {
      assert Owns(t2, r1.value, uuid) && Owns(t1, r2.value, uuid);
      LexLeAntisymmetric(r1.value, r2.value);
    }
  }

  /** Eviction after an inventory refresh (the loop at the end of `_get_vms`):
      drop every entry not seen for more than `window` time units before `now`. */
  function Forget(tracked: Tracked, now: int, window: int): (r: Tracked)
    ensures forall n :: n in r <==> n in tracked && now - tracked[n].seen <= window
    ensures forall n | n in r :: r[n] == tracked[n]
  {
    map n | n in tracked && now - tracked[n].seen <= window :: tracked[n]
  }
}
