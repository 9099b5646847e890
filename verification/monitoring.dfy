/** The monitoring snapshot the reconciler reads (`monitoring_info.nodelist`). */
module Monitoring {
  import opened Wrappers

  /** The node states the reconciler distinguishes; every other state of the
      monitoring system is `OtherState`. The monitoring system's states are
      fixed constants (`Node.OFF`, `Node.USED`, ...), so `OtherState` is only
      ever built for a state other than the four that have a constructor of
      their own; its tag is never another spelling of `Off`, `OffErr`,
      `Unknown` or `Used`. */
  datatype NodeState = Off | OffErr | Unknown | Used | OtherState(tag: string)

  /** One monitored node: its name, whether it is enabled, its state and the
      clock reading at which it entered that state. */
  datatype MonNode = MonNode(name: string, enabled: bool, state: NodeState, stateSince: int)

  /** The states in which a node with a VM is considered failing. */
  predicate Failing(s: NodeState)
  {
    s == Off || s == OffErr || s == Unknown
  }

  /** `_get_node_info`: the first monitored node called `name`. */
  function NodeInfo(mon: seq<MonNode>, name: string): (r: Option<MonNode>)
    ensures r.None? <==> forall i | 0 <= i < |mon| :: mon[i].name != name
    ensures r.Some? ==> exists i | 0 <= i < |mon| ::
      && mon[i] == r.value
      && r.value.name == name
      && forall j | 0 <= j < i :: mon[j].name != name
    decreases |mon|
  {
    if mon == [] then None
    else if mon[0].name == name then Some(mon[0])
    else
      var r := NodeInfo(mon[1..], name);
      if r.Some? then
        var i :| 0 <= i < |mon[1..]| && mon[1..][i] == r.value && r.value.name == name &&
          (forall j | 0 <= j < i :: mon[1..][j].name != name);
        assert mon[i + 1] == r.value;
        r
      else r
  }

  /** The names listed by a snapshot, in order (`node_names` in `lifecycle`). */
  function Names(mon: seq<MonNode>): (r: seq<string>)
    ensures |r| == |mon|
    ensures forall i | 0 <= i < |mon| :: r[i] == mon[i].name
  {
    seq(|mon|, i requires 0 <= i < |mon| => mon[i].name)
  }
}
