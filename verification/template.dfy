/** The instance-count arithmetic of `_get_template`; the YAML document it edits
    is not part of this model. */
module Template {
  import opened Wrappers

  /** The scale request: remove the listed VMs (`remove_nodes`) or add the
      listed nodes (`add_nodes`). */
  datatype ScaleChange = RemoveNodes(vmIds: seq<string>) | AddNodes(names: seq<string>)

  /** The new `count` written into the template, given the current tracked
      count. An empty removal list falls into the adding branch with no list to
      add and raises, so no request is sent (`None`). A removal of more VMs
      than are counted resets the count to 1 first, so the result is
      `1 - |vmIds|`: zero for one VM, negative for more. */
  function NewCount(count: int, change: ScaleChange): (r: Option<int>)
    ensures change == RemoveNodes([]) <==> r.None?
    ensures change.RemoveNodes? && change.vmIds != [] && |change.vmIds| <= count ==>
      r == Some(count - |change.vmIds|) && r.value >= 0
    ensures change.RemoveNodes? && change.vmIds != [] && count < |change.vmIds| ==>
      r == Some(1 - |change.vmIds|) && r.value <= 0 && (|change.vmIds| >= 2 ==> r.value < 0)
    ensures change.AddNodes? ==> r.Some? && r.value - count == |change.names|
  {
    match change
    case RemoveNodes(ids) =>
      if ids != [] then Some((if count < |ids| then 1 else count) - |ids|) else None
    case AddNodes(names) => Some(count + |names|)
  }

  /** Adding some nodes and then removing as many VMs restores the count. */
  lemma ScaleRoundTrip(count: int, names: seq<string>, vmIds: seq<string>)
    requires 0 <= count
    requires vmIds != [] && |vmIds| == |names|
    ensures NewCount(count, AddNodes(names)).Some?
    ensures NewCount(NewCount(count, AddNodes(names)).value, RemoveNodes(vmIds)) == Some(count)
  {
  }
}
