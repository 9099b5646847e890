# INDIGO orchestrator power manager, modelled in Dafny

This project models the power-lifecycle reconciler of the CLUES INDIGO
orchestrator plugin (`powermanager` in `indigo_orchestrator.py`). The plugin
keeps the worker VMs of one orchestrator deployment in step with what the
energy-saving controller and the monitoring system want. The model covers:

- **The pending-task queue** (`Task`, `_add_task`): power-on and power-off
  requests in arrival order, without duplicates.
- **The tracked-VM store** (`_mvs_seen`, `VM_Node`): node name to VM id plus
  the created, seen and recovered clock readings. It also covers the two lookups.
- **Master classification** (`_get_master_node_id`): the running-minimum
  scan over creation times, starting from a sentinel of 5000-12-01T00:00, and
  its cache.
- **Inventory refresh** (`_get_vms`): for every non-master compute resource,
  an `ERROR` resource gets a power-off task, a `DELETING` one is ignored, a
  live one refreshes its owner, and one without an owner gets a power-off task.
  After that, VMs not seen within `FORGET_MISSING_VMS` are forgotten.
- **The requests** `power_on`, `power_off` and `recover`.
- **One reconciliation pass** (`lifecycle`): failing monitored nodes past
  the drop window and outside the cooldown are recovered (case 2). Tracked
  nodes that monitoring does not list are recovered (case 3). Then the
  backlog is processed by the processor as written, so a power-off batch
  that empties the queue is lost (see Findings). The corrected processor
  `Processor.Process` is modelled and proved beside it, and
  `Processor.AsWrittenAgrees` ties the two together.
- **Task processing** (`_process_pending_tasks`): a busy deployment defers
  processing. A power-on at the front starts `_power_on`. A power-off at the
  front drains the whole leading run of power-off tasks into one removal batch,
  dropping nodes that monitoring does not list or reports in use.
- **`_power_on`**: the node is adopted only when the request is accepted and
  exactly one new VM appears.
- **The count arithmetic of `_get_template`.**
- **The base64url segment preparation** of the JWT helper (`b64d`,
  `add_padding`).

Everything is a pure function over immutable values:

- The clock becomes two parameters, `now` and `stamp`. `now` is the reading a
  pass takes first. `stamp` is the reading the `VM_Node` timestamps get.
- HTTP answers become parameters: the deployment status, the response code of
  a scale request, and the inventory polled afterwards.
- Python dictionary iteration order is not fixed by the language. The model
  iterates keys in ascending lexicographic order (`DictOrder.SortedKeys`).
  Where the order matters, as in the reverse lookup with several owners, the
  contracts say so.

Where the documentation and the code disagree, the model follows the code:

- The master cache is recomputed on every call while it is empty, not once.
- `recover` does not delete the tracked record. It only queues a power-off
  for the node's VM.
- When the master cache is still empty, a lone resource in `ERROR` becomes the
  master and is not powered off. This is `InventoryRefresh.LoneErrorResourceIsMaster`.
- The queued power-off task names a VM id. The processor still looks that id
  up among monitored node *names* (line 484), as written.
- The unit test of `_get_auth_header` expects a header that the code does not
  produce. No property is derived from it.
- An unknown task operation at the front of the queue is logged (lines 500-502)
  but not removed, so it stays at the front and every later pass stops at it.
  The model keeps the queue unchanged (`Processor.UnknownOperation`); it does
  not drop the task.
- The adoption branch at lines 401-405 cannot run: the owner's name comes from
  walking the store itself.

## Model

| member | source | states |
|---|---|---|
| Tasks.SameTask | indigo_orchestrator.py:103-107 | `__cmp__` returns 0 exactly for equal tasks: same operation and same name |
| Tasks.Queued | indigo_orchestrator.py:432 | membership by `__cmp__` is membership of the task in the queue |
| Tasks.AddTask | indigo_orchestrator.py:430-433 | the task is queued afterwards; a task already queued leaves the queue unchanged; otherwise it is appended at the back; older tasks keep their places; no duplicates appear |
| Tasks.AddTaskIdempotent | indigo_orchestrator.py:430-433 | adding the same task twice is the same as adding it once |
| DictOrder.SortedKeys | indigo_orchestrator.py:292 | dictionary iteration visits every key exactly once, in ascending order |
| Tracking.NewRecord | indigo_orchestrator.py:114-117 | a new record carries the VM id, created and seen at the same construction reading, and never recovered (0) |
| Tracking.FirstOwnerFrom | indigo_orchestrator.py:292-294 | the first key from position k whose VM id matches, or none when no later key matches |
| Tracking.NodeNameOf | indigo_orchestrator.py:291-295 | `None` iff no tracked node has the VM id; otherwise a node that has it, and the least such name when several do |
| Tracking.UuidOf | indigo_orchestrator.py:297-301 | the node's VM id iff the node is tracked |
| Tracking.LookupRoundTrip | indigo_orchestrator.py:291-301 | the owner found for a VM id has that id; with distinct VM ids, the owner of a node's VM id is that node |
| Tracking.SameOwners | indigo_orchestrator.py:291-295 | the reverse lookup depends only on names and VM ids, never on timestamps |
| Tracking.Forget | indigo_orchestrator.py:411-415 | a record survives iff it was seen no more than the window before `now`; survivors are unchanged |
| Masters.ComputeOnly | indigo_orchestrator.py:356 | exactly the resources of type `tosca.nodes.indigo.Compute` are kept |
| Masters.ComputeOnlyConcat | indigo_orchestrator.py:356 | the filter keeps a single resource iff it is a compute node and distributes over concatenation, so order and repeats of the inventory are kept |
| Masters.ScanOldest | indigo_orchestrator.py:305-315 | every kept uuid belongs to a resource no later than the starting bound; the first resource is kept first when it is no later than the bound; never more uuids than resources |
| Masters.MasterIds | indigo_orchestrator.py:303-317 | a non-empty cache is returned as is; an empty cache gives exactly the uuids of the running minima of the creation times, starting from the sentinel, in inventory order; so an inventory whose first resource predates the sentinel yields masters |
| Masters.ScanKeepsRunningMinima | indigo_orchestrator.py:305-315 | the scan from the sentinel equals the independent running-minimum definition |
| Masters.MastersAreRunningMinima | indigo_orchestrator.py:305-315 | a uuid is a master iff its resource is no later than the sentinel and every earlier resource; the first resource and all global minima, ties included, are masters |
| Masters.MasterIdsStable | indigo_orchestrator.py:304-317 | asking again with the same inventory gives the same masters; a non-empty answer is kept whatever the later inventory |
| Monitoring.NodeInfo | indigo_orchestrator.py:450-454 | `None` iff no monitored node has the name; otherwise the first node with that name |
| Monitoring.Names | indigo_orchestrator.py:522-523 | the names of the snapshot, position by position |
| Requests.PowerOn | indigo_orchestrator.py:672-684 | success iff below the ceiling, checked before membership; the state changes iff below the ceiling, the node is untracked and its power-on is not already queued; the invariant is preserved |
| Requests.PowerOff | indigo_orchestrator.py:740-747 | success iff the node is tracked with a non-empty VM id; on success a power-off for that VM id is queued (once); the invariant is preserved |
| Requests.Recover | indigo_orchestrator.py:423-428 | `Node.OFF` iff the power-off request succeeded; the state is what `power_off` leaves |
| Requests.PowerOffTargetsOwnVm | indigo_orchestrator.py:740-747 | with distinct VM ids, the queued power-off names a VM that the reverse lookup attributes to the requested node |
| Requests.DefaultCeilingRefusesAll | indigo_orchestrator.py:137 | under the default ceiling of 0 instances every power-on is refused and nothing changes |
| Requests.PowerOnCases | tests/indigo_orchestrator_test.py:39-55 | with three nodes tracked: a new node is accepted under a ceiling of 5 and queued; under a ceiling of 1 it is refused; a tracked node is accepted without queuing |
| InventoryRefresh.Classify | indigo_orchestrator.py:370-407 | power-off iff the resource is a non-master in `ERROR`, or is live with no owner or an empty owner name; refresh of node n iff the resource is live and owned by n |
| InventoryRefresh.ScanResource | indigo_orchestrator.py:370-407 | one resource refreshes exactly its owner's seen stamp and queues exactly its own power-off when suspect |
| InventoryRefresh.ScanAll | indigo_orchestrator.py:370-407 | the loop keeps the names and all non-seen fields; the queue only grows at the back and stays duplicate-free |
| InventoryRefresh.ScanKeepsOwners | indigo_orchestrator.py:393-407 | refreshing seen stamps never changes which node owns a VM id |
| InventoryRefresh.ScanStamps | indigo_orchestrator.py:393-407 | after the loop a record's seen stamp is `stamp` iff some resource refreshes it, and is unchanged otherwise |
| InventoryRefresh.ScanQueue | indigo_orchestrator.py:378-398 | after the loop the queue holds the old tasks plus exactly the power-offs of the suspect resources |
| InventoryRefresh.Refresh | indigo_orchestrator.py:363-417 | masters as the cache rules decide; a record survives iff its stamp after the scan is within the window; survivors differ only in the seen stamp; new tasks are exactly the suspects' power-offs; the invariant is preserved |
| InventoryRefresh.SeenThisPassIsKept | indigo_orchestrator.py:364-412 | a node refreshed by this pass is never evicted by it |
| InventoryRefresh.ErrorResourceIsQueued | indigo_orchestrator.py:378-386 | every non-master resource in `ERROR` ends with a power-off queued for its uuid |
| InventoryRefresh.LoneErrorResourceIsMaster | indigo_orchestrator.py:303-317 | with an empty cache and a single `ERROR` resource, that resource becomes the master and nothing is queued |
| InventoryRefresh.ErrorResourceWithKnownMasters | indigo_orchestrator.py:371-386 | with the masters known, an unowned `ERROR` resource is queued for power-off |
| Processor.AdmittedNames | indigo_orchestrator.py:484-492 | a name is batched iff some task of the run names a monitored node that is not in use |
| Processor.Drain | indigo_orchestrator.py:479-495 | pops exactly the maximal leading run of power-off tasks; the rest of the queue is untouched; the batch is the admitted names of that run |
| Processor.ProcessAsWritten | indigo_orchestrator.py:456-502 | when the power-off run empties the queue, the queue ends empty and the batch is lost |
| Processor.Process | indigo_orchestrator.py:456-502 | empty queue: nothing; busy deployment: deferred; power-on at the front: that one task is popped and started; power-off at the front: the maximal run is drained into one batch; any other code: nothing changes |
| Processor.InUseNeverBatched | indigo_orchestrator.py:484-492 | a node in use, or not monitored, is never in a batch |
| Processor.AsWrittenLosesOnlyTrailingRuns | indigo_orchestrator.py:480-496 | the as-written and corrected processors agree except exactly when the run empties the queue; there the corrected one sends the lost batch |
| Processor.LoneTaskIsLost | indigo_orchestrator.py:495 | one queued power-off for a running node: the batch is lost as written, and sent when corrected |
| Processor.BatchStopsAtPowerOn | indigo_orchestrator.py:479-495 | with PowerOff A, PowerOff B, PowerOn C, PowerOff D queued, A and B are batched and C, D stay queued |
| Processor.NewVmIds | indigo_orchestrator.py:703-711 | a uuid is new iff a polled resource has it and it is neither a master nor any tracked VM id |
| Processor.NewVmIdsSingle | indigo_orchestrator.py:708-711 | a single polled resource contributes its uuid, once, exactly when it is neither a master nor tracked |
| Processor.NewVmIdsConcat | indigo_orchestrator.py:708-711 | the collection distributes over concatenation, so together with the single-resource value the result has one entry per new polled resource, repeats included, in poll order |
| Processor.RepeatedNewVmNotAdopted | indigo_orchestrator.py:708-720 | a poll listing the one new VM twice yields two new ids, so the node is not adopted and the store is unchanged |
| Processor.PowerOnNode | indigo_orchestrator.py:686-724 | adopted iff the code is accepted and exactly one new VM appears; the adopted VM id is that single new uuid of the poll; the master cache is refreshed from a non-empty poll when the code is accepted; the new record is fresh, its VM id is not a master and no other record has it; other records are unchanged |
| Processor.AsWrittenAgrees | indigo_orchestrator.py:456-502 | the processor as written leaves the corrected processor's queue and reports its outcome unless the batch was lost |
| Processor.AsWrittenDequeues | indigo_orchestrator.py:469-495 | the processor as written leaves a suffix of the queue; a power-on it starts is the front task, and only that task is removed |
| Lifecycle.CheckFailing | indigo_orchestrator.py:522-541 | every listed name is tracked and monitored; exactly the listed nodes get the recovery stamp |
| Lifecycle.CheckFailingExactly | indigo_orchestrator.py:522-541 | a name is listed iff some monitored node of that name is enabled, failing, tracked, past the drop window and outside the cooldown; it is listed at most once |
| Lifecycle.Unmonitored | indigo_orchestrator.py:554-560 | exactly the tracked names that monitoring does not list, each once |
| Lifecycle.StampRecovered | indigo_orchestrator.py:559 | exactly the listed records get the recovery stamp |
| Lifecycle.RecoverAll | indigo_orchestrator.py:419-421 | the queue gains exactly the power-offs of the listed tracked nodes with non-empty VM ids; the store is unchanged; the invariant is preserved |
| Lifecycle.Diff | indigo_orchestrator.py:515-562 | only the recovery stamps of the listed nodes change, to `stamp`; the queue keeps every task in place and gains exactly a power-off of the VM id of each listed node whose VM id is non-empty; the invariant is preserved |
| Lifecycle.Reconcile | indigo_orchestrator.py:510-562 | relative to the refreshed state: same names and masters, every record equal up to the recovery stamp, which is `stamp` exactly for the recovered nodes; the refreshed queue is a prefix of the result, which gains exactly the recovery power-offs; the invariant is preserved |
| Lifecycle.RecoveryDecision | indigo_orchestrator.py:522-560 | a node is recovered iff it is recoverable by case 2 or tracked and unmonitored (case 3); it is never recovered twice in one pass |
| Lifecycle.RecoveredNodesAreQueued | indigo_orchestrator.py:562 | every recovered node with a non-empty VM id has its power-off queued |
| Lifecycle.ProcessStep | indigo_orchestrator.py:564 | the outcome and the queue are those of the processor as written (a trailing power-off batch is lost); the queue is a suffix of the old one; store and master cache change only as `PowerOnEffect` says: not at all without a started power-on, otherwise the node is adopted exactly when the code is accepted and the poll shows one new VM id; the invariant is preserved; previously tracked records are unchanged |
| Lifecycle.StartPowerOn | indigo_orchestrator.py:471-477 | `_power_on` runs only when the processor started one; the queue is untouched; the master cache is refreshed from a non-empty poll on an accepted code; the node is tracked afterwards iff it was before or the code is accepted and exactly one new VM id appears, and then it holds a fresh record for that id; otherwise the store is unchanged; for a node neither tracked nor queued for power-on, the invariant and all earlier records are kept |
| Lifecycle.PowerOnAdoptsNewVm | indigo_orchestrator.py:700-724 | with code 200, a cached master and a poll showing that master plus one other compute VM, the node is adopted with a fresh record for the other VM and the cache is kept |
| Lifecycle.PowerOnKeepsInvariant | indigo_orchestrator.py:720 | adopting a node whose power-on has left the queue keeps the invariant and the other records |
| Lifecycle.Pass | indigo_orchestrator.py:504-569 | the outcome and queue are those of the processor as written applied to the reconciled queue; after the diff, the store and the master cache change only through `_power_on`, with the adoption rule of `PowerOnEffect`; a whole pass preserves the invariant |
| Lifecycle.CooldownAcrossPasses | indigo_orchestrator.py:530-534 | a node recovered in one pass is not picked by the failing-node check of a pass starting within the drop window |
| Lifecycle.FailingNodeIsRecovered | indigo_orchestrator.py:525-538 | a node off for 40 units against a window of 30, never recovered, is recovered and stamped |
| Jwt.StripPadding | indigo_orchestrator.py:57 | removes exactly the trailing `=` characters: the result is a prefix, everything removed is `=`, and the result does not end in `=` |
| Jwt.AddPadding | indigo_orchestrator.py:71-82 | fails iff the length is 1 modulo 4; otherwise appends at most two `=` to reach a multiple of 4 |
| Jwt.PaddingRoundTrip | indigo_orchestrator.py:57-82 | stripping the padding that `add_padding` added gives back a segment that did not end in `=` |
| Jwt.PrepareSegment | indigo_orchestrator.py:57-82 | characters outside the alphabet are rejected after stripping; a segment in the alphabet that carried padding is accepted unchanged; one without padding goes through `add_padding`, so it is rejected for incorrect padding exactly when its length is 1 modulo 4 |
| Jwt.UnpaddedSegmentIsPadded | indigo_orchestrator.py:57-66 | an unpadded base64url segment whose length is not 1 modulo 4 is accepted and padded to a multiple of 4, and stripping recovers it |
| Template.NewCount | indigo_orchestrator.py:768-774 | an empty removal list sends nothing; removing k ≤ count gives count − k; removing more resets the count to 1 first, giving 1 − k; adding n gives count + n |
| Template.ScaleRoundTrip | indigo_orchestrator.py:768-774 | adding n nodes and then removing n VMs restores a non-negative count |

## Left out

- HTTP, JSON and YAML. The deployment status, the response code of a scale request and the polled inventory are parameters. The template document, `_find_wn_nodetemplate_name` and the request bodies are not modelled; only the count is.
- Pagination and failed fetches in `_get_resources`. The inventory is a parameter, and a failed fetch is the empty inventory.
- The OAuth token refresh at the start of `lifecycle`, `_get_auth_header`, and the JSON decoding in `JWT.get_info`. They are credentials and encoding, with no bearing on the reconciler state.
- The base64 decoding itself in `b64d`. Only the checks and padding before it are modelled.
- SQL persistence (`_add_mvs_seen`, `_delete_mvs_seen`, `_delete_task`, `_load_*`). The database mirrors the in-memory state and its failures are only logged.
- Logging and `Task.__str__`.
- Exceptions that end a pass early through the catch-all `except` in `lifecycle` (line 565), apart from the one at line 495, which the Findings cover. They include a failing `get_monitoring_info` (line 510); a failing request or reply in `_get_deployment_status` (lines 645 and 652, which have no local handler); and a malformed resource in `_get_vms` (the creation time parsed at line 310, the fields read at lines 371-373). When one of them is raised, the source keeps whatever the pass had changed so far and skips the rest; the model has no such partial pass.
- Time parsing. Creation times are integers in minutes; the `+0000` suffix is cut by the source and ignored.
- The sleep-and-poll loop of `_power_on`: the poll parameter is the last inventory it reads. Timeout handling is the case where no single new VM appears.
- Processor.PowerOnNode: the master cache is computed from the last poll only. In the source, line 709 runs on every retry, so an earlier poll of the loop can fill an empty master cache, and later polls then use that cache.
- Calendar clocks and float timestamps. Clock readings are integers.
- Separate clock readings within one pass. The source reads the clock at the start of `lifecycle`, again at the start of `_get_vms`, and at every `seen()` and `recovered()`. The model uses one reading `now` for all decisions and one reading `stamp` for all timestamps. Lemmas that depend on their order require `now <= stamp`.
- The base class `PowerManager.lifecycle`, called at the end of a pass. It is outside this component.
- Tracking.NodeNameOf: Python 2 dictionary order is arbitrary. The model fixes it to ascending key order, so with several owners of one VM id it returns the least name.
- Template.NewCount: a failed template fetch, which returns `None` and then raises while building the request, is not modelled. Neither is the `dns_name` field.

## Findings

| source | as written | input that shows it | evidently intended | confidence | as-written member | corrected member |
|---|---|---|---|---|---|---|
| indigo_orchestrator.py:495 | after popping the last power-off task of the queue, `self._pending_tasks[0]` is read on an empty list. The IndexError is swallowed by the handler in `lifecycle`, so `_power_off` is never called and the drained tasks are gone | a queue holding only `PowerOff("vm1")`, with monitoring listing `vm1` as running | stop the drain when the queue is empty and send the batch | not executed | Processor.ProcessAsWritten (Processor.LoneTaskIsLost, Processor.AsWrittenLosesOnlyTrailingRuns) | Processor.Process |

`Lifecycle.ProcessStep` and `Lifecycle.Pass` run the processor as written, as
line 564 does, so the loss shows up in the modelled pass. `Processor.Process`
states the intended behaviour and is proved beside it. `Processor.AsWrittenAgrees`
shows that the two processors leave the same queue and differ only where the
batch is lost.
