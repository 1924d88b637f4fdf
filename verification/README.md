# Verification of the Astronomer control plane's core logic

Astronomer manages fleets of Kubernetes clusters through an agent that keeps a tunnel to the server. This project
models, in Dafny 4.11, the parts of it whose correctness is hardest to see by reading, and proves what they are for:

- **Categorical response contracts.** A generator computes which OpenAPI components lead to a categorical enum, prunes
  every schema to a checking plan, and a browser boundary runs the plan over each response. The schemas are JSON
  values, cyclic through `$ref`; the demands of the full schemas are stated independently, as routes (finite walks
  that end at a category). Pruned plan and full schemas accept the same responses, at any depth and through any cycle,
  exactly under a condition on the computed set. Two families of documents show what happens where it fails.
- **Exec ordering.** Shell messages are dispatched to concurrent goroutines, kept in wire order per stream by a chain
  of channels. The chain is a step system with cancellation anywhere; every run is serial per stream, refines a FIFO
  queue, never deadlocks and ends.
- **Decommission replies.** The right to run the terminal cleanup moves between message handlers, the socket writer and
  the teardown of a connection, over any number of reconnects. In every interleaving it has one holder at a time,
  cleanup follows the written ACK, and at rest every owner was released exactly once.
- **Agent overrides.** A YAML renderer and an in-place pod mutator produce the same effective pod; escaping, repeated
  application and resource limits are characterised exactly.
- **Release identity.** Catalog validation, source URL normalisation, image references, the image inventory, the closed
  archive with its bill of materials (BOM), the fingerprint allow-list and the controller digest, each against an
  independent description.

Files, by part (`dafny verify dfyconfig.toml` checks all of them):

- contracts: `Schemas`, `Reachability`, `Plans`, `Obligations`, `ResponseCheck`, `PlanCorrectness`, `Sanitising`,
  `Contracts`, `Fragment`, `Disagreements`, `ResponseLaws`, `RolloutMatrix`
- exec ordering: `ExecOrder`, `ExecRuns`, `ExecFifo`, `ExecDispatch`, `ExecWire`
- decommission: `Decommission`, `DecommissionRuns`, `DecommissionProgress`, `DecommissionHistory`, `TunnelClient`
- overrides: `YamlText`, `Overrides`, `Renderers`, `PodSpecs`, `OverridesAgree`, `OverridesAccepted`, `OverridesLaws`
- release identity: `Paths`, `SourceUrls`, `SourceIdentity`, `SourceHosts`, `SourceSpellings`, `SourceMirrors`,
  `Catalog`, `CatalogFields`, `CatalogLaws`, `Inventory`, `ImageRefs`, `ImageLaws`, `Archives`, `Fingerprints`, `Controllers`
- shared: `Prelude`, `Text`, `Sorting`, `Listings`

## Findings

Properties that the code does not have everywhere, each with the exact condition:

- Pruning can lose checks: a field map with a field literally named `items` hides its other fields from the reference
  walk (`FieldNamedItemsLosesCheck`). Pruning loses nothing exactly when every routed component is in the computed set
  (`LosesNothingIff`).
- A reference under a keyword that only the reference walk enters, such as `additionalProperties`, gives a component
  with a null definition, and every response that refers to it is refused (`HiddenReferenceRefusesEverything`). The
  boundary loses no check and refuses nothing extra, for all schemas and values, exactly when the computed set is the
  set of routed components (`FaithfulIff`).
- Validation trims `no_proxy` entries before checking them, so a vertical tab at the edge of an entry passes
  (`ControlCharacterPasses`) and renders to a scalar that does not read back; rendered and applied values agree exactly
  when they have no line break or control character (`ProxyAgrees`).
- A lone request (or limit) is not compared with the default of the other side, so a pod's request can exceed its limit
  (`RequestsWithinLimitsIff`, `LoneRequestCanExceedLimit`).
- Artifact keys join names by NUL without excluding it, so a consistent catalog of two unrelated releases can be refused
  (`RivalIsRefused`). A key names one release, and a component is judged right beside every other one, exactly when its
  chart has no NUL after the first character and its version none before the last (`KeyNamesOneReleaseIff`,
  `JudgedRightIff`).
- A normalised source URL with a leading zero in its port is not a mirror URL (`NormalFormIsMirrorIff`).
- Mirror URLs are meant to be canonical, but every mirror with a host name and no port has a second accepted spelling with the
  colon of an empty port (`MirrorHasTwoSpellings`); two accepted spellings of one endpoint are equal exactly when both or neither
  has that colon (`MirrorSpellingsAgreeIff`).
- The delivery agent's `imageRepository` keeps the tag of a reference that has both tag and digest; it agrees with the
  parser exactly on all others (`DeliveryAgreesIff`).
- The allow-list survives being written as a keyring exactly when it came from a keyring or from a legacy value without
  a comma (`ReadingBackIff`).

## Model

| member | source | states |
|---|---|---|
| `Reachability.ComputeReachable` | scripts/categorical-contracts.py:227-232 | The loop ends and returns exactly the components with a finite reference path to a category. |
| `Reachability.ReachIsClosed` | scripts/categorical-contracts.py:227-232 | A component that refers to a member is a member. |
| `Reachability.ReachIsLeast` | scripts/categorical-contracts.py:227-232 | No smaller set holds the categories and is closed. |
| `Reachability.FixpointIsReach` | scripts/categorical-contracts.py:227-232 | A set between the categories and the reachable components to which a pass adds nothing is the reachable set. |
| `Plans.PlanOutcome` | scripts/categorical-contracts.py:234-263 | For every schema and every set: compilation raises iff a union arm refers to a member; otherwise there is a plan iff the compiler sees a reference to a member. |
| `Obligations.RouteIffHits` | scripts/categorical-contracts.py:234-263 | A schema owes a category somewhere iff it refers to a component with a reference chain to one. |
| `Obligations.RoutedIffHasRoute` | scripts/categorical-contracts.py:227-263 | Membership of a component among the routed ones is having a route, through any cycles. |
| `ResponseCheck.CheckKeepsShape` | frontend/src/lib/api/categorical-values.ts:37-81 | A check changes nothing but the text of strings. |
| `ResponseCheck.AcceptedIsNotTooDeep` | frontend/src/lib/api/categorical-values.ts:37-45 | An accepted value has no walk beyond the depth limit. |
| `Contracts.PlanAcceptsIffAllMet` | scripts/categorical-contracts.py:234-267 | With an exact set, a pruned plan accepts a value iff the value meets every obligation of the full schemas and no walk is too deep. |
| `Contracts.LosesNothingIff` | scripts/categorical-contracts.py:214-267 | Accepted values meet every obligation, for every schema and value, iff the set holds all routed components. |
| `Contracts.PrunesExactlyIff` | scripts/categorical-contracts.py:214-263 | A schema goes unplanned exactly when it owes nothing, for every schema, iff the set is the routed components. |
| `Contracts.FaithfulIff` | scripts/categorical-contracts.py:214-267 | For every schema, value and depth the boundary accepts exactly what the full schemas demand, iff the set is the routed components. |
| `Contracts.ValidatedText` | frontend/src/lib/api/categorical-values.ts:16-81 | Position by position: a string of an accepted response is replaced iff some obligation puts it in a category that does not list it. |
| `Contracts.ResponseAcceptedIff` | frontend/src/lib/api/categorical-values.ts:83-95 | A response is accepted iff its operation owes no category, or its status is declared and its value meets that schema's obligations within the depth limit. |
| `ResponseLaws.ResponseIsSanitised` | frontend/src/lib/api/categorical-values.ts:83-95 | An accepted response of a declared status comes back with the same shape and exactly the condemned texts replaced by "unsupported"; with any other status it comes back untouched. |
| `ResponseLaws.SanitisedIsUnique` | frontend/src/lib/api/categorical-values.ts:37-81 | That determines the value handed back. |
| `ResponseLaws.UnowedResponseIsUntouched` | frontend/src/lib/api/categorical-values.ts:88-93 | An accepted response of an operation that owes no category comes back untouched. |
| `ResponseLaws.CategoryResponse` | frontend/src/lib/api/categorical-values.ts:44-49 | A categorical response keeps a listed text, turns any other text into "unsupported", and refuses every other value. |
| `ResponseLaws.DepthLimitIs128` | frontend/src/lib/api/categorical-values.ts:42-42 | Through nested arrays a check at depth 128 is made and one at depth 129 refused. |
| `ResponseLaws.MissingFieldRefusedIff` | frontend/src/lib/api/categorical-values.ts:67-71 | An object without a categorical field is refused iff the field is listed under `required`. |
| `ResponseLaws.NullAcceptedIff` | frontend/src/lib/api/categorical-values.ts:43-43 | Null is accepted by a categorical reference iff it is marked `nullable: true`. |
| `ResponseLaws.PlanOfNullableReference` | scripts/categorical-contracts.py:237-243 | A reference to a member is planned by name, nullable as its sibling says. |
| `ResponseLaws.PlanOfItems` | scripts/categorical-contracts.py:258-259 | `items` is planned under `type: array` and ignored under any other type. |
| `ResponseLaws.PlanOfUnion` | scripts/categorical-contracts.py:247-250 | A union of references to members raises under either keyword. |
| `ResponseLaws.PlanOfBoth` | scripts/categorical-contracts.py:245-246 | Both parts of an `allOf` are planned, in order. |
| `Contracts.BuildIsLawful` | scripts/categorical-contracts.py:265-267 | The definitions and plans of a usable document satisfy the compilation law of every schema. |
| `Fragment.PlainRefs` | scripts/categorical-contracts.py:214-225 | On plain schemas the raw walk finds exactly the references the compiler meets. |
| `Fragment.PlainDocumentIsExact` | scripts/categorical-contracts.py:214-263 | On a plain document that compiles, the loop computes exactly the routed components. |
| `Fragment.GeneratedPlanIsFaithful` | scripts/categorical-contracts.py:210-289 | End to end on plain documents with any cycles: the generated plan accepts a value iff the full schemas' obligations hold of it within the depth limit. |
| `Fragment.GeneratedBoundaryIsFaithful` | scripts/categorical-contracts.py:268-279 | End to end for operations on plain documents: a response is accepted iff nothing is owed, or its status is declared and its value meets that schema's obligations within the depth limit. |
| `ResponseLaws.GeneratedBoundarySanitises` | scripts/categorical-contracts.py:268-279 | End to end on plain documents: an accepted response comes back sanitised by its status's schema, and untouched where nothing is owed. |
| `Disagreements.FieldNamedItemsLosesCheck` | scripts/categorical-contracts.py:214-225 | For every choice of names, a field map with a field `items` makes pruning lose a check. |
| `Disagreements.HiddenReferenceRefusesEverything` | scripts/categorical-contracts.py:214-267 | For every other keyword holding a reference, every response that refers to the component is refused although nothing is owed. |
| `RolloutMatrix.BuildMatrix` | scripts/categorical-contracts.py:171-183 | Raises unless the actions are exactly the declared ones and all symbols are known; otherwise each state's row lists the actions that accept it, in order. |
| `RolloutMatrix.MatrixIsTranspose` | scripts/categorical-contracts.py:180-182 | With injective symbols an action stands in a state's row exactly as often as the moves pair the two. |
| `RolloutMatrix.RowsCountStates` | scripts/categorical-contracts.py:180-182 | Read from the transitions: a state's row counts each action as often as its transition lists the state. |
| `ExecOrder.StepKeepsInv` | internal/agent/exec_dispatch_order.go:19-50 | Every step keeps the invariant of slots, channels and tails. |
| `ExecRuns.EveryRunIsSerial` | internal/agent/exec_dispatch_order.go:19-50 | In every run, with cancellation anywhere, handlers of one stream start in wire order and each stops before the next starts. |
| `ExecRuns.WaitTrueMeansEarlierFinished` | internal/agent/exec_dispatch_order.go:31-40 | When a wait is about to return true, every earlier reservation of the stream has finished. |
| `ExecRuns.OneHandlerAtATime` | internal/agent/tunnel.go:647-661 | In every reachable state at most one handler of a stream runs. |
| `ExecRuns.TailsAreBounded` | internal/agent/exec_dispatch_order.go:23-48 | The tail map has no more entries than unfinished reservations and is empty when there are none. |
| `ExecRuns.WaitsOnlyBackwards` | internal/agent/exec_dispatch_order.go:23-40 | A blocked wait is on an earlier unfinished reservation of its own stream, so no cycle forms. |
| `ExecRuns.OldestCanMove` | internal/agent/exec_dispatch_order.go:31-48 | The oldest unfinished reservation of every stream can always move. |
| `ExecRuns.CancelFreesEveryone` | internal/agent/exec_dispatch_order.go:31-40 | After a cancellation every unfinished reservation can move. |
| `ExecRuns.StreamsAreIndependent` | internal/agent/exec_dispatch_order.go:19-50 | Whether a goroutine can move depends on its own stream and the context only. |
| `ExecRuns.OwnRunsEnd` | internal/agent/tunnel.go:647-661 | Any interleaving of the goroutines takes a bounded number of steps between messages. |
| `ExecRuns.StuckMeansQuiescent` | internal/agent/exec_dispatch_order.go:19-50 | If no goroutine can move, nothing is unfinished and the tail map is empty. |
| `ExecWire.WireOrder` | internal/agent/exec_dispatch_order.go:19-50 | In every run over a wire: of two START, INPUT or RESIZE messages on one stream, the later handler starts only after the earlier one ran and stopped. |
| `ExecWire.OthersTakeNoSlot` | internal/agent/exec_dispatch_order.go:20-22 | EXEC_END, heartbeats and other kinds reserve nothing. |
| `ExecWire.EveryMessageIsHandled` | internal/agent/tunnel.go:647-661 | In every run without cancellation, once no goroutine can move, every chained message was handled. |
| `ExecFifo.ChainRefinesFifo` | internal/agent/exec_dispatch_order.go:19-50 | Every step is, for every stream, one operation of that stream's FIFO queue: only heads start or complete, only a cancellation drops. |
| `ExecFifo.TailsAreQueueEnds` | internal/agent/exec_dispatch_order.go:23-48 | A tail is the end of its stream's queue; without cancellation there is a tail exactly for each nonempty queue. |
| `ExecDispatch.ExecDispatchOrder.Reserve` | internal/agent/exec_dispatch_order.go:19-30 | START, INPUT and RESIZE wait for the stream's tail and become it, as the machine's Reserve; EXEC_END, heartbeats and other kinds are ready at once and change nothing. |
| `ExecDispatch.ExecDispatchOrder.Await` | internal/agent/exec_dispatch_order.go:31-38 | The select takes a Pass or Abort step of the machine, and gives up only on a cancelled context. |
| `ExecDispatch.ExecDispatchOrder.Confirm` | internal/agent/exec_dispatch_order.go:39-40 | The final check is the Check step: the result is whether the context is live, and on true every earlier reservation of the stream has finished. |
| `ExecDispatch.ExecDispatchOrder.Finish` | internal/agent/exec_dispatch_order.go:41-48 | Closes the channel, removes the tail only if it is its own, and is the Finish step of the machine. |
| `ExecDispatch.ExecDispatchOrder.CancelContext` | internal/agent/tunnel.go:455-501 | Cancelling is the Cancel step of the machine and changes no tail. |
| `Decommission.StepKeepsInv` | internal/agent/decommission_reply.go:13-139 | Every step keeps linear ownership: a registered owner has exactly one holder until it is closed and none afterwards. |
| `DecommissionRuns.RunIsGood` | internal/agent/decommission_reply.go:50-139 | From any good state every run keeps ownership linear and the log in order: cleanup once and after the ACK, release once and not before or during cleanup. |
| `DecommissionProgress.EveryRunIsSafe` | internal/agent/decommission_reply.go:33-139 | In every run from the start the log is well ordered and no owner is released twice. |
| `DecommissionProgress.EveryRunAtRestReleasedOnce` | internal/agent/decommission_reply.go:33-139 | In every run that has come to rest, every admitted owner was released exactly once and the map is empty. |
| `DecommissionProgress.EveryAckAtRestWasCleanedUp` | internal/agent/decommission_reply.go:74-88 | In every run that has come to rest, a written ACK whose connection was never cancelled led to a cleanup that began and ended. |
| `DecommissionHistory.HistoryTells` | internal/agent/tunnel.go:455-501 | Sessions, owners, admissions and cancellations of the machine are those read from the steps of the run. |
| `DecommissionHistory.CleanupBeginsLive` | internal/agent/decommission_reply.go:80-88 | The step that begins a cleanup finds its ACK written and its context live. |
| `DecommissionHistory.NoCleanupAfterCancel` | internal/agent/decommission_reply.go:80-88 | In every run, once a session is cancelled no cleanup of one of its owners begins. |
| `DecommissionHistory.EveryAdmittedIsServed` | internal/agent/decommission_reply.go:111-139 | In every run at rest, an owner that was admitted, whose send did not fail and whose session was never cancelled has its ACK written, its cleanup begun and ended, and its release run. |
| `DecommissionHistory.LateFirstCheckStaysOut` | internal/agent/decommission_reply.go:114-117 | In every run, an owner whose session was cancelled before its first check never enters the map or the queue and gets no ACK. |
| `DecommissionHistory.FailedWriteEndsWriter` | internal/agent/tunnel.go:735-745 | In every run, after a failed write the writer takes no message before the next connection. |
| `DecommissionHistory.ReconnectServes` | internal/agent/tunnel.go:455-501 | Every reconnect gives a live, idle connection whose context is not cancelled. |
| `DecommissionHistory.ServingConnectionServes` | internal/agent/decommission_reply.go:74-139 | From every good state of such a connection one more decommission can be served, ending with ACK, cleanup and release in the log and nothing left behind. |
| `DecommissionProgress.InternalRunsEnd` | internal/agent/tunnel.go:455-501 | Any interleaving of handlers, writer and teardown takes a bounded number of steps between outside events. |
| `DecommissionRuns.StuckMeansQuiescent` | internal/agent/tunnel.go:455-501 | The three actors never block one another: if none can move, nothing is in flight. |
| `DecommissionRuns.QuiescentMeansReleasedOnce` | internal/agent/decommission_reply.go:33-70 | With nothing in flight, every owner is closed once, released iff admitted, and the map is empty. |
| `DecommissionRuns.CleanupStartsOnlyForItsOwnConnection` | internal/agent/decommission_reply.go:74-88 | With a live context the cleanup starts, for the connection that is up, its ACK written and nobody else holding the owner. |
| `DecommissionRuns.WrittenAckFindsItsOwner` | internal/agent/tunnel.go:735-749 | While the context is live, a written ACK finds its owner in the map. |
| `DecommissionRuns.AckLeadsToCleanup` | internal/agent/decommission_reply.go:74-88 | If the context was never cancelled, a written ACK has led to cleanup or the writer is about to start it. |
| `DecommissionRuns.LateOwnerIsTakenBack` | internal/agent/decommission_reply.go:111-139 | An owner registered after its connection was drained is found by the second context check and taken back. |
| `TunnelClients.DecommissionReply.Close` | internal/agent/decommission_reply.go:33-42 | Closing runs the release function at most once, and only where one was staged. |
| `TunnelClients.DecommissionReply.DiscardUnlessQueued` | internal/agent/decommission_reply.go:44-48 | Closes the owner exactly when it was not queued. |
| `TunnelClients.TunnelClient.Dispatch` | internal/agent/tunnel_dispatch.go:12-18 | A DECOMMISSION message gets a fresh owner: the machine's Dispatch. |
| `TunnelClients.TunnelClient.Admit` | internal/agent/decommission.go:250-254 | Staging cleanup and release with the owner is the machine's Admit. |
| `TunnelClients.TunnelClient.CloseEarly` | internal/agent/decommission_reply.go:114-117 | After a failed first check the sender closes its owner: the machine's CloseEarly. |
| `TunnelClients.TunnelClient.Register` | internal/agent/decommission_reply.go:118-124 | Puts the owner in the map and marks it queued: the machine's Register. |
| `TunnelClients.TunnelClient.Take` | internal/agent/decommission_reply.go:50-56 | Removes the message from the map and hands out its owner, if any. |
| `TunnelClients.TunnelClient.DiscardOwn` | internal/agent/decommission_reply.go:125-132 | The sender takes its registration back and closes the owner only if it was still in the map: TakeBack and DropClose; all other owners stay. |
| `TunnelClients.TunnelClient.DiscardUnwritten` | internal/agent/tunnel.go:735-745 | After a failed write the writer does the same: TakeUnwritten and DiscardClose. |
| `TunnelClients.TunnelClient.TakeWritten` | internal/agent/decommission_reply.go:74-78 | The writer gets an owner iff the machine now has it holding one: TakeWritten. |
| `TunnelClients.TunnelClient.CloseWritten` | internal/agent/decommission_reply.go:79-88 | The deferred close is the machine's WriterClose. |
| `TunnelClients.TunnelClient.Leave` | internal/agent/tunnel_dispatch.go:14-18 | The deferred discard is the machine's Leave. |
| `TunnelClients.TunnelClient.DiscardReplies` | internal/agent/decommission_reply.go:62-70 | Empties the map and closes exactly the owners that were in it: Drain, a DrainClose each, DrainDone. |
| `TunnelClients.TunnelClient.AtRest` | internal/agent/decommission_reply.go:33-139 | Of the objects themselves: at rest the map is empty and each owner's release ran once if one was staged, else never. |
| `YamlText.EscapeIsOnePass` | deploy/agent/template.go:380-383 | The two replacements equal a one-pass escape of each character. |
| `YamlText.EscapedValueReadsBack` | deploy/agent/template.go:380-383 | An escaped value between quotes reads back as the value, whatever follows, iff it has no line break or control character. |
| `YamlText.EscapeIsInjectiveOnValues` | deploy/agent/template.go:380-383 | Different values have different escapes. |
| `Renderers.RenderResources` | deploy/agent/overrides.go:326-344 | The rendered tree holds, field by field, what is given or else the default. |
| `Renderers.RenderTolerations` | deploy/agent/overrides.go:346-368 | The tree lists the two platform tolerations and then the operator's in order. |
| `Renderers.RenderProxy` | deploy/agent/overrides.go:420-438 | The lines list exactly the set proxy variables, each once, sorted by name, escaped. |
| `OverridesAccepted.PartsDecide` | deploy/agent/overrides.go:121-144 | Any overrides are accepted iff their encoding fits, they hold at most 16 tolerations and 16 terms, and every part would be accepted on its own. |
| `OverridesAccepted.TolerationAcceptedIff` | deploy/agent/overrides.go:146-177 | A toleration alone is accepted iff its key is qualified and not the platform's, and operator, value, effect and seconds fit each other. |
| `OverridesAccepted.RequirementAcceptedIff` | deploy/agent/overrides.go:203-235 | A requirement alone is accepted iff its key is qualified, In and NotIn have 1 to 32 values, Exists and DoesNotExist none, Gt and Lt one number, and every value is short. |
| `OverridesAccepted.TermAcceptedIff` | deploy/agent/overrides.go:203-235 | A term alone is accepted iff it has 1 to 64 requirements, each accepted. |
| `OverridesAccepted.PreferredAcceptedIff` | deploy/agent/overrides.go:179-201 | A preference alone is accepted iff its weight is 1 to 100 and its term is accepted. |
| `OverridesAccepted.ResourcesAcceptedIff` | deploy/agent/overrides.go:237-278 | Resources alone are accepted iff every side is absent or a short positive quantity and no given request exceeds its given limit. |
| `OverridesAccepted.ProxyAcceptedIff` | deploy/agent/overrides.go:280-306 | A proxy alone is accepted iff its URLs are bare and short and its trimmed exemptions hold the allowed characters only. |
| `PodSpecs.CompactEnv` | deploy/agent/overrides.go:506-511 | In-place compaction leaves exactly the other variables, in order, with multiplicity. |
| `PodSpecs.BuildTolerations` | deploy/agent/overrides.go:476-489 | The rebuilt list is the platform tolerations followed by the operator's with the default operator filled in. |
| `PodSpecs.ApplyToPodSpec` | deploy/agent/overrides.go:449-521 | Succeeds iff spec, index and overrides are acceptable; on error nothing changes; on success the pod gets its effective value, with the other containers as they were. |
| `OverridesAgree.TolerationsAgree` | deploy/agent/overrides.go:346-368 | The rendered tolerations, read back, are the applied list in the same order. |
| `OverridesAgree.AffinityAgrees` | deploy/agent/overrides.go:370-418 | The rendered affinity, read back, is the applied one. |
| `OverridesAgree.ResourcesAgree` | deploy/agent/overrides.go:326-344 | For accepted overrides the rendered resources, read back, are the applied ones. |
| `OverridesAgree.ProxyAgrees` | deploy/agent/overrides.go:420-438 | Each rendered proxy value reads back as the applied value of that name iff that value has no control character. |
| `OverridesAgree.ProxyNamesAgree` | deploy/agent/overrides.go:420-438 | The rendered lines name exactly the applied proxy variables. |
| `OverridesLaws.AppliedKeepsForeignVariables` | deploy/agent/overrides.go:504-519 | Applying keeps all other variables with order and multiplicity. |
| `OverridesLaws.ForeignVariablesStay` | deploy/agent/overrides.go:505-511 | Filtering keeps every variable but HTTP_PROXY, HTTPS_PROXY and NO_PROXY exactly as often, and none of those. |
| `OverridesLaws.LastWriterWins` | deploy/agent/overrides.go:457-520 | For the container: what was applied before leaves no trace. |
| `OverridesLaws.LastPodWins` | deploy/agent/overrides.go:449-521 | For the whole pod, with tolerations and affinity: what was applied before leaves no trace; the same overrides again change nothing. |
| `OverridesLaws.SequenceEndsInLast` | deploy/agent/overrides.go:449-521 | After any sequence of accepted overrides only the last is in force, throughout the pod. |
| `OverridesLaws.PlatformTolerationsOnce` | deploy/agent/overrides.go:146-177 | For accepted overrides each platform key occurs exactly once, at the front. |
| `OverridesLaws.AppliedTolerations` | deploy/agent/overrides.go:476-489 | The platform tolerations in full, then each of the operator's with Equal where no operator is given. |
| `OverridesLaws.AppliedQuantities` | deploy/agent/overrides.go:456-475 | The four quantities are the given ones, or else 100m, 128Mi, 500m and 512Mi. |
| `OverridesLaws.AppliedProxy` | deploy/agent/overrides.go:512-518 | Each proxy variable has its own value where that is set, and there is no other. |
| `OverridesLaws.RequestsWithinLimitsIff` | deploy/agent/overrides.go:237-264 | Effective request is at most effective limit iff, where only one side is given, it fits the other side's default. |
| `OverridesLaws.LoneRequestCanExceedLimit` | deploy/agent/overrides.go:237-264 | Every accepted lone CPU request above the default limit ends above the limit. |
| `OverridesLaws.ControlCharacterPasses` | deploy/agent/overrides.go:296-304 | Every valid `no_proxy` entry followed by a vertical tab is accepted, applied as it is, and rendered to a line that does not read back as it. |
| `Paths.SegmentsOfPathOf` | deploy/bundles/embed.go:128-134 | Plain segments, spelled as a path and cleaned again, come back. |
| `Paths.DotSegmentsVanish` | deploy/bundles/embed.go:128-134 | A `.` segment, a name undone by `..` and a trailing slash change nothing. |
| `Paths.ParentOfRoot` | deploy/bundles/embed.go:128-134 | A `..` at the root changes nothing. |
| `SourceIdentity.SpelledIdentity` | deploy/bundles/embed.go:99-140 | What normalising makes of any spelling of scheme, host, port and path: refusal or the lower-case host, the port without 443, and the resolved segments. |
| `SourceIdentity.NormalizeIsIdempotent` | deploy/bundles/embed.go:99-140 | A normal form is accepted and is its own normal form. |
| `SourceIdentity.NormalFormsAreIdentities` | deploy/bundles/embed.go:95-140 | Two accepted URLs get one form iff they have one host, port and path. |
| `SourceIdentity.NormalFormIff` | deploy/bundles/embed.go:95-140 | A URL is its own normal form iff it is the printed form of an identity. |
| `SourceIdentity.SpellingsMerge` | deploy/bundles/embed.go:99-140 | Accepted spellings that differ in scheme or host case, port 443 or an empty port, dot segments or a trailing slash get one form. |
| `SourceHosts.HostsMergeIff` | deploy/bundles/embed.go:110-110 | Accepted URLs that differ in an ASCII host name only get one form iff the names are equal letter by letter up to case. |
| `SourceHosts.PublicHostIff` | deploy/bundles/embed.go:110-114 | A name is public iff it is two or more DNS labels, no address, and not under `local` or `internal`. |
| `SourceHosts.PortIff` | deploy/bundles/embed.go:115-124 | The decimal form of a number is a port iff the number is from 1 to 65535. |
| `SourceSpellings.AcceptedIff` | deploy/bundles/embed.go:95-140 | A text is accepted iff it is trimmed, at most 2048 bytes and spells an `https` scheme, a public host, a port from 1 to 65535 or none, and a path of plain characters without double slashes, followed by an empty fragment at most. |
| `SourceSpellings.AcceptedIsSpelling` | deploy/bundles/embed.go:99-127 | No accepted text has a query, user information or a fragment. |
| `SourceSpellings.PathCharIff` | deploy/bundles/embed.go:125-127 | The characters a path may hold are letters, digits and the marks that URL escaping leaves alone. |
| `SourceSpellings.DoubleSlashRefused` | deploy/bundles/embed.go:125-127 | Two slashes in a row are refused wherever they stand in the path. |
| `SourceSpellings.EmptyFragment` | deploy/bundles/embed.go:106-109 | The mark of an empty fragment changes nothing. |
| `SourceMirrors.NormalFormIsMirrorIff` | deploy/bundles/mirrors.go:14-41 | A normal form is accepted unchanged as mirror URL iff its port has no leading zero. |
| `SourceMirrors.MirrorIff` | deploy/bundles/mirrors.go:14-41 | A text is a mirror URL iff it is the print of a lower-case host with no port, an empty one or a decimal one other than 443, and plain segments. |
| `SourceMirrors.OciIff` | deploy/bundles/mirrors.go:43-55 | A text is an OCI source iff it is `oci://`, a mirror host and at least one plain segment; it is returned unchanged. |
| `SourceMirrors.MirrorSpellingsAgreeIff` | deploy/bundles/mirrors.go:14-41 | Two mirror URLs of one endpoint are equal iff both or neither has the colon of an empty port. |
| `SourceMirrors.MirrorHasTwoSpellings` | deploy/bundles/mirrors.go:14-41 | Every mirror URL with a host name and no port is also accepted with the colon of an empty port. |
| `Catalogs.CheckImages` | deploy/bundles/embed.go:184-193 | Accepts iff every image matches the pattern and none repeats. |
| `Catalogs.CheckCapabilities` | deploy/bundles/embed.go:198-204 | Sorting and comparing neighbours accepts iff no capability repeats. |
| `Catalogs.CheckComponent` | deploy/bundles/embed.go:148-205 | One round accepts iff the component is sound, its slug is new and its artifact does not conflict. |
| `Catalogs.Validate` | deploy/bundles/embed.go:142-207 | Accepts iff metadata and components are sound, slugs differ, and equal artifact keys have equal digests. |
| `CatalogFields.SingleAcceptedIff` | deploy/bundles/embed.go:142-207 | A catalog of one component is accepted iff every field, written out, meets its rule and the URL is canonical for its kind. |
| `CatalogFields.AcceptedComponents` | deploy/bundles/embed.go:148-205 | Every component of an accepted catalog is acceptable alone. |
| `CatalogLaws.CanonicalUrlHoldsNoNul` | deploy/bundles/mirrors.go:14-55 | Every canonical source URL, public, mirror or OCI, holds no NUL and so cannot blur an artifact key. |
| `CatalogLaws.AcceptedBindsReleases` | deploy/bundles/embed.go:174-183 | In every accepted catalog, repository, chart and version of HTTP sources determine the digest. |
| `CatalogLaws.AcceptedIff` | deploy/bundles/embed.go:142-207 | With unambiguous names of HTTP sources, and any names of OCI subjects: accepted iff sound, with differing slugs and bound releases. |
| `CatalogLaws.KeyNamesOneReleaseIff` | deploy/bundles/embed.go:174-179 | The key of an HTTP source is shared by no other release and no OCI subject iff its chart has no NUL after the first character and its version none before the last. |
| `CatalogLaws.RivalIsRefused` | deploy/bundles/embed.go:174-183 | For every sound component with ambiguous names there is a consistent two-component catalog that is refused. |
| `CatalogLaws.JudgedRightIff` | deploy/bundles/embed.go:142-207 | A sound HTTP component is judged right beside every other component iff its names are unambiguous. |
| `Inventories.BuildInventory` | cmd/release-assets/main.go:205-272 | Succeeds iff every image has the release platforms; the result is the images by first use, each with its components in order. |
| `Inventories.EachUseOnce` | cmd/release-assets/main.go:247-271 | For an accepted catalog an image lists a component exactly once if that uses it, and otherwise never. |
| `Inventories.NoOtherWorkloads` | cmd/release-assets/main.go:247-271 | A text that is no component's slug is listed by no image. |
| `Inventories.ReferencesAreFirstUses` | cmd/release-assets/main.go:247-271 | References are distinct, cover every use and are ordered by first use. |
| `Archives.WriteBom` | cmd/release-assets/main.go:288-306 | The BOM lists every member exactly once, sorted, with its own digest and size and the category its path stands for. |
| `Archives.WriteArchive` | cmd/release-assets/main.go:153-178 | The entries are the members, each once, sorted by name. |
| `Archives.OutputIsDetermined` | cmd/release-assets/main.go:153-306 | Neither BOM nor archive depends on the order in which a map yields its members. |
| `Archives.ReadMembers` | internal/delivery/distribution/archive.go:105-132 | Reading succeeds iff no name repeats and yields the entries as a map. |
| `Archives.CheckBom` | internal/delivery/distribution/contract.go:74-82 | Accepts iff every member is sound, none is the BOM itself and no path repeats. |
| `Archives.SoundBomIff` | internal/delivery/distribution/contract.go:74-82 | A BOM is sound iff each member is, none is named `bom.json` and paths differ pairwise. |
| `Archives.CheckClosed` | internal/delivery/distribution/archive.go:46-71 | Accepts iff the BOM is sound, the count is one more, and every listed member matches size and digest. |
| `Archives.TamperedIsRefused` | internal/delivery/distribution/archive.go:62-71 | A member of another size or digest than listed is refused, whatever the rest. |
| `Archives.CountingCloses` | internal/delivery/distribution/archive.go:58-71 | The counting check passes iff the archive holds the BOM, exactly what it lists, and nothing else. |
| `Archives.ProducedBundleIsClosed` | cmd/release-assets/main.go:288-317 | A produced bundle unpacks to its own members and passes the reader's closing check. |
| `ImageRefs.CanonicalCommutes` | cmd/release-assets/main.go:489-516 | Completing a source and dropping its tag commute, for every text. |
| `ImageRefs.CanonicalIsIdempotent` | cmd/release-assets/main.go:563-571 | Completing a repository twice is completing it once. |
| `ImageRefs.BothBranchesAgree` | cmd/release-assets/main.go:489-516 | Pinned and unpinned sources are recorded under the same canonical repository and differ in the digest only. |
| `ImageLaws.LibraryImageRecorded` | cmd/release-assets/main.go:496-513 | `name:tag` is recorded as `docker.io/library/name@digest`. |
| `ImageLaws.OwnedImageRecorded` | cmd/release-assets/main.go:496-513 | `owner/name:tag`, the owner no registry, is recorded as `docker.io/owner/name@digest`. |
| `ImageLaws.OwnedNameIsDocker` | cmd/release-assets/main.go:563-571 | A first segment with a dot or colon is a registry and stays; any other gets `docker.io/` in front. |
| `ImageLaws.PinnedSourceRecorded` | cmd/release-assets/main.go:514-516 | A pinned source keeps its own digest, whatever its tag. |
| `ImageLaws.FirstPartyReplaced` | cmd/release-assets/main.go:490-495 | A first-party repository is replaced by its own reference, whatever the tag. |
| `ImageLaws.ParseUndoesPrint` | internal/agent/upgrade_image.go:49-137 | A printed reference parses to itself. |
| `ImageLaws.PrintUndoesParse` | internal/agent/upgrade_image.go:49-137 | An accepted text is, up to surrounding space, the print of its reference, which is well formed. |
| `ImageLaws.AcceptedIff` | internal/agent/upgrade_image.go:79-137 | The parser accepts exactly the prints of well-formed references. |
| `ImageLaws.ReferenceIff` | internal/agent/upgrade_image.go:93-136 | The references returned, with tag and digest described character by character. |
| `ImageLaws.RepositoryIff` | internal/agent/upgrade_image.go:112-132 | A repository is parts joined by slashes, the first with an optional port of one to five digits, without two dots in a row. |
| `ImageLaws.RendererUndoesPrinting` | deploy/agent/template.go:222-233 | The renderer's cut undoes printing for every repository without a tag of its own, any tag, any digest. |
| `ImageLaws.AgentAgreesWithRenderer` | internal/agent/upgrade_image.go:164-179 | Whenever the agent can tell a repository, it is the one the renderer wrote. |
| `ImageLaws.DeliveryAgreesIff` | internal/agent/delivery/system.go:414-422 | The delivery agent's cut agrees with the parser iff a reference does not have both tag and digest. |
| `Fingerprints.FingerprintAllowlist` | cmd/agent/main.go:454-473 | Returns the trimmed entries that are not blank at their first occurrence, from the keyring or else the legacy value. |
| `Fingerprints.KeptIsCanonical` | cmd/agent/main.go:459-472 | The list holds exactly those entries, each once, in order of first occurrence. |
| `Fingerprints.ReadingBackIff` | cmd/agent/main.go:454-473 | Joined by commas and read again a nonempty list comes back iff the keyring was not blank or the trimmed legacy value has no comma. |
| `Controllers.ReadControllers` | deploy/flux/embed.go:85-99 | Succeeds iff all entries are sound and name three components; the result is the map they fill, later entries winning. |
| `Controllers.EntryIff` | deploy/flux/embed.go:87-91 | An entry is sound iff it names a component, a SHA-256 digest, and a tagged reference or a plain name. |
| `Controllers.ControllerParts` | deploy/flux/embed.go:92-95 | The reference of an identity is a stem, a colon and the version. |
| `Controllers.EntriesInAnyOrder` | deploy/flux/embed.go:85-96 | Reordering entries with distinct components changes neither the verdict nor the map. |
| `Controllers.DigestInput` | deploy/flux/embed.go:55-67 | The hashed text is the same for every order in which the map yields its names. |
| `Controllers.DigestForgetsOrder` | deploy/flux/embed.go:51-67 | Reordered entries with distinct components give the same text. |
| `Controllers.DigestTextCommits` | deploy/flux/embed.go:51-65 | A set of identities without line breaks shares its text with no other set of the same size. |

## Left out

- Ill-typed keyword values in schemas (a `properties` that is no object, a `$ref` that is no string) and a `$ref`
  without a slash: the generator raises on some of them; the model reads them as absent.
- JavaScript object peculiarities in the response check, such as a field named `__proto__`.
- Regular-expression scraping of Go and SQL text, and the overlay and generated file text of the contract generator: the
  action matrix starts from the scraped relations and the inverted symbol table.
- Handler panics, the thirty-second cleanup timeout, and priorities between the control and data queues: a send either
  queues the ACK or fails.
- TunnelClients.TunnelClient.DiscardReplies: drains and closes in one call; the step system has the single steps and covers
  every interleaving in between. The same holds for the two discards. Messages are told apart by number.
- Kubernetes quantity parsing and qualified names, the proxy URL check and the size of the JSON encoding: parameters of
  the overrides model (`Platform`), of which only the default quantities are fixed.
- The printed YAML text around values: renderers are modelled up to the tree, proxy values up to the escaped scalar.
- `net.ParseIP` and the patterns for releases and images in catalogs: parameters. `url.Parse` is modelled as far
  as its callers look: everything but an `https` URL with an authority is one refusal, and error texts are dropped.
- Lower-casing beyond the letters that can end up in an accepted host name.
- Invalid UTF-8: texts are sequences of Unicode characters.
- Archive size and member-count bounds, tar, gzip, SHA-256 and JSON encoding: digests and encoders are parameters, and an
  archive is its list of entries. The rules for one BOM member (path, pattern, category, size) are one parameter.
- Archives.CheckClosed: the checks around the member loop (decoding the BOM, its total size and profiles, chart archives,
  the catalog digest and asset declarations) are left out.
- Archives.ReadMembers: path safety and the size bounds of single entries are left out; repetition is what it decides.
- Inventories.BuildInventory: chart pulls, database members and registry calls of the same loop are left out; the
  platform check of an image is a parameter.
- Controllers.DigestTextCommits: stated where one of the two sets holds no line break; SHA-256 itself is left out.
- `validateAgentImage`'s policy, `rehostImages`, `cmd/astro`, the server and worker processes
  and the frontend apart from the response check: wiring, or easy members.
