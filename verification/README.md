# Synchronizer: a verified model

The synchronizer keeps a copy of a cluster's objects on a server. The in-cluster client turns watch
events into messages (checksum, put, patch, delete), and the server answers with a get request when it
misses something. Patches are diffs against the client's *shadow*, its guess of what the server
stores; the server applies a patch only if the result has the checksum that the client announced, and
otherwise sends its own object back as the new base. Each reply is one level deeper than the message
it answers, and a message deeper than 8 is dropped.

This project models that protocol, the adapters on both sides, the receive loop between them, and the
mechanisms around them (cooldown queue, conflict retry, masking, string keys, the backend's registry
of connections), and proves what whole runs of them do. `dafny verify dfyconfig.toml` checks all of it.

## How it is organised

- `JsonMerge`, `Versions`: JSON values, merge patch as in section 2 of RFC 7396, the diff, resource
  versions and the "only the version changed" patch. The laws of merge and diff are proved.
- `Protocol`: what each side does with one message about one key. Every handler touches only the
  object that the message is about, so the rules are stated for one key; `World` puts the keys together.
- `Exchange`, `Downstream`: one exchange until nobody answers.
- `Histories`: events, growing versions, what an object and a message bring. `Coalescing`, `Cooldown`:
  histories whose exchanges settle one after the other, and what coalescing them changes.
- `Overlap`, `EventualConsistency`, `WholeCluster`, `Recreation`: exchanges that overlap in any way over a
  link that is ordered and loses nothing, while the cluster moves on and events wait.
- `ShadowPrediction`: changes and deletions over such a link, where the server never has to ask.
- `Integrity`, `ServerHistory`, `Redelivery`: messages that are lost, reordered and delivered again.
- `Batches`, `MockAdapter`, `InClusterClient`, `Packets`, `Synchronizer`: the adapters as classes, each
  method proved against the rules above; batches; the depth guard; termination. `BatchOrder` and
  `PacketEffects` tie batches and packets to the rules for one key, on both sides, and `NetRuns` ties the runs
  over the link to those over the bad network.
- `Reconciliation`, `Registry`, `ConflictRetry`, `Masking`, `Keys`: the rest.

## Results worth knowing

- **Whole runs.** The cluster changes at any time, events wait, override each other and are handled late, keys
  are reconciled, and a get request is answered from what the cluster holds at that moment, which may be ahead of
  the events. For every such run, with all three kinds of event, `EventualConsistency.EveryRunSettlesIff` says by
  the state in which the last event is handled whether the server ends with the cluster's content; every order
  of the remaining deliveries ends alike. `WholeCluster.KeyIsReplicatedIff` lifts this to all keys. The end is
  good unless the last event is a change that the client skips while the server has other content, or the
  server lacks the object and will get no whole copy.
- **Without deletions** the server therefore always catches up if the client sends anything for the last
  event (`EventualConsistency.ServerCatchesUp`), and coalescing events, however exchanges overlap, changes
  nothing under conditions that the client sees (`WholeCluster.CoalescingOfSentChanges`).
- **Skipped changes** are the danger. If exchanges settle one after the other, the client could tell:
  content is lost exactly by a change that is older than the shadow and is not skipped
  (`Coalescing.FreshnessIsExact`, `Coalescing.OlderChangeLosesContent`), and with fresh changes feeding the
  client only what the cooldown queue lets through ends with the same server store as feeding it every event
  (`Cooldown.CooldownPreservesMeaning`; without any condition if the client keeps up with the queue,
  `Cooldown.PromptCooldownPreservesMeaning`). When exchanges overlap this is not enough: a late answer that is
  skipped against an old base makes that base the shadow, and a fresh change is skipped against it
  (`EventualConsistency.FreshChangesLoseContent`).
- **Deleted and created anew.** While the event of the new object waits, an old question may be answered from
  it, and the object then stays missing on the server although nothing was lost (`Overlap.DeadlockIsForever`).
  It always arrives if and only if the first question the client will still read asks for a copy, whether the
  event is an addition or a change (`Recreation.RecreationSettlesIff`). Reconciliation, which drops the shadow,
  brings a missing object to the server under exactly the same condition, so not while an old question is
  still under way (`Recreation.ReconciliationSettlesIff`, `Recreation.ReconciliationCanFail`).
- **Reconciliation** with nothing but its own messages under way mirrors the cluster if and only if the server had some object or there is none to
  announce: a batch without items is refused, so an empty server stays empty
  (`Reconciliation.ReconciliationRepairsReplica`, `Reconciliation.EmptyServerStaysEmpty`).
- **Duplicates.** A single message delivered twice does no harm. A batch can, since its patches are
  tried before its puts; `Redelivery.DuplicateBatchHarmlessIff` says exactly when it does not.
- **Explicit nulls.** Diffs cannot carry new nulls; merging a diff gives the new object if and only if
  every null of it was there before (`JsonMerge.MergeOfDiff`).
- **The unanchored expression.** The expression for "only the resource version changed" also matches an
  object deeper in a patch, so a real change can be skipped. The comment beside it promises the whole
  patch; the model follows the code, shows a lost change and says exactly which skipped patches are
  harmless (`Versions.SkippedPatchIsHarmlessIff`).

## What is assumed

- Documents are well-formed JSON objects, and cluster objects are in the form in which the client
  renders them. The canonical hash, the readability of metadata and the API server's answer to a write
  are parameters (`Protocol.Env`); a lemma that needs the hash to be free of collisions says so.
- `Regular` objects have no explicit null, have a name, and have no second `metadata.resourceVersion`
  inside. Lemmas that need this say so; the general forms, up to nulls, are stated beside them, and
  `ShadowPrediction` covers changes with nulls that a diff against the shadow carries.
- `Reconciliation` looks at one reconciliation with nothing but its own messages under way, a listing that is
  the cluster and a batch that names exactly the server's keys. With other messages under way, reconciling a key
  is a step of the runs in `EventualConsistency` and `WholeCluster`, where the listed object is the live one.
- Versions grow with every change in the cluster, also across a deletion, as the API server assigns them.
- Handlers are atomic. When the cluster changes, when an event is handled, and in which order messages
  arrive are separate and explicit in each state machine.
- Object keys are the strings that identify objects; `Keys` proves that they do.

## Model

| member | source | states |
|---|---|---|
| `JsonMerge.MergeOfDiff` | adapters/incluster/v1/client.go:309-322 | merging a diff onto its base gives the new object if and only if every null of the new object was at the same path in the base; always for null-free objects |
| `JsonMerge.MergeOfDiffUpToNulls` | adapters/incluster/v1/client.go:309-322 | for all bases and objects, merging the diff gives the new object up to null members |
| `JsonMerge.MergeIdempotent` | adapters/mock.go:152 | applying a merge patch a second time changes nothing, for all targets and patches |
| `JsonMerge.DiffEmptyIffEqual` | adapters/incluster/v1/client.go:310 | the diff is empty exactly for equal objects |
| `JsonMerge.ExplicitNullIsLost` | adapters/incluster/v1/client.go:318-324 | a new explicit null does not survive diff and merge, which is why the merge result is hashed |
| `JsonMerge.MergedMember` | adapters/mock.go:152 | each member of a merge result, as section 2 of RFC 7396 gives it: from the target, removed by null, merged as an object, or replaced |
| `JsonMerge.MemberExamples` | adapters/mock.go:152 | examples of appendix A of RFC 7396: members added and removed |
| `JsonMerge.ReplacementExamples` | adapters/mock.go:152 | examples of appendix A of RFC 7396: values and arrays replaced as a whole |
| `JsonMerge.NestedExample` | adapters/mock.go:152 | example of appendix A of RFC 7396: nested objects merged |
| `JsonMerge.NewObjectExample` | adapters/mock.go:152 | example of appendix A of RFC 7396: nulls of a new object dropped |
| `Versions.AtoiIff` | utils/utils.go:241-251 | a version is read as v exactly if it writes v in decimal, with or without a sign and with any zeros in front, and v fits into 64 bits |
| `Versions.BiggerIsNumeric` | utils/utils.go:241-251 | decimal writings of numbers in range are compared as the numbers they denote |
| `Versions.TenIsBiggerThanNine` | domain/identifiers.go:58-64 | 10 is bigger than 9, and what is no number reads as version 0 |
| `Versions.VersionIsReadAndErased` | adapters/mock.go:177-182 | the version is what stands at metadata.resourceVersion, and replacing it leaves the content the same |
| `Versions.SameUpToVersionIff` | adapters/incluster/v1/client.go:58 | two objects have the same content exactly if everything else is equal |
| `Versions.EmptyPatchExamples` | adapters/incluster/v1/client.go:58 | a patch that the expression matches, and three that it does not |
| `Versions.EmptyPatchInArray` | adapters/incluster/v1/client.go:58 | it also matches inside an array |
| `Versions.MergeOfDiffVersion` | adapters/incluster/v1/client.go:309-322 | a diff always carries the resource version over, nulls or not |
| `Versions.SkippedPatchIsOnlyVersion` | adapters/incluster/v1/client.go:314-317 | for objects with no second version inside, exactly the patches that hold only the version are skipped |
| `Versions.OnlyVersionPatchKeepsContent` | adapters/incluster/v1/client.go:314-317 | objects whose diff holds only the version are equal up to it |
| `Versions.SkippedPatchIsHarmlessIff` | adapters/incluster/v1/client.go:314-317 | a skipped patch loses nothing but the version if and only if the expression matches the whole patch |
| `Versions.SkippedPatchCanLoseContent` | adapters/incluster/v1/client.go:58 | a concrete change that the unanchored expression skips although content differs |
| `Protocol.AppliedPatch` | adapters/incluster/v1/client.go:309-322 | the result of a patch on its own base has the new object's version and content, up to nulls |
| `Protocol.AnnouncedChecksum` | adapters/incluster/v1/client.go:362-377 | the checksum of an object is the one in its annotation, and its hash without such an annotation |
| `Protocol.ChecksumIsSilentIff` | adapters/mock.go:204-226 | on both sides a checksum meets silence exactly when the very object is held |
| `Protocol.FailsIff` | adapters/incluster/v1/client.go:379-480 | a handler fails exactly when it is asked for an object that is not there or the cluster refuses the change |
| `Exchange.ExchangeShape` | core/synchronizer.go:267-279 | message i of an exchange is i levels deeper, sides alternate, and the number of messages is bounded by the remaining depth |
| `Exchange.SettleDepth` | core/synchronizer.go:24 | no exchange started by an event puts anything deeper than 9 on the wire, nor more than 9 messages |
| `Exchange.PingPongWithoutGuard` | core/synchronizer.go:266-276 | without the guard, get and patch answer each other forever for an object the server lacks and the client has any shadow of, if and only if the first answer is not skipped |
| `Exchange.MissingObjectRepair` | adapters/incluster/v1/client.go:302-347 | a checksum for a missing object ends with a full copy stored exactly when the client has no shadow (or sends copies anyway) and the message is at most 6 deep; the messages are verify, get, put |
| `Exchange.StuckStaysUnstored` | adapters/mock.go:147-151 | with a shadow on the client and nothing on the server, the exchange ends unstored |
| `Exchange.AnswerToBase` | adapters/incluster/v1/client.go:388-402 | answering a get with the server's base brings the server up to date in one patch, or nothing is needed but the version |
| `Exchange.StaleShadowConverges` | adapters/incluster/v1/client.go:302-347 | from any server object and any shadow, a newer change to the object the cluster holds that is sent settles in at most three messages with that object on the server |
| `Downstream.GetBringsCopy` | adapters/mock.go:103-136 | a get request brings the server's content to the cluster; only metadata is merged |
| `Downstream.ChecksumBringsCopy` | adapters/incluster/v1/client.go:509-544 | a checksum from the server ends with its content in the cluster, in one message when they agree and in three otherwise |
| `Downstream.PatchBringsContent` | adapters/incluster/v1/client.go:404-442 | a patch from the server against any base settles in at most three messages with its content in the cluster |
| `Downstream.DeletionForgetsShadow` | adapters/incluster/v1/client.go:379-386 | after a deletion from the server, the next change goes up as a full copy |
| `Downstream.CopyClientAsks` | adapters/incluster/v1/client.go:413-416 | a client that sends whole copies takes no patch and asks instead |
| `Downstream.RefusedWriteAsks` | adapters/incluster/v1/client.go:438-441 | a fitting patch that the cluster refuses leaves the object alone and asks, with the shadow already moved |
| `Histories.SentLeadsTo` | adapters/incluster/v1/client.go:302-347 | what put-or-patch sends is a copy of the object or a patch with its checksum; it is silent only about what is known but for the version |
| `Histories.ServerTakesOrAsks` | adapters/mock.go:138-171 | brought an object no older than its own, the server stores it or asks with its own as the base; it never stores anything else |
| `Coalescing.SettledEvent` | adapters/incluster/v1/client.go:140-196 | an event of any kind, handled while the cluster may be ahead, settles with both sides in agreement if the change is fresh; if the cluster is not ahead, with its content on the server |
| `Coalescing.FreshnessIsExact` | adapters/incluster/v1/client.go:302-347 | where both sides agree and exchanges settle one after the other, the next version with the same content gets to the server after a change was handled if and only if that change was skipped or not older than the shadow |
| `Coalescing.OlderChangeLosesContent` | adapters/incluster/v1/client.go:388-402 | with no deletion and no overlap: a question answered from a later object, an older change handled after it, and a last change that is skipped leave other content on the server |
| `Coalescing.LastEventDecides` | adapters/incluster/v1/client.go:140-196 | after any history of fresh changes, additions and deletions that catches up with the cluster, the server holds what the last event said, up to the version |
| `Coalescing.PromptIsValid` | adapters/incluster/v1/client.go:140-196 | if each event is handled while the cluster still holds its object, every change is fresh |
| `Coalescing.SettleWorldAt` | adapters/incluster/v1/client.go:140-196 | seen from one key, a history of the whole cluster is the history of that key |
| `Coalescing.CoalescingPreservesMeaning` | utils/cooldownqueue.go:17-21 | two such histories with the same last event on every key leave the same server store, up to versions, however far the cluster was ahead |
| `ShadowPrediction.EventKeepsPrediction` | adapters/incluster/v1/client.go:170-194 | a change whose nulls the diff carries, or a deletion, keeps the shadow equal to what the server will store after everything in flight |
| `ShadowPrediction.GrowingIsCarried` | adapters/incluster/v1/client.go:302-347 | histories of objects without nulls are of that kind |
| `ShadowPrediction.PredictionSurvivesIffDiffable` | adapters/incluster/v1/client.go:302-347 | a change with nulls keeps that prediction if and only if the diff can carry them |
| `ShadowPrediction.ShadowPredictsServer` | adapters/incluster/v1/client.go:302-347 | in every interleaving of changes, deletions and arrivals the server never asks, every patch in flight will be accepted, and every shadow is what will be stored |
| `ShadowPrediction.DrainedLinkReflectsLastEvents` | adapters/incluster/v1/client.go:140-196 | once drained, each key of a history of changes and deletions holds what its last event said; histories with additions are covered by `WholeCluster.KeyIsReplicatedIff` |
| `Overlap.DeadlockIsForever` | adapters/mock.go:147-151 | an object missing on the server with a shadow on the client and no copy under way never arrives, whatever is delivered, added or changed, until a deletion is handled or the key is reconciled |
| `Overlap.UpCommutes` | core/synchronizer.go:231-448 | an arrival at the server commutes with everything that happens in the cluster and at the client |
| `Overlap.Drains` | core/synchronizer.go:266-276 | from every state some order of deliveries leaves nothing under way |
| `EventualConsistency.RoundReaches` | adapters/incluster/v1/client.go:388-402 | answering the oldest question and delivering the answer does not change where deliveries lead |
| `EventualConsistency.DrainedIff` | adapters/incluster/v1/client.go:302-347 | from any state of both sides and the queues, every order of deliveries ends alike: with the cluster's content exactly if it is there once the reports have arrived, or a question under way will still bring it |
| `EventualConsistency.LastReportIff` | adapters/incluster/v1/client.go:140-196 | whether handling an event leads to the cluster's content, by guards on the state before: deletions always, otherwise unless a skipped change is not there or a missing object is not sent or asked for whole |
| `EventualConsistency.RepairIff` | adapters/incluster/v1/client.go:647-740 | whether reconciling a key with anything under way leads to the cluster's content, by guards on the state before: a deletion or copy if it gets through, a checksum if the server can still ask, or will first ask for a copy |
| `EventualConsistency.RunStaysTidy` | adapters/incluster/v1/client.go:140-196 | in every run, the last waiting event is the cluster's latest and nothing that waits or will be stored is newer |
| `EventualConsistency.EveryRunSettlesIff` | adapters/incluster/v1/client.go:140-196 | every run of changes, overrides, late handling, reconciliation and deliveries, with all kinds of events, ends with the cluster's content on the server if and only if handling the last event was safe |
| `EventualConsistency.ServerCatchesUp` | adapters/incluster/v1/client.go:140-196 | if no deletion was handled or sent before, the run ends with the cluster's content on the server if and only if the client sends something for the last event, or its content is there or asked for |
| `EventualConsistency.FreshChangesLoseContent` | adapters/incluster/v1/client.go:302-347 | overlapping exchanges, no deletion, every change fresh: a late answer skipped against an old base, and a last change skipped against it, leave other content on the server |
| `WholeCluster.PerformAt` | core/synchronizer.go:231-448 | on one link for all keys, a step concerns one key and leaves the others alone |
| `WholeCluster.KeyIsReplicatedIff` | adapters/incluster/v1/client.go:140-196 | a finished run of the whole cluster leaves a key's content on the server if and only if the last handling or reconciling of that key was safe |
| `WholeCluster.CoalescingOverTheLink` | utils/cooldownqueue.go:17-21 | two finished safe runs, with all kinds of events, in which the same happened last to every key leave the same server store, up to versions |
| `WholeCluster.CoalescingOfSentChanges` | utils/cooldownqueue.go:17-21 | if the client handles and sends no deletion and sends something for the last event of every key, two finished runs in which the same happened last leave the same server store, the cluster's, up to versions, however exchanges overlap |
| `WholeCluster.ActionIsRepair` | adapters/incluster/v1/client.go:645-740 | the action of a key in a reconciliation is the reconciling step of the runs |
| `WholeCluster.QueueOverrides` | utils/cooldownqueue.go:62-68 | what the cooldown queue holds for a key is what waits for it in the runs: a later event overrides |
| `Recreation.DeletionLeavesGone` | adapters/incluster/v1/client.go:170-179 | in any state of the queues, handling a deletion makes sure that the server will have nothing; it lasts while the object is away |
| `Recreation.DeletedObjectIsForgotten` | adapters/incluster/v1/client.go:170-179 | deliveries alone then end with nothing stored |
| `Recreation.OverlappingExchangesLoseObject` | adapters/incluster/v1/client.go:159-179 | from an agreeing state, seen again, deleted and created anew while the server asks: a state in which an old question comes first |
| `Recreation.RecreationCanFail` | adapters/incluster/v1/client.go:302-347 | in such a state some order of deliveries loses the new object, be it seen as an addition or as a change |
| `Recreation.RecreationSettlesIff` | adapters/incluster/v1/client.go:159-194 | the new object always gets to the server, however late its event is handled, if and only if the first question the client will still read asks for a copy |
| `Recreation.ReconciliationSettlesIff` | adapters/incluster/v1/client.go:706-740 | dropping the shadow and announcing a missing object, with anything under way, gets it to the server in every order of deliveries if and only if the first question the client will still read asks for a copy |
| `Recreation.ReconciliationCanFail` | adapters/incluster/v1/client.go:736-739 | it ends a deadlock with nothing under way, and does not end one with an old question under way |
| `Recreation.RecreationAfterChangesSettles` | adapters/incluster/v1/client.go:140-196 | a key of which only changes and deletions were handled before always comes back |
| `Integrity.StepIsSound` | adapters/mock.go:147-166 | every step over a bad network keeps stored objects and sent messages genuine |
| `Integrity.RunIsSound` | adapters/mock.go:147-166 | so does every run |
| `Integrity.ServerStoresOnlyRealVersions` | adapters/mock.go:147-166 | with loss, duplication and reordering, each stored object is the initial one or a version the cluster held for that key, up to nulls |
| `NetRuns.StepIsCovered` | adapters/incluster/v1/client.go:140-196 | each step of the whole cluster over the link is an enabled action of the bad network with the same effect on every key, or nothing to it |
| `NetRuns.LinkStoresOnlyRealVersions` | adapters/mock.go:147-166 | in every run over the link, each object on the server was there from the start or was held by the cluster at some time, up to nulls |
| `ServerHistory.VersionsNeverGoBack` | adapters/mock.go:163-190 | between deletions, a stored object only gives way to one with a larger numeric version, over every sequence of messages |
| `ServerHistory.ConflictEndsWithServerCopy` | adapters/mock.go:163-190 | a change that is not newer leaves the server's object alone, and once a get request is answered the cluster holds the server's content |
| `Redelivery.DuplicateDeliveryIsHarmless` | adapters/mock.go:138-190 | any message handled twice gives the same object and the same reply as handled once |
| `Redelivery.DuplicateBatchIsHarmless` | adapters/mock.go:36-88 | a batch delivered twice leaves the same objects when no patch shares its key with another patch or put, unless the key is deleted too |
| `Redelivery.DuplicateBatchHarmlessIff` | adapters/mock.go:36-88 | a repeated batch does no harm if and only if, for every key it does not delete, each of its patches finds no object, another checksum or no smaller version afterwards |
| `Redelivery.DuplicateBatchCanDiffer` | adapters/mock.go:36-88 | a copy and the patch from it in one batch: once leaves the first version, twice the next |
| `Batches.BatchWidth` | domain/utils.go:29-31 | a batch stands for exactly Length() messages and causes at most that many replies |
| `Batches.ServeAllConcat` | adapters/mock.go:36-88 | handling two runs of messages one after the other is handling their concatenation, on the server |
| `Batches.HandleAllConcat` | adapters/incluster/v1/client.go:745-797 | the same on the client |
| `BatchOrder.ItemsInOrder` | adapters/mock.go:36-88 | every item becomes one message with its own key, base, checksum, patch or content: gets, checksums, deletions, patches, puts |
| `BatchOrder.OneOfEach` | adapters/incluster/v1/client.go:745-797 | a batch with one item of each kind, written out |
| `BatchOrder.BatchServed` | adapters/mock.go:36-88 | for each key at the server: gets and checksums are answered from the state before the batch, then deletion, patches, puts |
| `BatchOrder.DeletedAndPut` | adapters/mock.go:58-86 | a key deleted and put in one batch ends with the put, whatever was there |
| `BatchOrder.DeletedAndPatched` | adapters/mock.go:58-78 | a key deleted and patched but not put ends absent, and each patch asks for a whole copy |
| `BatchOrder.BatchHandled` | adapters/incluster/v1/client.go:745-797 | for each key at the client: gets and checksums are answered from the object held before, then deletion with the shadow, patches, puts |
| `BatchOrder.DeletedAndPutAtClient` | adapters/incluster/v1/client.go:767-795 | a key deleted and put in one batch is created anew from the put alone |
| `BatchOrder.DeletedAndPatchedAtClient` | adapters/incluster/v1/client.go:767-787 | a key deleted and patched but not put stays away, and each patch asks for a whole copy |
| `MockAdapter.MockAdapter.SaveIfNewer` | adapters/mock.go:175-190 | stores the object unless both versions can be read and the new one is not larger |
| `MockAdapter.MockAdapter.DeleteObject` | adapters/mock.go:98-101 | refines the server's rule for a deletion |
| `MockAdapter.MockAdapter.GetObject` | adapters/mock.go:103-136 | refines the server's rule for a get, error included |
| `MockAdapter.MockAdapter.ApplyPatch` | adapters/mock.go:147-166 | stores the result of a patch exactly when the checksum matches, else returns its own object as the base |
| `MockAdapter.MockAdapter.PatchObject` | adapters/mock.go:138-145 | refines the server's rule for a patch |
| `MockAdapter.MockAdapter.PutObject` | adapters/mock.go:168-171 | refines the server's rule for a put |
| `MockAdapter.MockAdapter.VerifyObject` | adapters/mock.go:204-226 | refines the server's rule for a checksum |
| `MockAdapter.MockAdapter.HandleEach` | adapters/mock.go:38-86 | each of the loops handles its items in order, collects errors and does not stop |
| `MockAdapter.MockAdapter.Batch` | adapters/mock.go:36-88 | has the effect of its items handled one at a time: same objects, same replies in the same order, failure when one fails |
| `InClusterClient.Client.CallPutOrPatch` | adapters/incluster/v1/client.go:302-347 | sends the message and leaves the shadow that the rule says |
| `InClusterClient.Client.ProcessEvents` | adapters/incluster/v1/client.go:140-196 | the loop over events sends the messages of the unfiltered events, in order |
| `InClusterClient.LoopIsPlay` | adapters/incluster/v1/client.go:140-196 | the loop leaves the shadows and sends the messages that the unfiltered events leave and send in the runs over the link, and touches nothing else |
| `InClusterClient.FilteredDoNotMatter` | adapters/incluster/v1/client.go:147-150 | removing the filtered events changes nothing |
| `InClusterClient.FirstChange` | adapters/incluster/v1/client.go:180-194 | a first change is put and remembered; for a filtered object nothing happens |
| `InClusterClient.Client.DeleteObject` | adapters/incluster/v1/client.go:379-386 | refines the client's rule for a deletion |
| `InClusterClient.Client.GetObject` | adapters/incluster/v1/client.go:388-402 | refines the client's rule for a get, error included |
| `InClusterClient.Client.ApplyPatch` | adapters/incluster/v1/client.go:413-442 | applies a patch exactly when the strategy allows it, the object exists and the checksum matches, and refuses when the write fails |
| `InClusterClient.Client.PatchObject` | adapters/incluster/v1/client.go:404-442 | refines the client's rule for a patch |
| `InClusterClient.Client.PutObject` | adapters/incluster/v1/client.go:444-480 | refines the client's rule for a put |
| `InClusterClient.Client.VerifyObject` | adapters/incluster/v1/client.go:509-544 | refines the client's rule for a checksum |
| `InClusterClient.Client.HandleEach` | adapters/incluster/v1/client.go:747-795 | each of the loops handles its items in order, collects errors and does not stop |
| `InClusterClient.Client.DefaultBatch` | adapters/incluster/v1/client.go:745-797 | has the effect of its items handled one at a time: same state, same replies in the same order, failure when one fails |
| `InClusterClient.Client.CollectVersions` | adapters/incluster/v1/client.go:636-643 | the last item for a key counts |
| `InClusterClient.Client.SendDeletions` | adapters/incluster/v1/client.go:647-663 | exactly one deletion for each key only the server has |
| `InClusterClient.Client.SendChanged` | adapters/incluster/v1/client.go:665-704 | exactly one put for each common key whose versions differ, nothing for the others |
| `InClusterClient.Client.SendMissing` | adapters/incluster/v1/client.go:706-740 | exactly one checksum for each unfiltered key only the cluster has, and its shadow is dropped |
| `InClusterClient.Client.Reconcile` | adapters/incluster/v1/client.go:615-743 | an empty batch fails; otherwise each key gets exactly the message its action calls for |
| `Reconciliation.OrderDoesNotMatter` | adapters/incluster/v1/client.go:645-743 | the exchanges of a reconciliation, interleaved in any way, end in the same state |
| `Reconciliation.OutcomeOfReconciliation` | adapters/incluster/v1/client.go:615-743 | what each key holds in the end, for a listing that is the cluster and a batch that names the server's keys, the refused empty batch included |
| `Reconciliation.ReconciliationRepairsReplica` | adapters/incluster/v1/client.go:615-743 | for batches at most 5 deep, with nothing else under way, the server ends with exactly the right keys if and only if it had some object or there was none to announce; missing objects are there in full, and versions are equal where the server was not ahead |
| `Reconciliation.EmptyServerStaysEmpty` | adapters/incluster/v1/client.go:617-619 | a cluster object and an empty server: nothing is sent and the object stays missing |
| `Reconciliation.NothingListed` | adapters/incluster/v1/client.go:637-643 | a batch lists no version exactly if it has no items |
| `Reconciliation.LastItemCounts` | adapters/incluster/v1/client.go:637-643 | of several items for a key the last one counts |
| `Reconciliation.ListedKeys` | adapters/incluster/v1/client.go:637-643 | exactly the keys of the items are listed |
| `Packets.DeliveryDeepens` | core/synchronizer.go:536-547 | a delivery takes one packet away and adds packets exactly one level deeper, none after a dropped one |
| `Packets.DepthStaysBounded` | core/synchronizer.go:266-276 | nothing deeper than 9 is ever under way in any run of new exchanges and deliveries in any order |
| `Packets.EveryDrainStops` | core/synchronizer.go:266-279 | no sequence of deliveries goes on forever, however wide the batches |
| `PacketEffects.ServerDeliversSingle` | core/synchronizer.go:266-280 | a single packet at the server has exactly the effect and the reply of the exchange rule for its key, one level deeper, and touches no other key; beyond the limit nothing happens |
| `PacketEffects.ServerStoresAndAsks` | adapters/mock.go:168-217 | a put of a missing object is stored, and a checksum of one is answered by a get at depth 2 |
| `PacketEffects.ServerAnswersGet` | adapters/mock.go:133-135 | a get is answered with the whole object and no checksum |
| `PacketEffects.ServerDeliversBatch` | core/synchronizer.go:280-301 | a packet at the server leads each key where its own messages lead, and their answers go out in order one level deeper |
| `PacketEffects.ClientDeliversSingle` | core/synchronizer.go:266-280 | a single packet at the client has exactly the effect and the reply of the exchange rule for its key, and touches no other |
| `PacketEffects.ClientDeliversBatch` | adapters/incluster/v1/client.go:745-797 | a default batch at the client leads each key where its own messages lead, and their answers are sent in order |
| `PacketEffects.ClientReconciles` | adapters/incluster/v1/client.go:615-743 | a reconciliation batch sends each key its one action and drops the shadows of what it announces |
| `PacketEffects.ClientRefuses` | adapters/incluster/v1/client.go:518-525 | an unknown kind of batch and a reconciliation without items change and send nothing |
| `PacketEffects.ClientAlwaysReceives` | adapters/incluster/v1/client.go:518-525 | handling a packet is never stuck |
| `PacketEffects.WireDeliversUp` | core/synchronizer.go:266-280 | on the wire, the reply of whichever packet arrives at the server joins the way down |
| `PacketEffects.WireDeliversDown` | core/synchronizer.go:266-280 | and the reply of whichever packet arrives at the client joins the way up |
| `Synchronizer.ServerSynchronizer.Send` | utils/utils.go:64-74 | a message goes out one level deeper than the context, at depth 1 without one |
| `Synchronizer.ServerSynchronizer.Forward` | core/synchronizer.go:633-646 | everything the adapter asked for goes out at that depth, in order |
| `Synchronizer.ServerSynchronizer.Dispatch` | core/synchronizer.go:280-447 | hands each kind of message to the handler that its rule is for |
| `Synchronizer.ServerSynchronizer.Receive` | core/synchronizer.go:266-280 | a packet beyond the limit changes nothing; any other has the effect and the replies of the packet rule |
| `Keys.SplitOfJoin` | domain/utils.go:12-27 | parts without slashes come back out of a key |
| `Keys.JoinOfSplit` | domain/utils.go:16-27 | joining the parts of any string gives it back, and no part has a slash |
| `Keys.KindRoundTrip` | domain/utils.go:12-27 | writing and reading a kind are mutual inverses |
| `Keys.KeyIdentifiesObject` | domain/identifiers.go:20-28 | on slash-free fields, equal keys mean equal kind (or none), namespace and name |
| `Keys.SlashesMakeKeysCollide` | domain/identifiers.go:20-28 | two different ids with slashes and the same key |
| `Keys.WireKeepsKey` | core/synchronizer.go:314-319 | the id rebuilt by the peer has the key of the id sent; a batch item keeps the version too |
| `Keys.ShortKeyIdentifiesWithinKind` | adapters/incluster/v1/client.go:628-642 | within one kind, namespace and name identify as the full key does |
| `Registry.RegistryIsConsistent` | adapters/backend/v1/adapter.go:140-203 | in every reachable state the two maps have the same entries and the gauge counts them, stray and repeated stops included |
| `Registry.RegisteredIsLive` | adapters/backend/v1/adapter.go:120-203 | whatever is registered was started and not stopped since |
| `Registry.NewestConnectionWins` | adapters/backend/v1/adapter.go:120-190 | the newest connection that tried to start stays registered until it is stopped itself |
| `Registry.RejectedConnectionLeavesItsCallbacks` | adapters/backend/v1/adapter.go:115-118 | a connection that is turned away has already replaced the stored callbacks |
| `Registry.CallbacksAreLastRegistered` | adapters/backend/v1/adapter.go:115-192 | in every run the stored callbacks are the ones registered last, whoever registered them, and a stop removes them |
| `Registry.OnlyNewerOthersOutrank` | adapters/backend/v1/adapter.go:129-140 | a connection of the same age or the same connection again replaces what is registered |
| `Registry.KeysAreJoined` | domain/identifiers.go:79-85 | the keys of connections are joined like all other keys |
| `Registry.BackendAdapter.RegisterCallbacks` | adapters/backend/v1/adapter.go:115-118 | refines the registry's rule for callbacks |
| `Registry.BackendAdapter.Start` | adapters/backend/v1/adapter.go:120-165 | refines the rule for a start, and fails when outranked or without callbacks |
| `Registry.BackendAdapter.Stop` | adapters/backend/v1/adapter.go:167-220 | refines the rule for a stop |
| `Registry.BackendAdapter.Keepalive` | adapters/backend/v1/adapter.go:366-392 | the message lists every registered connection exactly once |
| `Registry.BackendAdapter.SelectForReconciliation` | adapters/backend/v1/adapter.go:287-325 | requests go once to exactly the connections that are old enough and support batches; no client is ever missing |
| `Cooldown.QueueKeepsLast` | utils/cooldownqueue.go:17-21 | for every key, what went out and what waits is a subsequence of what came in and ends with its last event |
| `Cooldown.NothingAfterStop` | utils/cooldownqueue.go:34-41 | after Stop nothing goes out, whatever is still evicted |
| `Cooldown.SubOfGrowing` | utils/cooldownqueue.go:17-21 | dropping events keeps versions growing |
| `Cooldown.CooldownPreservesMeaning` | utils/cooldownqueue.go:17-21 | for exchanges that settle one after the other, whatever the timing and however far the cluster is ahead, handling what the queue lets through ends with the same objects, up to versions, as handling every event, if both handle fresh changes and catch up |
| `Cooldown.PromptCooldownPreservesMeaning` | utils/cooldownqueue.go:17-21 | for such exchanges, if each event is handled while the cluster still holds its object, nothing has to be checked |
| `Cooldown.WaitingIsLatest` | utils/cooldownqueue.go:62-68 | what waits for a key is the latest that came in for it |
| `Cooldown.ExpiredLeaves` | utils/cooldownqueue.go:34-41 | when its cooldown is over, the latest event of a key leaves an open queue, and other keys are not touched |
| `Cooldown.StoppedTakesNothing` | utils/cooldownqueue.go:62-73 | a stopped queue takes nothing in |
| `Cooldown.CooldownQueue.Enqueue` | utils/cooldownqueue.go:62-68 | refines the queue's rule for an event |
| `Cooldown.CooldownQueue.Evict` | utils/cooldownqueue.go:34-41 | refines the rule for an expired key |
| `Cooldown.CooldownQueue.Stop` | utils/cooldownqueue.go:70-73 | refines the rule for a stop |
| `ConflictRetry.MergeInto` | adapters/incluster/v1/client.go:482-499 | the loops over labels and annotations compute the merge in which existing values win |
| `ConflictRetry.UpdateWithRetry` | adapters/incluster/v1/client.go:455-470 | at most five submissions, each the previous one with one more reading merged in, and again only after a conflict |
| `ConflictRetry.RetriedSubmission` | adapters/incluster/v1/client.go:455-499 | after any number of retries: the object's content, the latest reading's metadata, and in labels and annotations the value of the newest reading that has the key |
| `ConflictRetry.RetriesAccumulateKeys` | adapters/incluster/v1/client.go:482-499 | a label or annotation is sent exactly when the object or some reading has it |
| `ConflictRetry.WriteIsFirstSubmission` | adapters/incluster/v1/client.go:452-470 | writing is creation, or the first submission over the existing object |
| `ConflictRetry.SubmittedOver` | adapters/incluster/v1/client.go:463-468 | what is submitted over an existing object: the new content, the existing metadata, and in labels and annotations the existing value where there is one, else the new one |
| `ConflictRetry.MessageOverExisting` | adapters/incluster/v1/client.go:404-480 | after a put or an accepted patch over an existing object the cluster holds exactly that submission, if the API server stores what is submitted |
| `Masking.MaskEnv` | utils/utils.go:310-322 | the loop masks exactly the entries that have a value |
| `Masking.MaskOne` | utils/utils.go:300-327 | containers without an array of entries are left alone |
| `Masking.MaskAllContainers` | utils/utils.go:298-330 | every container of a list is masked |
| `Masking.MaskEnvironmentVariables` | utils/utils.go:292-350 | the pass over the three container lists computes the masked tree |
| `Masking.MaskingIsExact` | utils/utils.go:292-350 | at every position of every tree: an environment value in one of the lists is the mask, everything else is unchanged |
| `Masking.MaskingIsIdempotent` | utils/utils.go:292-350 | a second pass changes nothing |
| `Masking.PodIsMasked` | utils/utils.go:335-347 | a value in each of the three lists by name becomes the mask, and a list of another name is left alone |

## Left out

- Payloads that are not JSON objects, and the error paths of marshalling, hashing, listing and sending.
- The insides of the canonical hash, metadata extraction, managed-field removal and the pod-spec path: they are parameters.
- Byte-level JSON text: the model works on JSON values. The pattern for empty patches is therefore stated on values, and a text that only looks like such an object inside a string is not covered.
- WebSocket connections, reconnection, backoff, worker pools, Kafka and Pulsar, HTTP, authentication, metrics, logging, configuration and the features provider.
- `isFiltered` and `skipNamespace`: an event or a listed object carries a flag for their result.
- Races inside one client on its unlocked shadow map: handlers are taken as atomic.
- Several adapters on one side, message ids, and ping messages.
- Synchronizer.ServerSynchronizer.Dispatch: only the server's side is a class; what the client's side does with a packet is described by `Packets.ClientReceives`, and its handlers are the methods of `InClusterClient.Client`.
- InClusterClient.Client.PutObject: the write to the cluster is one step with the API server's answer as a parameter; the retries in between are the subject of `ConflictRetry.UpdateWithRetry`.
- InClusterClient.Client.Reconcile: the listing is an argument, and errors collected on the way are not reported, as in the code.
- InClusterClient.Client.CallPutOrPatch: computes the checksum of a put itself, where the code gets it from the caller.
- MockAdapter.MockAdapter.GetObject: the adapter in its server role only, so without its own patch strategy.
- Registry.BackendAdapter.Start: starting the client object, the features provider and fields that are only passed on are not modelled.
- Cooldown.CooldownQueue.Evict: when a key expires is left open, so the length of the cooldown is not modelled, and the channel is a log of what was sent.
- EventualConsistency.EveryRunSettlesIff: objects with explicit nulls are not covered by the runs with questions, only by `ShadowPrediction` and by the lemmas stated up to nulls.
- InClusterClient.Client.ProcessEvents: for the storage group the code sends the live object for a change where the model, here and in `EventualConsistency`, sends the event's; the two agree when the event is the latest.
- Cooldown.CooldownPreservesMeaning: is about exchanges that settle one after the other; `WholeCluster.CoalescingOfSentChanges` is the result for overlapping ones.
- Recreation.RecreationSettlesIff: is about one key; `WholeCluster` shows that keys do not interfere.
- Redelivery.DuplicateBatchHarmlessIff: takes the metadata of what is stored along the way as readable, without which versions can go back.
