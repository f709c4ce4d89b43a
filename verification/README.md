# Cocoon sandbox operator: verified model

A Dafny model of the stateful protocols of the sandbox operator and of its API conversions, with
proofs of what they promise over every input, every run or every interleaving. `dafny verify
dfyconfig.toml` checks the whole project.

The modules, by subsystem:

- **Warm-pool hand-off.** `SandboxQueue` (the deduplicating queue and its snapshot / pick / commit
  pop), `NodeSpread` (the pick that keeps nodes level), `Candidates` (the search that puts keys
  back), `WarmSandbox` (what is adoptable, what adoption writes), `Adoption` (all claims and
  sandboxes of a namespace as one state machine), `AdoptionPass` (what each action of a claim's pass
  changes and where a pass ends), `AdoptionRetry` (reconciles under a lagging cache).
- **Claim protocols.** `CocoonClaim` (acquire, record, compensate, finalize), `ClaimGateway`
  (credentials taken out and put back around the release call).
- **Aggregated store.** `SandboxSynthesis` (claim references and synthesized objects), `StoreView`
  (List and Get against one abstract view), `CollectionGeneration` (the fingerprint and the skipped
  poll), `WatchStream` (events against lists), `ClientView` (the three joined into what a client
  sees), `NodePicker` (reservations and the weighted draw), `PickRace` and `ClaimRace` (concurrent
  picks and claims).
- **Pods and pools.** `PodMetadata` (the tracked three-way merge), `SlowStart` and `PoolScaling`.
- **Conversions.** `SandboxConversion`, `ClaimConversion`, over an abstract JSON pair (`Encoding`).
- **Shared.** `Text` (byte-wise strings, splitting and joining), `Sorting` (any sorted permutation).

Objects the controllers update in place are classes whose methods carry the source's loops; each is
proved against a specification on values, and the theorems are about those values. Protocols with
several callers are state machines whose steps are the source's atomic sections.

## What does not hold, and exactly when it does

- **One sandbox per claim** fails when adoption patches are answered with conflicts: three conflicts
  fall through to a cold create, and a lost status write lets the next pass adopt the recorded warm
  sandbox as well (`Adoption.ConflictsCanGiveTwo`). A create is safe exactly when the recorded
  sandbox is not recoverable or status already names the claim (`Adoption.OneSandboxPerClaim`,
  `Adoption.ExposedCreateEndsInTwo`); runs without conflicts are always safe.
- **A claim gets a sandbox** within six successful actions exactly when it is not blocked: nothing it
  recorded is its own or adoptable, and another's sandbox bears its name (`AdoptionPass.BindsExactly`).
- **A claim is never leaked** by `claim` exactly when sandboxd's handle is complete; the finalizer
  goes with the sandbox still live exactly when the Secret holds no token, as after a lost Secret
  (`CocoonClaim.DeletedWithLostSecret`).
- **A skipped watch poll** is lossless exactly when everything the last list lacks or has too much is
  shown the same by a pending claim and no shown claim has expired. A node that was unreadable during
  one poll drops out of what the client knows and stays missing as long as nothing changes
  (`CollectionGeneration.HealedNodeStaysHidden`); a removed inventory that was not alone with the
  newest version stays shown (`CollectionGeneration.RemovedNodeStaysShown`).
- **Warm counts** are never exceeded exactly when no two callers spell one pool differently, because
  reservations are keyed by the raw key (`NodePicker.WithinExactly`), and picks come one at a time
  (`PickRace.OneAtATimeExactly`). Concurrent picks go beyond by less than their number, unless a
  caller looks with a version already replaced: that forgets all debits and has no bound
  (`PickRace.StaleLooksForget`).
- **No live pending claim loses its name** exactly when the claims of a name come one at a time;
  otherwise the second of two claims that passed the check takes the name of the first
  (`ClaimRace.OneAtATimeExactly`).
- **Claim references** parse back exactly for slash- and hash-free namespaces and hash-free names.
- **List** shows each sandbox once exactly when names are unique across nodes.
- **Watch events** are legal exactly when no new key is listed twice, and bring the client to the list
  exactly when, besides, no known key is listed with another version and last with the known one
  (`WatchStream.EventsBringContentsExactly`, `WatchStream.DuplicateKeysMislead`).
- **A watch tells** every single change of an entry's id, phase, claim reference or address, while the
  version digest tells texts apart, and any number of them where no part has a "|"
  (`SandboxSynthesis.VersionTellsExactly`, `SandboxSynthesis.SeparatorHidesChanges`); a move to another
  node or a client's own edit is never told (`StoreView.ServedVersion`).
- **Hub edits** of a claim's pool reference survive v1alpha1 exactly when the new name is a pool that
  is not taken for the claim's own; "shadow-pool-p" is, for a claim on pool p.

## Model

| member | source | states |
|---|---|---|
| SandboxQueue.UniqueIdInjective | extensions/controllers/queue/simple_sandbox_queue.go:82-138 | two keys have the same queue id exactly when namespace and name agree, for slash-free namespaces |
| SandboxQueue.SlashInNamespaceLosesThePush | extensions/controllers/queue/simple_sandbox_queue.go:122-138 | for every namespace with a slash there is another sandbox of the same id, and while that one is queued a push changes nothing |
| SandboxQueue.PushKeeps | extensions/controllers/queue/simple_sandbox_queue.go:122-138 | a push keeps ids and items in step, queues the key at its new node and moves no other item |
| SandboxQueue.RemoveKeeps | extensions/controllers/queue/simple_sandbox_queue.go:82-104 | a removal keeps ids and items in step and takes away exactly the given sandbox |
| SandboxQueue.PopIsRemoveFirst | extensions/controllers/queue/simple_sandbox_queue.go:141-161 | a pop is the removal of the oldest item |
| SandboxQueue.SynchronizedQueue.Push | extensions/controllers/queue/simple_sandbox_queue.go:122-138 | the in-place push gives the specified queue |
| SandboxQueue.SynchronizedQueue.Pop | extensions/controllers/queue/simple_sandbox_queue.go:141-161 | the in-place pop returns the oldest key, or nothing from an empty queue |
| SandboxQueue.SynchronizedQueue.Remove | extensions/controllers/queue/simple_sandbox_queue.go:82-104 | the in-place removal gives the specified queue |
| SandboxQueue.SynchronizedQueue.Commit | extensions/controllers/queue/simple_sandbox_queue.go:185-206 | the second locked section takes the picked key if and only if it is still queued |
| SandboxQueue.SynchronizedQueue.PopWithStrategy | extensions/controllers/queue/simple_sandbox_queue.go:165-209 | under any interference the result was queued when it was committed and is gone afterwards, and none is returned only from a snapshot that was empty or that the strategy refused; undisturbed, it is the strategy's pick |
| SandboxQueue.EveryRunIsCoherent | extensions/controllers/queue/simple_sandbox_queue.go:82-209 | in every interleaving the id set is exactly the ids of the items, without duplicates |
| SandboxQueue.NeverHandedOutTwice | extensions/controllers/queue/simple_sandbox_queue.go:82-209 | between two hand-outs of one sandbox there is a push of it |
| SandboxQueue.HandOutTakesAQueuedSandbox | extensions/controllers/queue/simple_sandbox_queue.go:165-209 | every commit that hands out a sandbox finds it queued and leaves the queue without it |
| SandboxQueue.UndisturbedHandOut | extensions/controllers/queue/simple_sandbox_queue.go:165-209 | without interference the three sections hand out exactly the chosen item and leave everything else alone |
| NodeSpread.PickIndexIsOldestOfFullest | extensions/controllers/sandboxclaim_controller.go:805-855 | the pick is the oldest key among the nodes with the most keys, or the oldest when none is scheduled |
| NodeSpread.OldestOfFullestIsUnique | extensions/controllers/sandboxclaim_controller.go:805-855 | that description fits one position only |
| NodeSpread.PickSmart | extensions/controllers/sandboxclaim_controller.go:805-855 | the partition, count and search loops compute that pick |
| NodeSpread.CountNodes | extensions/controllers/sandboxclaim_controller.go:829-833 | the counting loop gives every scheduled key's node its number of queued keys |
| NodeSpread.FirstWithCount | extensions/controllers/sandboxclaim_controller.go:842-851 | the search loop stops at the oldest key on a node with the highest count |
| NodeSpread.DrainingStaysLevel | extensions/controllers/sandboxclaim_controller.go:805-855 | draining any queue keeps every node picked from within one key of the fullest |
| NodeSpread.UnscheduledLast | extensions/controllers/sandboxclaim_controller.go:805-855 | an unscheduled key is picked only when no scheduled one is left, and then the oldest |
| WarmSandbox.AdoptionIsFinal | extensions/controllers/sandboxclaim_controller.go:998-1098 | an adopted sandbox is controlled by its claim alone, as a SandboxClaim of the extensions, keeps its name and template hash, and is adoptable by none |
| WarmSandbox.VerifyExactly | extensions/controllers/sandboxclaim_controller.go:2044-2079 | a candidate passes exactly if it is in the claim's namespace, not being deleted, carries both labels and is controlled by the extensions' pool the claim names; another namespace is told apart |
| WarmSandbox.WarmPoolNameExactly | extensions/controllers/sandboxclaim_controller.go:2129-2147 | the pool is the controller's name if that is a pool, else the first pool's among the owners |
| WarmSandbox.AdoptionLabels | extensions/controllers/sandboxclaim_controller.go:998-1098 | which label adoption writes, which it takes away, and that it leaves every other alone |
| Candidates.GetCandidate | extensions/controllers/sandboxclaim_controller.go:783-907 | keys before are keys after, dropped keys and the returned key; only keys of sandboxes that are gone or that the claim may not adopt are dropped, and only one it may adopt is returned; without read errors a Ready one if one is queued, else the first in pop order, and none only if none is queued; on a read error no such key is lost |
| Candidates.Search | extensions/controllers/sandboxclaim_controller.go:857-907 | the scan ends with every key accounted for and its answer the first in pop order |
| Candidates.Note | extensions/controllers/sandboxclaim_controller.go:868-907 | a key from another namespace or a second usable one is held back, the first usable one becomes the fallback, a dead one is forgotten |
| Candidates.PutBack | extensions/controllers/sandboxclaim_controller.go:793-802 | held-back keys return to the end of the queue in order |
| Adoption.OnceAdoptedForever | extensions/controllers/sandboxclaim_controller.go:909-1098 | in every run from the empty cluster, a sandbox controlled by a claim stays that claim's, and no other's, until it is deleted |
| Adoption.ControlIsKept | extensions/controllers/sandboxclaim_controller.go:998-1098 | no single step takes a sandbox from its claim |
| Adoption.AdoptsOnlyItsPools | extensions/controllers/sandboxclaim_controller.go:909-1098 | in every run every adoption, from the queue or by recovery, is of a sandbox that is not being deleted, is labelled as a pool's and is controlled by the claim's current pool |
| Adoption.OneSandboxPerClaim | extensions/controllers/sandboxclaim_controller.go:1519-1693 | in every run whose creates are not exposed, no claim ever controls two sandboxes, over queue, recovery, triggered-adoption and cold-create paths together; a sandbox the patch was sent to is never recoverable again |
| Adoption.ExposedCreateEndsInTwo | extensions/controllers/sandboxclaim_controller.go:1580-1628 | any exposed create can go on to a claim with two sandboxes, so the condition is exact |
| Adoption.WithoutConflictsOneSandboxPerClaim | extensions/controllers/sandboxclaim_controller.go:909-996 | runs without adoption conflicts never issue an exposed create |
| Adoption.ConflictsCanGiveTwo | extensions/controllers/sandboxclaim_controller.go:909-996 | a concrete run from an empty cluster in which a claim ends up with two sandboxes |
| AdoptionPass.AnnotationChanges | extensions/controllers/sandboxclaim_controller.go:1547-1645 | the check of the annotation clears exactly an outdated record, and notes exactly the patch it sent until the sandbox shows its claim |
| AdoptionPass.AttemptChanges | extensions/controllers/sandboxclaim_controller.go:909-996 | an attempt records its candidate exactly if the claim may adopt it, and a conflict or a vanished sandbox uses up one of the attempts left |
| AdoptionPass.ColdIsTheClaims | extensions/controllers/sandboxclaim_controller.go:1265-1410 | a cold sandbox is named after, labelled with and controlled by its claim from the start |
| AdoptionPass.CrashChanges | extensions/controllers/sandboxclaim_controller.go:165-180 | a pass that ends anywhere loses nothing it wrote; only a restart forgets the patch it sent |
| AdoptionPass.MarkedIsSpared | extensions/controllers/sandboxclaim_controller.go:2060-2063 | from the moment a sandbox is marked for deletion no claim may adopt it |
| AdoptionPass.TriggersAreSpent | extensions/controllers/sandboxclaim_controller.go:1580-1628 | in every run a sandbox the patch was sent to can be recovered no more, so no claim waits for a patch that is still to be sent |
| AdoptionPass.PassBinds | extensions/controllers/sandboxclaim_controller.go:1519-1693 | from every reachable state a claim that is not blocked comes in at most six successful actions to a sandbox it controls and its status names: the one in status, else the recorded one, else the one of its name, else the queue's, else a new one |
| AdoptionPass.BlockedNeverBinds | extensions/controllers/sandboxclaim_controller.go:1647-1673 | a blocked claim never gets a sandbox, however many actions it takes |
| AdoptionPass.BindsExactly | extensions/controllers/sandboxclaim_controller.go:1519-1693 | so exactly the claims that are not blocked come to a sandbox |
| AdoptionRetry.ClaimReconciler.GetOrCreate | extensions/controllers/sandboxclaim_controller.go:1519-1628 | under a lagging cache the patch is sent exactly if it was not triggered for this claim UID and sandbox, which is noted exactly if it was accepted and forgotten once the sandbox shows the claim; what is returned is the sandbox that shows it |
| AdoptionRetry.ClaimReconciler.ComputeAndSetStatus | extensions/controllers/sandboxclaim_controller.go:723-745 | a triggered retry leaves name and condition of a bound claim alone; else the name is exactly the returned one, and cleared only without error or on lost ownership |
| AdoptionRetry.ClaimReconciler.Reconcile | extensions/controllers/sandboxclaim_controller.go:421-518 | so a lagging pass never clears the recorded sandbox name, whatever the rest of a pass would have answered |
| AdoptionRetry.ReconcileWhileLagging | extensions/controllers/sandboxclaim_controller.go:1580-1628 | any number of lagging reconciles, up to one whose sent patch is refused, apply exactly one adoption patch if any and keep the recorded names |
| AdoptionRetry.ReconcileUntilBound | extensions/controllers/sandboxclaim_controller.go:1519-1628 | unless a sent patch was refused, the pass after them that sees the claim as controller binds the sandbox, sends nothing and forgets the trigger |
| CocoonClaim.CocoonSandboxController.UpsertTokenSecret | cocoon/controller/controller.go:233-270 | the Secret holds the new token if and only if it reports success |
| CocoonClaim.CocoonSandboxController.ReleaseFailedClaim | cocoon/controller/controller.go:226-231 | the claim is given back at the address it lives at, or is stranded when the release fails |
| CocoonClaim.CocoonSandboxController.Claim | cocoon/controller/controller.go:147-224 | every live claim stays recorded, stranded or lost, whichever call fails, and it loses one exactly when the handle is incomplete; exactly on success the status names the sandbox and the address it lives at (owner's, else the dialed, else the node's) and the Secret its token |
| CocoonClaim.CocoonSandboxController.AccountedExactly | cocoon/controller/controller.go:147-231 | every live claim is recorded or stranded exactly when no handle was incomplete |
| CocoonClaim.CocoonSandboxController.ReconcileDelete | cocoon/controller/controller.go:117-145 | exactly when the finalizer goes, what is released where, and that the recorded sandbox then lives exactly when it was live and no token was readable |
| CocoonClaim.DeletedWithLostSecret | cocoon/controller/controller.go:117-145 | with the Secret gone and every call succeeding, the object goes and its sandbox lives on |
| CocoonClaim.CocoonSandboxController.Reconcile | cocoon/controller/controller.go:65-97 | one reconcile, with complete handles or not, keeps every live claim accounted for but the lost, claims exactly if nothing is recorded, and drops the finalizer with the sandbox live exactly when the Secret held no token |
| CocoonClaim.Run | cocoon/controller/controller.go:65-231 | over any reconciles, deletions, edits of the Secret and failures every live claim is recorded with the address it lives at, stranded or lost; without edits the Secret holds the token of every live recorded claim, and a gone object left only stranded and lost ones |
| ClaimGateway.NodeClaimGateway.Claim | pkg/scale/claimgateway_impl.go:186-216 | only an authorized, delivered claim changes anything, and then it is exactly the machine's delivery and hold |
| ClaimGateway.NodeClaimGateway.Release | pkg/scale/claimgateway_impl.go:229-247 | refused exactly for names not held, without a call; otherwise it is exactly the machine's take, call and, on failure, put-back |
| ClaimGateway.StepMoves | pkg/scale/claimgateway_impl.go:186-247 | every step moves at most one sandbox from one place to one other |
| ClaimGateway.EveryRunKeeps | pkg/scale/claimgateway_impl.go:186-247 | in every interleaving each delivered sandbox is in exactly one place, every release call has a delivered id with its own token, and none follows a success |
| ClaimGateway.QuietMeansRetryable | pkg/scale/claimgateway_impl.go:229-247 | whenever no call is under way, a sandbox is held exactly if it was not released, and can be released with its token |
| ClaimGateway.FailedReleaseComesBack | pkg/scale/claimgateway_impl.go:239-245 | in every interleaving the caller of a failed release keeps the credential until it acts again, and all it can do then is to put it back unchanged |
| SandboxSynthesis.ParseUndoesFormatExactly | pkg/scale/sandboxstore_impl.go:1092-1111 | parsing undoes formatting for exactly the slash- and hash-free namespaces and hash-free names, whatever the UID |
| SandboxSynthesis.ParsedIsCarried | pkg/scale/sandboxstore_impl.go:1102-1111 | whatever the reference, the parsed namespace has no slash and neither part a hash |
| SandboxSynthesis.EchoKeepsIdentity | pkg/scale/sandboxstore_impl.go:992-1077 | a sandbox served from its pending entry and then from the node's echo keeps namespace, name, UID and owner |
| SandboxSynthesis.SynthesizedFrom | pkg/scale/sandboxstore_impl.go:992-1077 | which field of a served object comes from which field of the node's entry, and its claim as controller exactly if the reference is of the same namespace and has a name and a UID |
| SandboxSynthesis.SynthesizedLabels | pkg/scale/sandboxstore_impl.go:1113-1134 | the labels an object of the inventory carries, and no others |
| SandboxSynthesis.UidFollowsId | pkg/scale/sandboxstore_impl.go:1066-1077 | two objects share a UID exactly if they share the id, or the name as long as they have none |
| SandboxSynthesis.VersionTellsOneChange | pkg/scale/sandboxstore_impl.go:1179-1183 | any one change of id, phase, claim reference or address gives another version |
| SandboxSynthesis.VersionTellsExactly | pkg/scale/sandboxstore_impl.go:1179-1183 | for parts without the separator, two entries of one name share a version exactly if all four parts are the same |
| SandboxSynthesis.SeparatorHidesChanges | pkg/scale/sandboxstore_impl.go:1179-1183 | with the separator in them a change of both id and phase can leave the version as it was |
| StoreView.KeyInjective | pkg/scale/sandboxstore_impl.go:636-649 | index keys are equal exactly when namespace and name are, for slash-free namespaces |
| StoreView.OverlayExactly | pkg/scale/sandboxstore_impl.go:588-628 | an overlay is found by namespace and name, sets what it names, removes what it names as empty, and touches labels, annotations and spec alone |
| StoreView.ServedVersion | pkg/scale/sandboxstore_impl.go:596-610 | an overlay and the node leave the version alone |
| StoreView.ScatterGatherStore.Get | pkg/scale/sandboxstore_impl.go:446-472 | Get is the view at that name, and its evictions are invisible now and later |
| StoreView.ScatterGatherStore.List | pkg/scale/sandboxstore_impl.go:322-385 | List is the view filtered and sorted, each sandbox once; it evicts exactly the confirmed and expired claims, invisibly now and later |
| StoreView.ScatterGatherStore.Claim | pkg/scale/sandboxstore_impl.go:498-548 | refused exactly while an unexpired claim of that name is pending, and for capacity exactly when no node is picked; what is handed over is remembered and read under its name until its 180 seconds are over |
| ClaimRace.ReplacesExactly | pkg/scale/sandboxstore_impl.go:498-548 | in every interleaving a claim takes the name of a live one exactly when that one was recorded between its check and its record and is live still |
| ClaimRace.CheckPassesExactly | pkg/scale/sandboxstore_impl.go:498-512 | a claim passes the check exactly while no claim of its name was recorded within the last 180 seconds and is still pending |
| ClaimRace.BothAreServed | pkg/scale/sandboxstore_impl.go:498-548 | two claims of any name that check before either records are both served, and the second takes the name |
| ClaimRace.OneAtATimeExactly | pkg/scale/sandboxstore_impl.go:498-548 | no live claim ever loses its name exactly when at most one claim of a name is under way |
| StoreView.ScatterGatherStore.Remember | pkg/scale/sandboxstore_impl.go:636-639 | the claim is filed under its own key and the counter moves |
| StoreView.ScatterGatherStore.Release | pkg/scale/sandboxstore_impl.go:554-585 | a released id is not served from the pending index any more and its overlay is gone; nothing else leaves either |
| StoreView.ScatterGatherStore.Forget | pkg/scale/sandboxstore_impl.go:645-649 | the counter moves exactly by the entries removed |
| StoreView.ScatterGatherStore.PendingFor | pkg/scale/sandboxstore_impl.go:653-664 | an unexpired claim is returned, an expired one is evicted |
| StoreView.ScatterGatherStore.ReconcilePending | pkg/scale/sandboxstore_impl.go:668-675 | exactly the claims an inventory confirms leave the index |
| StoreView.ScatterGatherStore.Unconfirmed | pkg/scale/sandboxstore_impl.go:680-706 | every live claim not already seen is served once, and only expired ones are evicted |
| StoreView.ScatterGatherStore.Materialize | pkg/scale/sandboxstore_impl.go:957-973 | one node's entries, served, overlaid and filtered, in order |
| StoreView.ScatterGatherStore.Collect | pkg/scale/sandboxstore_impl.go:337-369 | the fan-out yields every reachable entry and evicts exactly the claims they confirm |
| StoreView.FindEntry | pkg/scale/sandboxstore_impl.go:451-465 | an entry of that name is found exactly if some reachable inventory has one |
| StoreView.ListedIsView | pkg/scale/sandboxstore_impl.go:322-385 | inventory entries and unconfirmed claims together are exactly the view |
| StoreView.EvictionsAreUnseen | pkg/scale/sandboxstore_impl.go:645-706 | confirmed and expired evictions leave the view as it was, now and at any later time |
| StoreView.ListedOnceExactly | pkg/scale/sandboxstore_impl.go:364-369 | the fan-out lists each sandbox once exactly when names are unique across nodes |
| CollectionGeneration.ReadGeneration | pkg/scale/sandboxstore_impl.go:400-420 | the loop, reading each node at its own point of the run, computes the newest version found and the pending counter, and is untrusted exactly if some inventory cannot be read or has no number |
| CollectionGeneration.EqualFingerprints | pkg/scale/sandboxstore_impl.go:400-420 | after two equal trusted fingerprints: from the end of the first scan on, the claims were the same until the end of the second, and each inventory until the second read it |
| CollectionGeneration.NothingBetween | pkg/scale/sandboxstore_impl.go:400-420 | at every point between the two scans the claims and the surviving inventories are those of the second's start, and all inventories exactly when none is removed |
| CollectionGeneration.StaleListExactly | pkg/scale/sandboxstore_impl.go:879-890 | an older list still shows the collection exactly when what it lacks and what it has too much is covered by claims and no shown claim expired |
| CollectionGeneration.SkippedTickExactly | pkg/scale/sandboxstore_impl.go:337-420 | what the client knows at a skipped tick is the whole collection exactly under that condition, for every run, removals included, every sequence of ticks and every spreading of the node reads over the run |
| CollectionGeneration.SkippingLosesNothing | pkg/scale/sandboxstore_impl.go:879-890 | so skipping loses nothing after a list that read every node, while none of its inventories is removed and no claim expires |
| CollectionGeneration.HealedNodeStaysHidden | pkg/scale/sandboxstore_impl.go:879-890 | after any run to a state in which a list evicts nothing, one poll during a node's outage hides its sandboxes from the client beyond the outage |
| CollectionGeneration.RemovalUnseenExactly | pkg/scale/sandboxstore_impl.go:400-420 | removing an inventory leaves the fingerprint alone exactly when another one carries the newest version, or none has one |
| CollectionGeneration.RemovedNodeStaysShown | pkg/scale/sandboxstore_impl.go:879-890 | the client then keeps the removed node's sandboxes, although nothing lists them |
| WatchStream.LegalExactly | pkg/scale/sandboxstore_impl.go:891-907 | Added only for absent and Modified only for present keys, exactly when no new key is listed twice |
| WatchStream.EventsBringContentsExactly | pkg/scale/sandboxstore_impl.go:891-907 | the client ends with the listed version of every listed key exactly when no new key is listed twice and every repeated known key ends on a new version or never leaves the known one |
| WatchStream.UniqueKeysAreFollowable | pkg/scale/sandboxstore_impl.go:891-907 | unique keys meet that condition from any previous contents |
| WatchStream.InventoryWatch.ListedEvents | pkg/scale/sandboxstore_impl.go:891-907 | the diff loop emits exactly the events for the list against what was known |
| WatchStream.InventoryWatch.DeletedEvents | pkg/scale/sandboxstore_impl.go:908-914 | deletions, in any order, are exactly of the unlisted keys and take exactly those from the client |
| WatchStream.InventoryWatch.Poll | pkg/scale/sandboxstore_impl.go:883-915 | for any list, the events of one poll are exactly those due (new keys added, changed versions modified, unlisted keys deleted), and take the old contents to exactly the new ones exactly under that condition |
| WatchStream.Watch | pkg/scale/sandboxstore_impl.go:823-936 | for any lists that each meet it after the one before, the whole stream replays to exactly the last list |
| WatchStream.DuplicateKeysMislead | pkg/scale/sandboxstore_impl.go:891-907 | any known key listed with a new version and then with the known one leaves the client at the wrong version |
| ClientView.ListedItems | pkg/scale/sandboxstore_impl.go:891-907 | the items of any list the store gives have unique keys, and as contents are exactly the snapshot of its view |
| ClientView.PollStore | pkg/scale/sandboxstore_impl.go:883-915 | one poll: a list of the store, its evictions, and events that bring the client from anything it knew to exactly the view; a single change of a known entry is told as Modified |
| ClientView.UniqueListsAreFollowable | pkg/scale/sandboxstore_impl.go:891-907 | a client can follow all polls when no list has a key twice |
| ClientView.RunWatch | pkg/scale/sandboxstore_impl.go:823-936 | over all ticks of a run, polled, skipped or failed, the events, replayed by a client that can follow them, give exactly what the watcher knows, hence the collection at a skipped tick exactly under the condition above; lists without a repeated key can be followed |
| NodePicker.WarmNodePicker.Debit | pkg/scale/sandboxstore_impl.go:274-285 | a debit counts claims under one resource version and starts over under another |
| NodePicker.WarmNodePicker.RowOffer | pkg/scale/sandboxstore_impl.go:754-768 | a node offers what the first matching row has left |
| NodePicker.WarmNodePicker.Survey | pkg/scale/sandboxstore_impl.go:744-769 | the candidates are exactly the nodes with something available, each once, with their total |
| NodePicker.NormalExactly | pkg/scale/sandboxstore_impl.go:790-808 | two keys are one pool exactly if template, network and size agree, an unset network being "none" and an unset size "small" |
| NodePicker.AvailableExactly | pkg/scale/sandboxstore_impl.go:744-769 | a node counts exactly if a row of the same pool advertises more than is taken under its version |
| NodePicker.WarmNodePicker.PickWarmNode | pkg/scale/sandboxstore_impl.go:733-785 | refused exactly when no node has a matching row with more warm sandboxes than are taken under its version; otherwise the node the draw falls on, debited once |
| NodePicker.Walk | pkg/scale/sandboxstore_impl.go:775-784 | the walk ends inside the loop, at the candidate whose share holds the draw |
| NodePicker.EachByItsShare | pkg/scale/sandboxstore_impl.go:773-784 | each candidate is chosen by exactly as many draws as it has available |
| NodePicker.EachKeyIsBounded | pkg/scale/sandboxstore_impl.go:274-292 | in every run the picks routed to a node under one publish and one spelling stay within a row's warm count |
| NodePicker.NeverOvercommitted | pkg/scale/sandboxstore_impl.go:733-785 | with one spelling per pool, all picks of a pool under one publish stay within it |
| NodePicker.TwoSpellingsOvercommit | pkg/scale/sandboxstore_impl.go:759-808 | two spellings of one pool route two picks to a node that advertises one |
| NodePicker.WithinExactly | pkg/scale/sandboxstore_impl.go:733-808 | exactly the key sets without two spellings of one pool are safe in every run |
| PickRace.OfferExactly | pkg/scale/sandboxstore_impl.go:754-766 | a node is a candidate exactly while fewer picks are taken than its largest matching row advertises |
| PickRace.OvercommitIsBounded | pkg/scale/sandboxstore_impl.go:274-285 | in every interleaving of looks and takes that never goes back to an older version, at most (concurrent callers - 1) picks go beyond the advertised count |
| PickRace.TwoTakeTheLast | pkg/scale/sandboxstore_impl.go:733-785 | two callers that look before either takes are both routed to the last warm sandbox |
| PickRace.OneAtATimeExactly | pkg/scale/sandboxstore_impl.go:733-785 | the advertised count is kept in all those interleavings exactly when at most one caller is between look and take |
| PickRace.StaleLooksForget | pkg/scale/sandboxstore_impl.go:274-285 | a caller with an older version that has a matching row resets the reservation: any number of picks is routed under one version, one caller at a time |
| PodMetadata.RecordSplits | controllers/sandbox_controller.go:1013-1036 | splitting the record gives back exactly the recorded keys |
| PodMetadata.LabelHistory | controllers/sandbox_controller.go:986-1036 | after any edits a label reads as the last template has it, is absent if it was ever templated and dropped, and else is as at the start |
| PodMetadata.AnnotationHistory | controllers/sandbox_controller.go:1089-1132 | the same of annotations |
| PodMetadata.SystemLabelsAfter | controllers/sandbox_controller.go:487-500 | no template sets a system label: the name hash is the Sandbox's, the pool label is the Sandbox's exactly if a pool of the extensions controls it, the template hash exactly if any object of the extensions does, the creator by name; others are kept or scrubbed |
| PodMetadata.ReservedExactly | controllers/sandbox_controller.go:488-506 | exactly the keys of the two reserved prefixes are system labels, and annotations besides the trace context |
| PodMetadata.SecondUpdateIsNothing | controllers/sandbox_controller.go:986-1150 | an immediate second update changes nothing |
| PodMetadata.UnchangedExactly | controllers/sandbox_controller.go:986-1150 | an update leaves the Pod alone exactly when nothing was left to do |
| PodMetadata.Propagate | controllers/sandbox_controller.go:999-1009 | the propagation loop merges the template's own keys and reports a change exactly if there is one |
| PodMetadata.Scrub | controllers/sandbox_controller.go:1013-1036 | the cleanup loop removes exactly the recorded keys that are foreign or no longer templated |
| PodMetadata.LabelAfter | controllers/sandbox_controller.go:999-1036 | what one update does to a label that is not the system's: templated, dropped or left alone |
| PodMetadata.AnnotationAfter | controllers/sandbox_controller.go:1089-1132 | the same of an annotation |
| PodMetadata.Record | controllers/sandbox_controller.go:1137-1144 | the record is the sorted, comma-joined list of the written keys |
| PodMetadata.Pod.UpdateLabels | controllers/sandbox_controller.go:986-1088 | the label half gives the specified labels and reports no change if nothing was left to do |
| PodMetadata.Pod.UpdateAnnotations | controllers/sandbox_controller.go:1089-1149 | the annotation half gives the specified annotations and reports a change exactly if something was left to do |
| PodMetadata.SetOwnedLabels | controllers/sandbox_controller.go:1037-1088 | the extension-owned labels end as the Sandbox's owner and labels say |
| PodMetadata.Pod.UpdatePodMetadata | controllers/sandbox_controller.go:986-1150 | the update gives the specified metadata and reports a change exactly when it made one |
| SlowStart.SlowStartBatch | extensions/controllers/sandboxwarmpool_controller.go:722-755 | because a batch starts only after a full success, indices are called once, in order, in doubling batches; without failures all of them, and on failure all earlier batches went through |
| SlowStart.RunBatch | extensions/controllers/sandboxwarmpool_controller.go:734-743 | a batch makes all its calls at the indices after the successes so far, and counts its successes |
| SlowStart.BatchBound | extensions/controllers/sandboxwarmpool_controller.go:726 | a batch is larger than all before it together by at most the first batch's size |
| SlowStart.NeverTooMany | extensions/controllers/sandboxwarmpool_controller.go:722-755 | the batches never exceed the count and stop exactly when it is reached |
| SlowStart.FailureStopsEarly | extensions/controllers/sandboxwarmpool_controller.go:722-755 | on failure at most 2c + 1 calls were started after c in completed batches |
| PoolScaling.WarmPool.DeleteStuck | extensions/controllers/sandboxwarmpool_controller.go:155-172 | exactly the unready members past five minutes leave the count, and stay in the cluster exactly if their delete fails |
| PoolScaling.WarmPool.CreateMembers | extensions/controllers/sandboxwarmpool_controller.go:200-219 | makes all the calls unless one fails, and adds a member for every call that succeeds |
| PoolScaling.CreatedAreSupplied | extensions/controllers/sandboxwarmpool_controller.go:200-219 | exactly the members whose create succeeded are added |
| PoolScaling.WarmPool.DeleteMembers | extensions/controllers/sandboxwarmpool_controller.go:221-249 | makes all the calls unless one fails, and takes members away from the front of the deletion order |
| PoolScaling.SurvivesExactly | extensions/controllers/sandboxwarmpool_controller.go:221-249 | exactly the members not tried or whose delete failed are left |
| PoolScaling.WarmPool.Scale | extensions/controllers/sandboxwarmpool_controller.go:174-249 | creates or deletes towards the desired count, at most a batch and never past it |
| PoolScaling.WarmPool.ReconcilePool | extensions/controllers/sandboxwarmpool_controller.go:118-256 | one reconcile scales what is left after the stuck members |
| PoolScaling.DeletionOrder | extensions/controllers/sandboxwarmpool_controller.go:219-249 | whichever deletes fail, a member that should go before a deleted one (unready before ready, newer before older) survives only if its own delete failed |
| PoolScaling.CountAfterRounds | extensions/controllers/sandboxwarmpool_controller.go:174-249 | the member count after any number of rounds, in closed form: monotone and without overshoot |
| PoolScaling.ReachedExactly | extensions/controllers/sandboxwarmpool_controller.go:174-249 | the desired count is reached in exactly ceil(difference / batch) rounds and kept |
| PoolScaling.ReconcileRepeatedly | extensions/controllers/sandboxwarmpool_controller.go:118-256 | repeated reconciles follow those rounds, each from the members not stuck, while members become ready or unready; if no initial or supplied member gets stuck the desired count is reached in exactly ceil(difference / batch) reconciles and kept |
| PoolScaling.ConvergesOnceNobodyIsStuck | extensions/controllers/sandboxwarmpool_controller.go:118-256 | the same from any round on after which no member there or supplied gets stuck, whatever happened before |
| PoolScaling.NobodyElse | extensions/controllers/sandboxwarmpool_controller.go:174-249 | whatever the outcomes, a reconcile leaves only healthy members and supplied ones |
| SandboxConversion.AlphaRoundTrip | api/v1alpha1/sandbox_conversion.go:29-116 | v1alpha1 to v1beta1 and back is the identity exactly for objects without a state annotation, for any replicas |
| SandboxConversion.HubRoundTrip | api/v1alpha1/sandbox_conversion.go:29-211 | v1beta1 to v1alpha1 and back keeps everything but the node name and the state annotation, and the mode exactly if it is Running or Suspended |
| SandboxConversion.ConvertTo | api/v1alpha1/sandbox_conversion.go:29-60 | the field-by-field conversion gives the specified hub object |
| SandboxConversion.ConvertFrom | api/v1alpha1/sandbox_conversion.go:63-116 | the conversion with its restore branches gives the specified v1alpha1 object, or fails on a broken annotation |
| ClaimConversion.AlphaRoundTripExactly | extensions/api/v1alpha1/sandboxclaim_conversion.go:39-150 | v1alpha1 to v1beta1 and back is the identity exactly without a state annotation and with a canonical volume-template annotation, whatever the template, policy and bound sandbox |
| ClaimConversion.OwnRefMatches | extensions/api/v1alpha1/sandboxclaim_conversion.go:152-170 | the pool reference a claim converts to is always recognised as its own |
| ClaimConversion.MatchingExactly | extensions/api/v1alpha1/sandboxclaim_conversion.go:152-250 | exactly which pool references are taken for the claim's own: its pool (else its template), that one's shadow pool, its bound sandbox, or the pool that one is named after |
| ClaimConversion.HubKeepsVolumes | extensions/api/v1alpha1/sandboxclaim_conversion.go:39-150 | v1beta1 to v1alpha1 and back keeps the volume templates of every claim and all other fields but the pool reference |
| ClaimConversion.HubKeepsRefExactly | extensions/api/v1alpha1/sandboxclaim_conversion.go:174-250 | exactly which pool references of hub-authored claims survive |
| ClaimConversion.HubEditSurvivesExactly | extensions/api/v1alpha1/sandboxclaim_conversion.go:103-131 | an edited pool reference survives exactly when it is unchanged or names a pool not taken for the claim's own |
| ClaimConversion.ShadowEditIsLost | extensions/api/v1alpha1/sandboxclaim_conversion.go:152-163 | editing a claim on pool p to "shadow-pool-p" is lost, for every p |
| ClaimConversion.ConvertTo | extensions/api/v1alpha1/sandboxclaim_conversion.go:39-83 | the conversion gives the specified hub claim, or fails on a broken annotation |
| ClaimConversion.ConvertFrom | extensions/api/v1alpha1/sandboxclaim_conversion.go:86-150 | the conversion with its restore branches gives the specified v1alpha1 claim, or fails on a broken annotation |

## Assumptions of the environment

- Queue keys and store keys come from namespaces without a slash; sandboxd hands every id out once.
- In `Adoption`, reads are current and the checks of one attempt, its record and its patch are one
  step; a pool never reuses the name of an existing or deleted sandbox; all objects are in one
  namespace.
- In `AdoptionRetry`, the claim is read in its current state.
- In `CocoonClaim`, API and sandboxd calls either take effect or fail without effect, and sandboxd
  releases a live sandbox only at the address it lives at and for its own token.
- `CollectionGeneration` takes publish versions from one increasing counter; nodes are read one by one
  at any points of the run, but the pending index is read, and changed with its counter, in one step;
  overlays do not change between polls, and how an entry is shown (selectors, overlay, version) is one
  function.
- Template keys in `PodMetadata` are non-empty and comma-free, as Kubernetes keys are; the Pod's
  metadata is edited by the controller alone.
- JSON decoding undoes encoding; digests and hashes are arbitrary functions, injective where a statement
  says so; clocks, random draws and call outcomes are parameters.

## Left out

- HTTP servers and clients, SDK streaming, node agents and the CLI: thin routing over services.
- `OrphanReconciler`, `RecordBound`, the default authorizer and claim specs: short single-pass code.
- `filterActiveSandboxes`, template hashes and status fields of the warm-pool controller.
- The node and pool controllers of the cocoon package, and TTL and expiry of claims.
- Legacy label migration, launch-type labels, metrics, traces, events and NetworkPolicies.
- Watch bookmarks, list continuation and selector parsing; TypeMeta in conversions.
- SandboxTemplate and SandboxWarmPool conversions: the same copying as the two modelled.
- StoreView.ScatterGatherStore.Claim: the check and the record are one step and the node pick is a
  parameter; `ClaimRace` splits the step.
- NodePicker.WarmNodePicker.PickWarmNode: one pick is one step; `PickRace` splits it.
- ClaimGateway.EveryRunKeeps: a release call that fails has no effect at sandboxd.
- PoolScaling.ReconcileRepeatedly: every call succeeds, and between the rounds members change only in
  readiness.
