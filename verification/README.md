# Verified models of rquant's deployment and test-planning scripts

This project models, in Dafny, the control logic of five scripts whose job is to stay correct when
things fail half way, and proves what they promise:

* **The Lab launchd handoff** (`scripts/bootstrap-production-deploy.py`, with the record types of
  `src/rquant/release_generation.py`): daemons are unloaded one by one behind durable intents,
  restarted, and the handoff is completed by publishing a proof, an operation record and an active
  record. Recoveries supersede earlier operations in a chain that the deployment intent follows.
  Modules `HandoffRecords`, `HandoffLineage`, `HandoffStore`, `HandoffChain`, `StopOrder`,
  `HandoffHost`, `HandoffProtocol`, `HandoffSession` for whole runs with their failure handlers, and
  `Readiness` for the final wait.
* **The L2 archive deployment** (`scripts/deploy-l2-archive.py`): an activation with a compensating
  handler, a resumable intent, and a remote initialisation that must not be repeated. Modules
  `ArchiveHost`, `ArchiveDeploy`.
* **The L2 component deployment** (`scripts/deploy-l2-component.py`): the acceptance proof validator,
  the health wait, and the deployment transaction with its capacity policy and collector starts.
  Modules `SymbolBindings`, `AcceptanceStreams`, `Acceptance`, `AcceptanceConsequences`,
  `CollectorHealth`, `ComponentHost`, `ComponentDeploy`.
* **The full-suite shard planner and manifest** (`scripts/full_suite_shards.py`). Modules `LptBound`,
  `FileDeal`, `ShardPlan`, `ManifestText`, `ShardManifest`, `LargeManifest`.
* **The sealed-tree publisher** (`scripts/publish-authority-runtime.py`). Modules `Paths`,
  `RuntimeManifest`, `PayloadScan`, `SealPublish`, `LargePayload`, `SealOrder`, `PublishOnce`.

`Basics`, `Sorting` and `Text` hold what the modules share: optional values, Python's `sorted`,
`partition`, `split` and `join`.

## How failures are modelled

A host is a class whose fields are the durable files and the running services. Every durable write
and every command is a method that may or may not take effect and then reports success, an error, or
the death of the process; success implies the effect. Methods of the protocols are built from these,
so their postconditions hold for every placement of failures and crashes, and the invariants
(`Host.Valid`, `HandoffStore.Inv`, `InitLedger`) hold at every exit. Where a program runs against a
service that acts on its own (the subscription API), that service may act before every step.
Observations that a loop polls (health pages, readiness files) are input traces, and the verdict is
proved for every trace. Concurrent publishers are a state machine whose steps interleave freely.

## Findings

Where the code does not have a property one would expect, the model keeps the code as it is and states
when the property holds.

* A stop loop that is run again after labels were restarted gets through if and only if no label is
  loaded against its record and at most one label is recorded as restarted, with every label before it
  settled (`StopOrder.Resumable`, `HandoffProtocol.Handoff.StopLoop`): a "stopping" record may list no
  restarted label, so the loop refuses its own record otherwise. `HandoffSession.StopAgain` runs it on a
  store of this kind: a failed deployment whose handler had restarted every label.
* A second rollback while a completed one is active but uncommitted, or any formal rollback under an
  already completed intent, publishes a record that the intent cannot follow. The handoff does so exactly
  under `HandoffStore.Forks`, for a resume as for a rollback, unless something fails before
  (`HandoffProtocol.Handoff.Prepare`); the bootstrap finalises a completed handoff before it resumes, so
  as a program it forks only when it rolls back (`HandoffSession.Session`).
  `HandoffProtocol.SecondRollback` runs it on a concrete store.
* A prepare that fails is followed by a handler that restarts the labels, also when the operation in
  hand is not the active one yet. It then publishes a "restarting" record of that operation, which keeps
  the invariant exactly under `MayRestart`: the intent names the deployment, or can follow the recovery
  and every unloaded label is already known as stopped (`HandoffSession.RestartListed`). Before the
  invocation this can be told from the store: it goes wrong only for a deployment that begins afresh with
  every label loaded (`BeginsAfresh`), because it knows the labels before its intent is prepared and
  preparing it may fail or be refused, and for a recovery that supersedes an operation with labels
  unloaded (`SupersedesUnloaded`); and in all of these stores it can (`HandoffSession.Session`,
  `HandoffSession.DangerIsReal`). Three such stores are a half-stopped deployment that is rolled back while
  launchd cannot be asked (`HandoffSession.HandlerForgetsStoppedLabel`), a prepared deployment of other
  commits (`HandoffSession.HandlerPublishesStrayRecord`), and a proven deployment whose release is not
  committed when a further commit is deployed: the stray record buries the proven one, and the release
  cannot be recovered any more (`HandoffSession.HandlerBuriesProvenRecord`).
* A crash between the operation record and the active record of a handoff refuses every later resume and
  every rollback that has to find out what it supersedes: each attempt is refused as changed, and as it
  writes nothing, so is the next, until something else writes the records
  (`HandoffProtocol.Handoff.Prepare`, `HandoffProtocol.RetryTorn`). The refusal occurs exactly under `HandoffStore.Refuses`. A formal rollback is handed its operation and never
  meets the test (`HandoffProtocol.RollBackThroughCrashes`), and a deployment does not make it. A recovery
  that takes up its own stopping operation or supersedes an incomplete one is refused for no other reason
  (`HandoffProtocol.RecoverThroughCrashes`);
  `HandoffSession.RecoverTorn` runs into it.
* A failed first install of the archive gives everything back except the timer: a timer that was active
  without a unit ends inactive, and one that was enabled stays enabled only if the failure came before
  systemd had loaded its unit (`ArchiveDeploy.Deploy`, `ArchiveDeploy.ActiveTimerLost`,
  `ArchiveDeploy.EnabledTimerKept`).
* The component deployer writes the capacity policy before it records that it switched, and does not
  take the installation record back. A failed deployment that undid itself is nevertheless halted (every
  further invocation is refused without writing anything) exactly if it had recorded its installation,
  or had written the link or another policy without getting to know that it had switched
  (`ComponentDeploy.Deploy`, `LeftOutOfStep`; `ComponentDeploy.PolicyLeftBehind` is such a failure).
* A component deployment that dies, or whose handler fails, halts the deployer unless it wrote nothing
  or its complete intent had landed (`ComponentDeploy.Deploy`, `Escaped`). The latter is possible: the
  audit behind the commit raises, the handler stops both units and the process dies. The next invocation
  is then admitted although nothing runs (`ComponentDeploy.DieAfterCommit`).
* The collector health wait forgets a seed row that arrives before its binding is wanted, and then can
  never succeed (`CollectorHealth.SeededYetUnhealthy`). It succeeds exactly when a round finds every
  binding seeded while it was wanted (`CollectorHealth.ExactVerdict`), and while the wanted bindings stay
  the same that is every binding seeded (`CollectorHealth.SteadyVerdict`).
* The manifest writer does not count the skip map against the total size and the loader does: a bundle
  that was written loads if and only if it fits with the skip map (`ShardManifest.RoundTrip`). A bundle of
  three long nodeids is written and refused (`LargeManifest.WrittenThenRefused`).
* Sealing a payload tests neither the length of its paths, nor the number of its files, nor the 16 MiB
  of its manifest, nor that its directories hold files; publishing refuses exactly the sealed payloads
  that fail one of these (`SealPublish.SealThenPublish`). A payload of 81,050 files with paths of 100
  characters is within the other limits and too long (`LargePayload.SealedThenRefused`).
* The scan of a payload counts its entries only when it comes to a file, so directories behind the last
  file are free (`PayloadScan.ScanPayload`); `LargePayload.ScanHollow` scans a tree beyond the limit.
* The relative path `.` passes the path check and has no parts (`Paths.SafeParts`); no accepted payload
  contains it.

## Model

| member | source | states |
|---|---|---|
| `HandoffProtocol.Handoff.RecordStage` | scripts/bootstrap-production-deploy.py:2229-2295 | Publishing a record refuses exactly the states the record type forbids, writes nothing then, and keeps the store invariant whether none, one or both of its writes land. |
| `HandoffProtocol.Handoff.EnsureBootoutIntent` | scripts/bootstrap-production-deploy.py:1236-1259 | After it returns, a bootout intent of this operation for this label is durable; the mismatch refusal cannot happen; nothing else changes. |
| `HandoffProtocol.Handoff.StopLabel` | scripts/bootstrap-production-deploy.py:2559-2600 | One turn of the stop loop: neither missing-evidence refusal can happen, no label becomes loaded, no other label changes, and a turn that gets through leaves the label stopped, unloaded and not restarted. |
| `HandoffProtocol.Handoff.StopLoop` | scripts/bootstrap-production-deploy.py:2559-2601 | It gets through only from a resumable state and is refused only from one that is not; no label becomes loaded; when it gets through every label is unloaded and a durable "stopped" record lists all of them; a stop phase is never refused and stays a stop phase at every interruption. |
| `HandoffProtocol.PrepareThroughCrashes` | scripts/bootstrap-production-deploy.py:2437-2601 | Whatever number of attempts to prepare a deployment crash, none is refused, every unloaded label is durably stopped or has a bootout intent of the operation, the loaded set only shrinks so no label is unloaded twice, and an attempt that gets through ends with every label stopped under a "stopped" record. |
| `HandoffProtocol.RecoverThroughCrashes` | scripts/bootstrap-production-deploy.py:1949-2601 | A resume or rollback that takes up its own operation while that is stopping, or supersedes another that is incomplete, tried until it does not die: labels only ever go down, every unloaded label keeps its evidence, it is refused only for a torn record, from a torn record it is refused at once with nothing changed, and an attempt that gets through has stopped every label. |
| `HandoffProtocol.RollBackThroughCrashes` | scripts/bootstrap-production-deploy.py:2844-2858 | The same for a formal rollback, which is given its operation and is not refused even for a torn record, and for the rollbacks behind its death. |
| `HandoffProtocol.RetryTorn` | scripts/bootstrap-production-deploy.py:1262-1361 | Where a recovery is refused for a torn record, any number of attempts is refused and the store never changes. |
| `HandoffProtocol.Handoff.Prepare` | scripts/bootstrap-production-deploy.py:2437-2601 | At every exit the invariant holds, and the operation in hand is the active one or has not begun, except after a fork. It forks only where `Forks` held, and where `Forks` held it forks or something fails before. It is refused for a torn record exactly where `Refuses` held, and then changes nothing; a recovery in its stop phase that is not torn is never refused and stays in that phase. A restart behind it is unsafe only where `AtRisk` held. Getting through means all labels unloaded and a "stopped" record of the operation the intent names; the evidence and chain refusals never occur. |
| `HandoffProtocol.Handoff.Establish` | scripts/bootstrap-production-deploy.py:2481-2552 | Before the stop loop the active record is of the operation in hand and the intent names it; no label has moved; intent and record are out of step only where `Forks` held, and there they are unless something fails before; the refusal for a torn record and the danger of a restart are those of `Prepare`. |
| `HandoffProtocol.Handoff.Activate` | scripts/bootstrap-production-deploy.py:2481-2535 | Taking up or beginning the operation: the same dichotomy of forking and staying in step, and afterwards the intent names the operation or the one it supersedes. |
| `HandoffProtocol.Handoff.TakeUp` | scripts/bootstrap-production-deploy.py:2481-2511 | Either the active record is taken up into memory as it stands, or the operation has to begin and may; a deployment in progress is always taken up if it has a record. |
| `HandoffProtocol.Handoff.LoadIncomplete` | scripts/bootstrap-production-deploy.py:2307-2423 | An incomplete record of exactly this handoff is taken up, one that this recovery is bound to supersede is found partial, and any other is refused as changed; a proven one is converged; no label or intent changes. |
| `HandoffProtocol.Handoff.PrepareIntent` | scripts/bootstrap-production-deploy.py:3248-3328 | Behind a lock and a verification that may fail, a fresh deployment ends with a prepared intent bound to its own operation and commits, reusing one that already is; unless something fails before, it is refused for a prepared intent with other commits and for an adopted one that is not completed, and for nothing else, and then changes nothing. |
| `HandoffProtocol.Handoff.BeginDeploy` | scripts/bootstrap-production-deploy.py:2512-2533 | A deployment begins only with every daemon loaded, under an intent that names it, with a planned record and nothing unloaded; when it fails after it has listed the labels, its operation is active or not begun, and a restart is unsafe only if it began with every label loaded. |
| `HandoffProtocol.Handoff.BeginRecovery` | scripts/bootstrap-production-deploy.py:2512-2535 | A recovery publishes its operation as the direct successor of the active one; when it gets through, the result is out of step with the intent if and only if the intent could not follow. |
| `HandoffProtocol.Handoff.ChooseOperation` | scripts/bootstrap-production-deploy.py:2481-2510 | A recovery is bound to the commit the intent records; when it supersedes a proven operation the intent can follow if and only if `Forks` did not hold; and where `Forks` held, a recovery that cannot be followed is chosen or something fails. |
| `HandoffProtocol.Handoff.MaterializeRoot` | scripts/bootstrap-production-deploy.py:2128-2227 | A prepared deployment that never became active is given its planned root record, so a recovery never supersedes a missing one; otherwise nothing changes. |
| `HandoffProtocol.Handoff.RestartLabel` | scripts/bootstrap-production-deploy.py:2603-2624 | A label is loaded only behind a durable "restarting" record, of the active operation or not; memory and records agree afterwards; as long as nothing was loaded, only records of this operation were rewritten. |
| `HandoffProtocol.Handoff.RestartLabels` | scripts/bootstrap-production-deploy.py:2603-2624 | Errors do not stop it and a crash does; without an error every label is loaded and durably recorded as restarted; the invariant is kept whenever the record may be published. |
| `HandoffProtocol.Handoff.RecordCompleted` | scripts/bootstrap-production-deploy.py:2229-2295 | Proof, operation and active record are written in this order, the invariant holds after each of them, and a proof lists every label as stopped and restarted. |
| `HandoffProtocol.Handoff.Restore` | scripts/bootstrap-production-deploy.py:2676-2703 | A completed proof is published only for a handoff that stopped and restarted every label, and only for the generation it deployed; getting through means every label is loaded, with the proof if and only if every label had been stopped. |
| `HandoffHost.Host.ReadStrictProof` | scripts/bootstrap-production-deploy.py:1614-1656 | In no reachable state does the strict reader find a binding mismatch: it returns the stored proof or none. |
| `HandoffHost.Host.Converge` | scripts/bootstrap-production-deploy.py:1681-1710 | After any crash between the three completion writes, convergence makes operation and active record equal to the proof, changes nothing without one, and may itself crash anywhere. |
| `HandoffHost.Host.PersistRebound` | scripts/bootstrap-production-deploy.py:1895-1946 | The intent names the predecessor or the successor at every crash point, and the successor once it returns; the chain stays linked. |
| `HandoffHost.Host.AwaitsRecovery` | scripts/bootstrap-production-deploy.py:1713-1829 | An active operation awaits recovery if and only if it has no proof or its release is not committed; it is refused exactly when it is proven, uncommitted and its intent has not reached readiness. |
| `HandoffHost.Host.ValidateAndRebind` | scripts/bootstrap-production-deploy.py:1713-1829 | The active record's chain is never refused; the operation mismatch is refused exactly when a crash fell between the two record writes, and then nothing changes; a pending rebound is finished. |
| `HandoffHost.Host.SupersedingOperation` | scripts/bootstrap-production-deploy.py:1949-2031 | The superseded operation is the prepared root, or for an operation awaiting recovery the active one, or the one it supersedes when the same recovery is repeated; otherwise there is none. A missing or a completed intent is refused, and exactly then, and so is a torn record; an incomplete operation that may be recovered is refused for nothing else. |
| `HandoffLineage.WalkAncestors` | scripts/bootstrap-production-deploy.py:1262-1361 | On every finite store the ancestor walk terminates; it succeeds exactly on an acyclic chain of stored records ending at a root, and returns it. |
| `HandoffLineage.LinksArePrefix` | scripts/bootstrap-production-deploy.py:1262-1361 | A record has at most one lineage: any linked walk is a prefix of it. |
| `HandoffChain.ValidatePhysicalChain` | scripts/bootstrap-production-deploy.py:1262-1361 | Whatever is stored, the validator accepts exactly if the intent names the record or the operation it directly supersedes and the record's lineage is acyclic, ends at a root and is valid for the intent, or for the intent with its pending rebound. |
| `HandoffChain.WalkAndValidate` | scripts/bootstrap-production-deploy.py:1262-1361 | Walk and validation together accept if and only if a valid lineage exists. |
| `HandoffChain.ReachableIsAcceptable` | scripts/bootstrap-production-deploy.py:1262-1361 | In every state the protocol reaches, the chain of the active record is acceptable. |
| `HandoffChain.ChainAccepted` | src/rquant/release_generation.py:1320-1391 | A chain that the invariant describes meets every test of the supersession validator: order, targets, edges and agreeing proofs. |
| `HandoffStore.RecordPublished` | scripts/bootstrap-production-deploy.py:2229-2295 | Whichever of its writes land, publishing a record that continues, starts or succeeds the active operation keeps the invariant. |
| `HandoffStore.FirstRecordExact` | scripts/bootstrap-production-deploy.py:2229-2295 | Publishing the first record of an operation that is not active keeps the invariant if and only if the intent names the deployment, or can follow the recovery and every unloaded label is recorded as stopped. |
| `HandoffStore.RewrittenExact` | scripts/bootstrap-production-deploy.py:2603-2624 | The same for any number of rewritten "restarting" records of that operation. |
| `HandoffStore.IntentRebound` | src/rquant/release_generation.py:1037-1099 | Rebinding the intent to the published successor keeps the invariant and makes intent and active record name the same operation. |
| `HandoffStore.IntentStarted` | scripts/bootstrap-production-deploy.py:3248-3328 | A new intent may be prepared whenever no handoff is in progress. |
| `HandoffStore.IntentAdvanced` | src/rquant/release_generation.py:1037-1060 | Adopting the intent and entering further stages leaves the chain and its binding alone. |
| `HandoffStore.IntentFinished` | src/rquant/release_generation.py:1037-1060 | Completing the intent behind the proof of its operation keeps the invariant. |
| `HandoffStore.LabelUnloaded` | scripts/bootstrap-production-deploy.py:2582-2600 | Unloading a label keeps every unloaded label covered by evidence once its bootout intent is durable. |
| `HandoffStore.ProofPublished` | scripts/bootstrap-production-deploy.py:2229-2295 | A completed proof says every label was stopped and restarted, and writing it first keeps the invariant. |
| `HandoffStore.CompletionConverges` | scripts/bootstrap-production-deploy.py:1681-1710 | Once the proof is durable, each of the two remaining writes keeps the invariant, in the order convergence makes them. |
| `HandoffStore.ForkOutOfStep` | scripts/bootstrap-production-deploy.py:2533-2552 | A published successor that does not supersede the operation the intent names, or meets a completed intent, breaks the step between them. |
| `HandoffStore.SecondRollbackForks` | scripts/bootstrap-production-deploy.py:1949-2031 | A concrete store that satisfies the whole invariant and in which a second rollback publishes such a successor. |
| `HandoffProtocol.SecondRollback` | scripts/bootstrap-production-deploy.py:1949-2031 | `Prepare` itself, run on the store of `SecondRollbackForks`, supersedes deployment 1 once more and publishes the record that the intent cannot follow, unless something fails before. |
| `HandoffSession.RestartListed` | scripts/bootstrap-production-deploy.py:2603-2624 | After a failed prepare, as long as no label has been loaded and the active record was rewritten, the invariant holds if and only if `MayRestart` held before; where it held, the invariant survives the whole restart. |
| `HandoffSession.RestoreUncommitted` | scripts/bootstrap-production-deploy.py:2670-2674 | The handler of a recovery keeps the invariant where the restart may happen; getting through means every listed label is loaded. |
| `HandoffSession.AbortPrepared` | scripts/bootstrap-production-deploy.py:2626-2668 | The handler of a prepared deployment likewise; it gets through only if the previous generation is the one that came up. |
| `HandoffSession.HandleFailure` | scripts/bootstrap-production-deploy.py:3810-3830 | Whichever handler the bootstrap chooses, the invariant survives where the restart may happen. |
| `HandoffSession.HandlerForgetsStoppedLabel` | scripts/bootstrap-production-deploy.py:2414-2415 | A concrete store that satisfies the invariant and a "restarting" record of a recovery that breaks it: a stopped label is left without record and without bootout intent. |
| `HandoffSession.HandlerPublishesStrayRecord` | scripts/bootstrap-production-deploy.py:2512-2533 | A concrete store and a "restarting" record of a deployment whose intent was refused, after which no intent names the active operation and its chain is not acceptable to any recovery. |
| `HandoffSession.HandlerBuriesProvenRecord` | scripts/bootstrap-production-deploy.py:2512-2533 | A concrete store with a proven, uncommitted deployment, and the "restarting" record of a further deployment that breaks the invariant and leaves no acceptable chain. |
| `HandoffSession.StopAgain` | scripts/bootstrap-production-deploy.py:2575-2600 | On a concrete store with every label restarted the stop loop never gets through. |
| `HandoffSession.RecoverTorn` | scripts/bootstrap-production-deploy.py:1713-1829 | On a concrete store left by a handler that died between two record writes, resume and rollback are refused however often they are tried, and the store never changes. |
| `HandoffSession.RollOut` | scripts/bootstrap-production-deploy.py:2831-2890 | From a prepared handoff on, taking the intent further, the failure handler of a deployer that raises, restarting, proving and completing keep the invariant at every interruption; getting through means every label is up and, if all had been stopped, the handoff is proven and its intent completed. |
| `HandoffSession.FinishPending` | scripts/bootstrap-production-deploy.py:4013-4040 | Before a resume: an incomplete handoff is left alone, and a completed one that is not committed is finalised, so that a resume never meets a completed one of its own kind. |
| `HandoffSession.Session` | scripts/bootstrap-production-deploy.py:3786-4645 | One invocation, with its prepare, its handler or its rollout, keeps the invariant wherever it ends, unless it forked or its handler restarted where it may not, and both only if the request endangers the store it found; a store with a torn record is left as it is; an invocation whose prepare got through is never in danger, and if it gets through as a whole every label is up. |
| `HandoffSession.Sessions` | scripts/bootstrap-production-deploy.py:3786-4645 | Over every history of deployments, recoveries, failures and crashes the invariant holds before every invocation, and after the last unless that one endangered its store; each invocation that meets a torn record leaves the store unchanged. |
| `HandoffSession.DangerIsReal` | scripts/bootstrap-production-deploy.py:2603-2624 | In every endangered store, once it is converged and rebound, every variant of the record the handler publishes breaks the invariant as soon as it is the active one, until a label is loaded. |
| `HandoffSession.FirstLabelFound` | scripts/bootstrap-production-deploy.py:2608-2611 | In particular the first record of a deployment, which lists the first label it finds loaded. |
| `HandoffStore.ChainShape` | src/rquant/release_generation.py:1394-1404 | In a chain the root is the only deployment, a resume can only stand directly above the root, and everything higher is a rollback. |
| `HandoffRecords.ReboundAppends` | src/rquant/release_generation.py:1037-1099 | Advancing to recovery and rebinding appends exactly the new operation to the intent's chain and keeps its commits. |
| `StopOrder.Blocked` | scripts/bootstrap-production-deploy.py:2575-2600 | A refusal at a label means that the state on entry was not resumable. |
| `StopOrder.AllDone` | scripts/bootstrap-production-deploy.py:2559-2601 | Getting past the last label means that the entry state was resumable and every label is stopped, unloaded and not restarted. |
| `Readiness.WaitReady` | scripts/bootstrap-production-deploy.py:1123-1199 | The polling loop returns after exactly the pass that `ReadyAfter` names, for every trace of observations. |
| `Readiness.ReadyIsStable` | scripts/bootstrap-production-deploy.py:1142-1198 | When it returns, for every label all validated observations over at least the stability period showed one process and one start time, heartbeats never decreased, each advanced strictly in the returning pass, and the generation lock was held. |
| `Readiness.SteadyBecomesReady` | scripts/bootstrap-production-deploy.py:1142-1198 | Daemons that keep their process and renew their heartbeat in every pass are found ready, at the latest in the pass that completes the stability period. |
| `ArchiveDeploy.Deploy` | scripts/deploy-l2-archive.py:241-402 | After a failed activation whose handler got through, current link, both unit files, the timer's enabled and active state and the installation record are what they were, except that a first install leaves a timer inactive and never enables one; after success they are the target's and an existing timer keeps its state; a refusal touches nothing; the remote initialisation runs at most once, only for a target never staged before, and is durably recorded. |
| `ArchiveDeploy.DeployAll` | scripts/deploy-l2-archive.py:241-402 | Over any sequence of deployments, rollbacks, failures and crashes the remote initialisation is issued at most once for each target, ever. |
| `ArchiveDeploy.ActiveTimerLost` | scripts/deploy-l2-archive.py:351-402 | On a host with an active timer and no unit, a failed first install never gives the system back. |
| `ArchiveDeploy.EnabledTimerKept` | scripts/deploy-l2-archive.py:358-380 | An enabled timer is given back if the failure came before its unit file was there, and not once systemd had loaded it. |
| `ArchiveDeploy.Prepare` | scripts/deploy-l2-archive.py:266-316 | Intent, staging and remote command never touch the system; initialisation happens only on a fresh first install; a recorded attempt stays resumable. |
| `ArchiveDeploy.Activate` | scripts/deploy-l2-archive.py:319-350 | Success leaves exactly the target's link, units, timer state and installation record; a timer that was neither enabled nor active becomes so only behind a loaded unit. |
| `ArchiveDeploy.Compensate` | scripts/deploy-l2-archive.py:351-402 | If the handler gets through, link, units and installation record are the old ones and the timer pair is restored. |
| `ArchiveDeploy.SwitchBack` | scripts/deploy-l2-archive.py:351-402 | Compensation of an upgrade ends with the old release's link and units and the recorded timer pair. |
| `ArchiveDeploy.RemoveFirstInstall` | scripts/deploy-l2-archive.py:351-402 | Compensation of a first install removes both links, both units and an active timer, disables a timer whose unit is loaded and leaves one alone whose unit file never got there. |
| `ArchiveDeploy.CarryOut` | scripts/deploy-l2-archive.py:319-402 | Activation and handler together: success, full restoration or an incomplete rollback, never a refusal. |
| `ArchiveDeploy.Preflight` | scripts/deploy-l2-archive.py:241-316 | Getting through means the recorded installation, the link and both units belong together and the timer pair has been read. |
| `SymbolBindings.PrefixPreserving` | scripts/deploy-l2-component.py:88-95 | The plan of a prefix of the symbols is a prefix of the plan. |
| `SymbolBindings.PageIdsInjective` | scripts/deploy-l2-component.py:88-95 | No two bindings of a plan share a page id. |
| `AcceptanceStreams.ValidateStream` | scripts/deploy-l2-component.py:190-219 | One stream passes if and only if it meets the declarative specification and none of its sequences was used before; the used sequences grow by exactly its own. |
| `AcceptanceStreams.WalkForward` | scripts/deploy-l2-component.py:205-217 | The loop over the forward batches gets through exactly when every batch is in order and brings a new sequence. |
| `AcceptanceStreams.SpanMeansPair` | scripts/deploy-l2-component.py:215-219 | Comparing the latest with the earliest arrival means that two arrivals in the window lie a minute apart. |
| `Acceptance.ValidateLedger` | scripts/deploy-l2-component.py:131-138 | The request loop accepts exactly ledgers that follow the plan, are numbered from three and keep a second between requests. |
| `Acceptance.ValidateStreams` | scripts/deploy-l2-component.py:188-220 | The stream loop accepts exactly one stream for each expected binding, all of one epoch, each valid, no two sharing a sequence. |
| `Acceptance.ValidateAcceptance` | scripts/deploy-l2-component.py:106-226 | The validator accepts exactly the proofs that meet the declarative specification, and returns the summary the deployment uses. |
| `AcceptanceConsequences.TwelveBatchesPerSymbol` | scripts/deploy-l2-component.py:139-220 | An accepted proof's cache holds at least twelve batches for each certified symbol. |
| `AcceptanceConsequences.StreamsNeedFourEach` | scripts/deploy-l2-component.py:188-220 | Accepted streams carry at least four sequences each, pairwise distinct over all streams and within the cache. |
| `AcceptanceConsequences.IdsMoveForward` | scripts/deploy-l2-component.py:206-212 | Every id of a batch of an accepted stream exceeds every id of the seed and of every earlier batch. |
| `AcceptanceConsequences.CertifiedStreamsWereRequested` | scripts/deploy-l2-component.py:106-226 | Every certified stream's binding is among the first three requests per certified symbol. |
| `AcceptanceConsequences.RunIsLongEnough` | scripts/deploy-l2-component.py:131-138 | The accepted run lasted at least as long as pacing its certified requests takes, over the reals. |
| `CollectorHealth.ReadPages` | scripts/deploy-l2-component.py:687-703 | The paging loop takes exactly the rows `RowsTaken` names, credits exactly their wanted seeds, and terminates by the distance to the announced sequence. |
| `CollectorHealth.RowsTaken` | scripts/deploy-l2-component.py:687-703 | The rows taken in a round carry consecutive sequence numbers from the cursor on. |
| `CollectorHealth.WaitHealth` | scripts/deploy-l2-component.py:656-709 | Keeping only a cursor, an epoch and a set of seeds, the wait reaches the verdict `Judge` gives on the full log, for every trace. |
| `CollectorHealth.HealthyIsSeeded` | scripts/deploy-l2-component.py:656-709 | A healthy verdict means: the rows consumed are after_sequence + 1 onwards, once each; one epoch, not the old one; wanted bindings never shrank; each has a seed row of that epoch. |
| `CollectorHealth.LostSeed` | scripts/deploy-l2-component.py:697-706 | A binding whose seed was taken before it was wanted keeps every later round from being healthy, unless it is seeded anew. |
| `CollectorHealth.SeededYetUnhealthy` | scripts/deploy-l2-component.py:665-706 | A run in which every wanted binding was seeded in the epoch and the wait can nevertheless never succeed. |
| `CollectorHealth.ExactVerdict` | scripts/deploy-l2-component.py:656-709 | For wanted bindings that grow as they like, the verdict is healthy if and only if some round that is reached, with nothing withdrawn before, finds for every binding a seed row taken while it was wanted. |
| `CollectorHealth.SteadyVerdict` | scripts/deploy-l2-component.py:656-709 | While the wanted bindings do not change, the verdict is healthy if and only if some round that is reached finds a seed row for every one of them. |
| `ComponentHost.Host.ApiActivity` | src/rquant/l2/subscriptions.py:87-119 | Between any two steps the running API may append symbols within the limit it read at start; nothing is lost and revisions do not go back. |
| `ComponentHost.Host.SaveCapacity` | scripts/deploy-l2-component.py:568-579 | The capacity policy is rewritten only while the API is stopped, and only for symbols that fit it. |
| `ComponentHost.Host.StartCollector` | scripts/deploy-l2-component.py:850-852 | A collector start is issued only behind a durable record of that very start. |
| `ComponentDeploy.ConfigureControl` | scripts/deploy-l2-component.py:568-579 | A non-empty symbol list is never altered, an empty one becomes the initial list with a higher revision, a list beyond the policy is refused with nothing written, and symbols fit the policy at every crash point. |
| `ComponentDeploy.StopOld` | scripts/deploy-l2-component.py:823-835 | The API is down before the symbols are read for the last time; the handler's flags tell exactly what was attempted. |
| `ComponentDeploy.StartRecorded` | scripts/deploy-l2-component.py:845-854 | The start is recorded durably first and issued at most once; a start not issued leaves the collector as it was. |
| `ComponentDeploy.Attempt` | scripts/deploy-l2-component.py:817-864 | Wherever the block ends, the capacity and start invariants hold and the handler's flags match the state; success leaves policy, link, record and intent of the target with the API up, and the collector up exactly if it is not a rollback. |
| `ComponentDeploy.Compensate` | scripts/deploy-l2-component.py:865-911 | The handler never starts the collector; once its last intent has landed, the policy and link of a replaced release are back and its API is up, or the first install's link is gone; before that it leaves the intent alone or blocks it. |
| `ComponentDeploy.SwitchBack` | scripts/deploy-l2-component.py:872-882 | Compensation is blocked, with the policy left alone, when the symbols have outgrown the old policy. |
| `ComponentDeploy.Admit` | scripts/deploy-l2-component.py:751-797 | The preflight writes nothing, refuses only for failing checks or for the first reason that applies, and lets an invocation through only with a finished intent, policy and link in step, fitting symbols, outside the restart window, and a minute after the last start unless it is a rollback. |
| `ComponentDeploy.Deploy` | scripts/deploy-l2-component.py:734-911 | Symbols always fit the installed policy and the running API's limit, no symbol is lost, revisions never decrease; at most one collector start, none for a rollback or a refusal; recorded starts a minute apart; what success and failure leave behind; a failed deployment that undid itself is halted if and only if it was left out of step; an invocation that dies or cannot undo itself leaves the deployer halted unless it wrote nothing or its complete intent had landed; and a halted deployer writes nothing. |
| `ComponentDeploy.DeployAll` | scripts/deploy-l2-component.py:734-911 | The same for each invocation of every sequence of invocations, failures and crashes; and from the first halted state of a run on, every invocation is refused or dies and the state never changes again. |
| `ComponentDeploy.HaltedAfterFailure` | scripts/deploy-l2-component.py:836-911 | A deployment that undid itself is halted if and only if it had recorded its installation, or had written the link or another policy without getting to know that it had switched. |
| `ComponentDeploy.PolicyLeftBehind` | scripts/deploy-l2-component.py:836-840 | A concrete upgrade that fails behind its new policy, is undone by the handler, and halts the deployer. |
| `ComponentDeploy.DieAfterCommit` | scripts/deploy-l2-component.py:858-871 | After a commit, dying in the handler behind the stopped units leaves the deployer halted if and only if the complete intent did not land. |
| `LptBound.GreedyWithinBound` | scripts/full_suite_shards.py:477-487 | For every weighting and shard count m, 3m times the heaviest shard of the greedy plan is at most 4m - 1 times the heaviest shard of any other assignment. |
| `LptBound.LoadGapThroughout` | scripts/full_suite_shards.py:481-486 | After every step of the loop no two shards differ by more than the largest weight dealt so far. |
| `LptBound.LoadsConserveWeight` | scripts/full_suite_shards.py:481-486 | The shard loads add up to the total weight. |
| `LptBound.Lightest` | scripts/full_suite_shards.py:484 | The first of the least loaded shards. |
| `FileDeal.GroupByFile` | scripts/full_suite_shards.py:467-476 | Grouping succeeds if and only if every nodeid is valid, and gives each file its cases in order, files in order of first occurrence. |
| `FileDeal.DealToShards` | scripts/full_suite_shards.py:481-487 | The loop over loads puts every file where the greedy assignment puts it. |
| `ShardPlan.PlanPlacesEveryCase` | scripts/full_suite_shards.py:467-487 | Every case lands, with all its copies, on the one shard of its file and on no other. |
| `ShardPlan.PlanInventsNothing` | scripts/full_suite_shards.py:467-487 | Every planned case was collected. |
| `ShardPlan.PlanIsCanonical` | scripts/full_suite_shards.py:467-487 | The plan depends only on the multiset of nodeids. |
| `ShardPlan.PlanWithinFourThirds` | scripts/full_suite_shards.py:477-487 | No planned shard weighs more than (4m - 1)/3m of the heaviest shard of any whole-file assignment; 19/15 at five shards. |
| `ShardPlan.PlanShards` | scripts/full_suite_shards.py:418-487 | The planner succeeds exactly for five shards and valid nodeids, and returns the plan the lemmas describe. |
| `ManifestText.CanonicalIsLine` | scripts/full_suite_shards.py:268-283 | A text is accepted as canonical for an object if and only if it is the encoding of that object with one line feed. |
| `ManifestText.SplitLinesConcat` | scripts/full_suite_shards.py:585 | Lines that end in their only break come back from `splitlines` as they were. |
| `ShardManifest.ReadShard` | scripts/full_suite_shards.py:575-614 | The reader accepts exactly the texts of admissible shards and returns their nodeids. |
| `ShardManifest.LoadManifest` | scripts/full_suite_shards.py:617-715 | The loader accepts exactly the bundles that belong to some groups and fit the total with the skip map, and returns these groups. |
| `ShardManifest.ChecksPinIndex` | scripts/full_suite_shards.py:640-714 | Together the loader's checks leave exactly one index for given groups and skip map. |
| `ShardManifest.WriteManifest` | scripts/full_suite_shards.py:494-567 | The writer writes a bundle if and only if one exists for the sorted groups that keeps its limits, and writes that one. |
| `ShardManifest.RoundTrip` | scripts/full_suite_shards.py:494-715 | A bundle is written if and only if one within the writer's limits exists; whatever was written loads back to the same sorted groups if and only if index, shards and skip map fit the total; otherwise it is refused. |
| `LargeManifest.WrittenThenRefused` | scripts/full_suite_shards.py:494-633 | Three nodeids with lines of these lengths, the last of them in the skip map, are written and cannot be loaded. |
| `LargeManifest.LongNodeidLines` | scripts/full_suite_shards.py:519-530 | There are such nodeids in every plain test file with a path of ten characters: the lengths of their records in JSON without escapes. |
| `Paths.SafePartsOfPath` | scripts/publish-authority-runtime.py:263-274 | The text of safe parts is accepted unless it is too long, and splits back into these parts. |
| `Paths.SafePartsSound` | scripts/publish-authority-runtime.py:263-274 | Accepted parts are safe and join to the path again, the path `.` aside. |
| `Paths.FoldPrefixes` | scripts/publish-authority-runtime.py:333-339 | The prefix loop gets through if and only if all prefixes, with those before, fold to different texts. |
| `RuntimeManifest.ValidateFiles` | scripts/publish-authority-runtime.py:323-354 | The loop accepts exactly lists of well-formed entries with distinct paths whose prefixes all fold apart. |
| `RuntimeManifest.ValidateManifest` | scripts/publish-authority-runtime.py:277-363 | The validator accepts exactly the valid manifests: header, entries, sorted paths, an executable entry with the executable mode. |
| `PayloadScan.ScanPayload` | scripts/publish-authority-runtime.py:366-477 | The scan accepts exactly the clean trees whose paths fold apart and whose entries up to the last file are within the limit, and returns their whole inventory; it calls a tree oversized only for the last of these. |
| `PayloadScan.Visit` | scripts/publish-authority-runtime.py:394-474 | Visiting a directory adds exactly what lies below it to the inventory and to the folded paths, and stops as oversized exactly where the entries up to some file are too many. |
| `LargePayload.ScanHollow` | scripts/publish-authority-runtime.py:470-474 | A tree of more directories than the inventory limit is accepted with its whole inventory. |
| `PayloadScan.InventorySettled` | scripts/publish-authority-runtime.py:366-477 | Every entry of an inventory has a safe path and a good mode, and every directory on the way to it is there. |
| `SealPublish.SealedEntries` | scripts/publish-authority-runtime.py:716-768 | The generated entries list every file of the inventory once, in path order, and nothing else. |
| `SealPublish.SealedManifestValid` | scripts/publish-authority-runtime.py:826-903 | The manifest that sealing generates for a payload with its launcher is valid if and only if no path is too long and there are not too many files. |
| `SealPublish.SealedMatches` | scripts/publish-authority-runtime.py:1081-1090 | Publishing's inventory comparison accepts a sealed payload with its own manifest if and only if every directory has a file below it. |
| `SealPublish.CheckCandidate` | scripts/publish-authority-runtime.py:1040-1090 | The checks before anything is copied accept exactly a manifest of at most 16 MiB that is valid, over a payload that the scan accepts and whose files and directories are those of the manifest. |
| `SealPublish.SealThenPublish` | scripts/publish-authority-runtime.py:771-1090 | Sealing yields a manifest exactly for scannable payloads with an executable launcher, and publishing accepts the result if and only if paths, number of files and encoded manifest fit and every directory has a file below it. |
| `LargePayload.SealedThenRefused` | scripts/publish-authority-runtime.py:771-1090 | A payload of a launcher and 81,050 or more files with names of 100 characters is sealed, meets every other condition of publishing, and is refused for a manifest beyond 16 MiB. |
| `SealPublish.AcceptedIsPrefixFree` | scripts/publish-authority-runtime.py:1081-1090 | In an accepted manifest no path lies below another. |
| `SealOrder.Directories.OpenChain` | scripts/publish-authority-runtime.py:480-515 | The chain opens if and only if every directory on the way is there in the mode expected of it. |
| `SealOrder.Directories.CreateAll` | scripts/publish-authority-runtime.py:1126-1140 | Creation finds every parent, and makes all directories, if and only if no directory comes before one it lies in. |
| `SealOrder.Directories.SealAll` | scripts/publish-authority-runtime.py:852-874 | Sealing finds every directory and its parents unsealed, and seals them all, if and only if no directory comes before one that lies in it. |
| `SealOrder.SlashOrder` | scripts/publish-authority-runtime.py:1126-1191 | Sorting by the number of slashes puts parents first, and the reverse puts children first. |
| `SealOrder.ManifestDirsClosed` | scripts/publish-authority-runtime.py:1082-1086 | The directories expected for a manifest contain all their parents. |
| `SealOrder.PayloadDirsClosed` | scripts/publish-authority-runtime.py:852-856 | The directories found in a scanned payload contain all their parents. |
| `SealOrder.CreateThenSeal` | scripts/publish-authority-runtime.py:1126-1191 | For the directories of any manifest, both loops of publishing get through in any order their sort keys allow, and leave every directory sealed. |
| `SealOrder.SealScanned` | scripts/publish-authority-runtime.py:852-874 | The sealing loop gets through for every payload the unsealed scan accepts, and leaves every directory sealed. |
| `PublishOnce.InvStep` | scripts/publish-authority-runtime.py:1092-1274 | Every step of every publisher, failures and kills included, keeps the invariant and every visible generation. |
| `PublishOnce.AppendOnly` | scripts/publish-authority-runtime.py:1092-1274 | In every run of concurrent publishers a visible generation is complete (payload, manifest, digest, signature) and never changes or disappears. |
| `PublishOnce.MutualExclusion` | scripts/publish-authority-runtime.py:1092-1116 | At most one publisher is between taking the lock and releasing it. |
| `PublishOnce.AtMostOneSucceeds` | scripts/publish-authority-runtime.py:1092-1274 | However publishers interleave, fail and die, at most one of those with the same release ever publishes it. |
| `PublishOnce.SuccessIsLasting` | scripts/publish-authority-runtime.py:1231-1274 | A publisher that reported success finds its own generation under its name in every later state. |

## Left out

- File identity, ownership, symbolic link and inode checks, fsync and descriptor handling: a durable write is atomic and either lands or does not.
- SHA-256, JSON and case folding: a digest function with well-formed results, a codec that decodes what it encodes onto one line, and an arbitrary fold function; the encoded length of a runtime manifest is a parameter, bounded below by `SealPublish.LeastBytes`.
- Clocks and deadlines: the component deployer's clock never goes back; for the polling loops, whether a deadline has passed is part of the observed trace, so the arithmetic of the timeouts (630 or 5 rounds of one second, `2 * len(expected) + 30` seconds) is not modelled.
- Handoff: the deployment intent is one slot that is either prepared or adopted; records can always be read; installation identity, target refs, the authority validation of generations and label digests are not modelled, except that verifying the installed generation may fail and does while an adopted intent is not completed; label lists are sets.
- HandoffSession.Session: the deployer between prepare and restore appears only through the stages it enters in the intent and the way it ends; checkout, migrations and service switches are not modelled, and the formal rollback behind a failed deployment is the next invocation.
- HandoffProtocol.Handoff.Restore: does not state that readiness is ever reached.
- ComponentDeploy.Deploy: does not claim full restoration after a failure, because the code does not give it; unit files, sockets and release contents are checks that may fail.
- ComponentDeploy.Compensate: the removal of the unit files of a failed first install is one step that may fail.
- SealPublish.SealThenPublish: starts from the payload as its files have been rewritten and its modes sealed; the rewriting of build paths inside files is not modelled.
- PublishOnce.AppendOnly: a stage name belongs to one publisher; collisions of random stage tokens are not modelled, nor are the modes of a published directory.
- CollectorHealth.WaitHealth: the variant that only waits for the API, without a collector, is not modelled.
- Origin verification, archive inspection, release staging, unit contents, the audit log, argument parsing, and every other script and module of the repository: they would add wrappers over code outside this model.
