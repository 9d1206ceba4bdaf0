# Hardline: a verified model of apply, rollback and the policy compilers

Hardline applies a hardening profile to a host over SSH, step by step, and can roll a run back. This project models
the parts of it whose correctness is hardest to see from the code and proves what they are for:

- **The transaction engine.** `Protocol` is the apply and the rollback command as a state machine over atomic actions:
  taking the lock, one check, one journal write or rename, one plugin apply, one restore. The environment answers each
  action with a success, a failure, or a failure whose effect landed all the same; a list of answers that ends early is a
  process that stopped. `Machine` is the same program as it runs, a client object that updates the host, its journal
  files and the lock in place, each method proved to take exactly the state machine's steps. On the state machine are
  proved: that an interrupted rollback can always be resumed and ends where an uninterrupted one would (`CrashResume`,
  `RollbackRuns`), that an apply stopped or failed anywhere has journalled what would restore the host and that its
  automatic rollback does (`ApplyRuns`, `ApplySafety`, `WriteAhead`, `StoppedRuns`, `AutoRollback`), which journals the
  rollback command admits (`Admission`), exactly when a consumed journal means a restored host (`DegradedEnds`) and when
  a daemon's live policy comes back (`RuntimePolicies`), that nothing is restored before the preflight passed and the
  claim is durable (`RollbackOrder`), what the preflight lets through (`DriftGate`), which objects are reverted and whose
  failure is forgiven (`Accounting`), that runs stack and pop in LIFO order (`StackDiscipline`, `RunNames`), and that the
  lock makes every interleaving of any number of clients a serial run (`Serial`).
- **The firewall compiler and checker.** A profile is accepted exactly when it is usable (`FirewallAdmission`),
  normalisation keeps the first-match verdict of every packet (`FirewallMeaning`), equal text means equal policy
  (`FirewallRender`), the text read as nft reads it decides every packet as the profile does (`FirewallText`), the diff is
  empty exactly when the live rules agree (`FirewallDiff`), and a faithful load of the text reads back as the rules rendered
  (`FirewallReadBack`, `FirewallConvergence`).
- **Printers and parsers.** Shell quoting (`Quoting`), audit rules (`Audit`, `AuditRules`, `AuditRoundTrip`,
  `AuditTheorems`, `AuditIdentity`) and the line diff (`LineDiff`).
- **Change detection across layers** (`Records`, `ChangeDetection`, `Journals`, `StepGraph`, `Restarts`), and two plugins whose steps are
  transactions of their own (`Sshd`, `Packages`).

`Text` and `Sorting` hold the string and sorting functions the others use, `Wrappers` the option and result types.
`dafny verify dfyconfig.toml` checks everything.

## What the model takes as given

- A plugin's capture reads exactly the step's objects (in any order, with any runtime policies besides), its apply
  changes no others, its restore sets one object or fails, and a conflict is reported exactly when an object is not at the
  recorded value or cannot be inspected. Steps of one profile have disjoint objects.
- The host is its files, file metadata, services and packages. A runtime policy, which the firewall and the audit step
  record once per capture to show what the daemon held, is part of a capture but not an object of the host: no conflict
  check looks at it and no rollback restores it. Where a row says that the host or every object comes back, the live
  policy is not included; `RuntimePolicies` says when it comes back too, with what a reload gives taken as a function of
  the step's files.
- One command sent to the host is one action. A local rename is atomic; a local write may be torn. Writing a journal to
  the target is one action too, which the source does not guarantee: it uses `install`, so a target that itself stops in
  the middle can be left without that journal or with a torn one.
- JSON, base64 and the journal checksum are injective and a torn file is recognised; `net/netip` and the host's tools
  print canonical addresses; patterns over names are predicates.
- The reads of one preflight are one action: under the lock nothing hardline does changes the host between them. What a
  command does before it holds the lock (connecting, checking for sudo, loading the bundle) is not part of a run.
- Clocks, the profile's content, plugin results and everything the host answers are parameters.

## Where the code and its promises part

- Audit rules: a syscall list with an empty name, such as `-S a,,b`, is accepted but its printed form is not read back as
  the same rule. `AuditTheorems.RoundTripIff` gives the exact condition.
- Audit rules are compared by a text whose separators their parts may hold: two rules that differ can count as one
  (`AuditIdentity.BarsBlur`, `AuditIdentity.CommasBlur`), exactly if a bar sits in another part or a comma in another
  comparison (`AuditIdentity.SameCanonicalIff`).
- A live firewall rule without a verdict or without a match of a kind the compiler writes reads as no rule
  (`FirewallConvergence.ReadsAsNothing`), and a statement that lists several addresses as none
  (`FirewallConvergence.AddressesRead`), so the check does not see them.
- `CapturesDiffer` reports the captures {x, y} and {x, x} as equal in one direction
  (`Records.RepeatedObjectHidesAnother`). A capture is compared rightly with itself and with every capture that repeats no
  object exactly if it repeats none (`Records.ComparedRightlyIff`).
- The sshd step does not restore the drop-in when the final move reports a failure but took effect
  (`Sshd.LostMoveKeepsNewFile`); `Sshd.Host.Apply` shows that this is the only failure that leaves a changed file behind
  without a restore having failed.
- A rollback that ends degraded still consumes its journal. A consumed journal means a restored host exactly if no restore
  that may be skipped would change its object: `DegradedEnds.ConsumedMeansRestoredIff` for the host,
  `DegradedEnds.ConsumedMeansBackIff` for one object, and otherwise some attempt loses that object
  (`DegradedEnds.ToleratedLoss`).
- What a stopped or failed apply journalled is enough to restore the host, but the rollback command refuses it: it admits
  only journals of successful runs and of rollbacks under way (`Admission.RefusedIff`, `Admission.StoppedApplyIsRefused`).
- A live firewall or audit policy that disagreed with its files before the run does not come back: after the rollback the
  daemon holds what the restored files load to (`RuntimePolicies.PolicyComesBackIff`, and `OwnPolicyComesBackIff` for an
  apply that reverts itself).
- A publication reported as failed may have landed. Rolling such a run back from the runner then leaves the target naming
  it as its latest run (`StackDiscipline.LocalRollbackOfUnpublished`).

## Model

| member | source | states |
|---|---|---|
| RollbackRuns.CrashResumeRestores | internals/rollback/rollback.go:90-125 | after any number of attempts stopped anywhere, the first to finish leaves no journal and the host as one uninterrupted rollback would |
| RollbackRuns.ResumeFinishes | internals/rollback/rollback.go:90-125 | after any interruptions an attempt that meets no failure passes its preflight without force and finishes |
| RollbackRuns.AttemptStopsSafely | internals/rollback/rollback.go:50-126 | stopped at any action, an attempt leaves either a resumable journal or a consumed one with every restore tried; refusals and strict failures leave it resumable |
| RollbackRuns.StaysResumable | internals/rollback/rollback.go:90-99 | while its journal exists, a run stays resumable across all interrupted attempts |
| DegradedEnds.ConsumedMeansRestoredIff | internals/rollback/rollback.go:109-125 | every attempt that consumes the journal leaves the host of an uninterrupted rollback, exactly if every restore whose failure is tolerated finds its object at the journalled value already |
| DegradedEnds.ConsumedMeansBackIff | internals/rollback/rollback.go:454-470 | whatever fails, a consumed journal means this object is back, exactly if its restore is strict or would change nothing |
| DegradedEnds.ToleratedLoss | internals/rollback/rollback.go:454-470 | for any other object some attempt ends degraded, consumes the journal and leaves it unrestored |
| DegradedEnds.ConsumedRestores | internals/rollback/rollback.go:109-125 | after any interruptions a consumed journal whose tolerated restores change nothing means the restored host, even if the process then died |
| RollbackRuns.FullyTriedIsRestored | internals/rollback/rollback.go:272-310 | a host with all restores landed and nothing else changed is the start host with the journalled values put back |
| CrashResume.PreflightAlwaysPasses | internals/rollback/rollback.go:404-433 | with a readable host and no third-party change, a fresh preflight and a resuming one over any half-reverted host both pass |
| CrashResume.NothingInTheWay | internals/rollback/rollback.go:408-431 | an object at either its before or its after value never blocks a resumed rollback |
| CrashResume.InvNext | internals/rollback/rollback.go:50-171 | every atomic action of a rollback, whatever the environment answers, keeps the resumability invariant |
| WriteAhead.StoppedApplyIsRecoverable | internals/apply/apply.go:125-147 | stop an apply anywhere: the journal file is whole and a durable journal records the pre-run value of every changed object |
| WriteAhead.ApplyIsWriteAhead | internals/apply/apply.go:342-357 | when a plugin is about to run, the runner's journal file holds this step's objects exactly as the run found them |
| WriteAhead.AutomaticRollbackRestores | internals/apply/apply.go:192-202 | a failed or cancelled apply that reports its rollback as completed left the host as it found it and the target's journals alone |
| WriteAhead.JournalsStayWhole | internals/rollback/journal.go:88-113 | over every run of either command, stopped or failed anywhere, each journal file is the one found or a whole journal of its profile |
| WriteAhead.FallbackKeepsJournal | internals/apply/apply.go:128-138 | when the target journal could not be written and the fallback was, the runner holds the whole successful run |
| StoppedRuns.StoppedRunReplays | internals/apply/apply.go:44-250 | stop an apply at any action, those of its own rollback and last saves included: the host is untouched or replaying the runner's journal restores it, and once it succeeded replaying the target's does |
| StoppedRuns.ReplayRestores | internals/rollback/rollback.go:272-310 | reverting the journalled steps of any partial run returns every file, metadata, service and package to its pre-run value |
| Admission.RefusedIff | internals/rollback/rollback.go:90-99 | with the lock free a rollback from the runner's journal is refused at once exactly if that journal is missing, torn, or neither of a successful run nor of a rollback under way |
| Admission.StoppedApplyIsRefused | internals/rollback/rollback.go:90-99 | whatever a stopped or failed apply wrote on the runner before its outcome was out, the rollback command refuses it |
| RuntimePolicies.PolicyComesBackIff | internals/rollback/rollback.go:454-470 | after any interruptions the rollback that finishes leaves the daemon with what its captured files load to, so the live policy comes back exactly if it was that before the run |
| RuntimePolicies.OwnPolicyComesBackIff | internals/rollback/rollback.go:255-310 | the same of the automatic rollback of a failed or cancelled apply |
| RuntimePolicies.PlanTriggersLast | internals/plugins/firewall/execution.go:509-541 | the object whose restore reloads the daemon is restored after all others of its step, and none of them after it |
| ApplySafety.AInvNext | internals/apply/apply.go:169-375 | every action of an apply keeps the invariant tying journalled captures, the host and the values before the run |
| ApplyRuns.RevertibleIsCovered | internals/rollback/rollback.go:209-219 | every object that moved belongs to a step with a delta and waits in the rollback plan, unless its step is a noop |
| ApplyRuns.AutoPreflightPasses | internals/rollback/rollback.go:255-261 | the preflight of an automatic rollback passes at every point a step can fail |
| ApplyRuns.ChangedIffMoved | internals/rollback/rollback.go:209-219 | a step whose two captures list its objects alike has a delta exactly when one of its objects moved or a runtime policy differs |
| AutoRollback.FailedApplyReverts | internals/apply/apply.go:169-225 | one failed or cancelled action anywhere in the steps, and none after it, ends in a completed automatic rollback with host and target as found, the lock free and the journal file marked as failed |
| AutoRollback.FriendlyApplyFinishes | internals/apply/apply.go:44-149 | an apply that finds the lock free and meets no failure ends applied, its run published, its steps complete, the lock free, and the journal on the runner kept exactly if that was asked for |
| AutoRollback.LastSaveDecidesNothing | internals/apply/apply.go:118-125 | what a failed apply reports about its rollback, and what it leaves, does not depend on whether its last save succeeds |
| AutoRollback.FailedStartEnds | internals/apply/apply.go:86-121 | a failed check of the target or first save ends the run as not applied, whatever comes after, with host and target as found, and the runner's files too if nothing was written yet |
| AutoRollback.FailureIsJournalled | internals/apply/apply.go:227-250 | stopped anywhere after one failure, a cancelled run that is reverting has its steps on file as interrupted, and a failed or cancelled one that is over as failed |
| ApplyRuns.MovedMeansChanged | internals/rollback/rollback.go:209-219 | a step with an object away from its pre-run value has a delta and records that value |
| RollbackOrder.RestoresAreGated | internals/rollback/rollback.go:104-113 | before any restore of the rollback command all its preflight checks passed on the untouched host and the claimed journal is durable |
| RollbackOrder.RefusalLeavesHost | internals/rollback/rollback.go:77-111 | a rollback that is refused has left every host object alone |
| DriftGate.PreflightDecides | internals/rollback/rollback.go:316-356 | with the lock free and an admitted journal the command goes on exactly if every reverting step has its plugin and, unless forced, each after-object of an applying step can be inspected and is as recorded, or when resuming back at its before value |
| DriftGate.DriftIsRefused | internals/rollback/rollback.go:348-352 | one object elsewhere, or one that cannot be inspected, ends the unforced command as refused with host and journals untouched, whatever comes after |
| DriftGate.RestoresMeanNoDrift | internals/rollback/rollback.go:404-433 | whenever an unforced command has come to restore, its preflight found nothing drifted and every plugin there |
| DriftGate.OwnPreflightDecides | internals/rollback/rollback.go:255-261 | an apply's own rollback is checked the same way, never forced and never resuming |
| Accounting.PlanIs | internals/rollback/rollback.go:209-253 | the restores are those of the ordinary before-objects of steps with a delta or a caused restart that are not noop, tolerant exactly if their step is best-effort or irreversible |
| Accounting.DegradedIsForgivable | internals/rollback/rollback.go:454-470 | at any point of any attempt the objects given up on belong to best-effort or irreversible steps |
| Accounting.StrictFailureStops | internals/rollback/rollback.go:472-478 | a failed restore of any other step ends the command as stuck with its journal stored as being rolled back |
| Accounting.ForgivenFailureGoesOn | internals/rollback/rollback.go:454-470 | a failed restore of such a step is reported and the rollback goes on, or consumes the journal if it was the last |
| Accounting.OwnFailureIs | internals/rollback/rollback.go:255-270 | an apply's own rollback meets a failure the same way, and reports itself as not reverted |
| StackDiscipline.LastInFirstOut | internals/rollback/journal_remote.go:51-98 | after n successful applies started at increasing times, k successful rollbacks undo the last k in reverse and leave host and journals as before run n-k+1 |
| StackDiscipline.LaterRunIsNewest | internals/rollback/journal.go:47-52 | a run started after every run on the target has a name greater than all of theirs |
| StackDiscipline.ApplyPushes | internals/apply/apply.go:118-147 | a successful apply adds its run on top of the stack of runs |
| StackDiscipline.RollbackPops | internals/rollback/rollback.go:115-121 | a successful rollback removes exactly the top run and restores the host that run found |
| StackDiscipline.AppliedIsResumable | internals/apply/apply.go:125-140 | what a successful apply leaves is what a rollback needs |
| StackDiscipline.KeptLocallyIsResumable | internals/apply/apply.go:127-138 | a run journalled only on the runner can be rolled back from there |
| StackDiscipline.LocalRollbackOfUnpublished | internals/apply/apply.go:127-138 | rolling back from the runner a run whose publication was reported as failed restores the host, and leaves the target's journals as found exactly if the publication had not landed; if it had, the run stays the target's latest |
| RunNames.NameOrderIsTimeOrder | internals/rollback/journal.go:47-52 | comparing run names compares the times they were made |
| Machine.NamesStay | internals/rollback/journal.go:47-52 | neither command, stopped or failed anywhere, leaves a journal on the target that is not named like a run |
| RunNames.LatestFile | internals/rollback/journal_remote.go:51-69 | the scan of a listing returns its greatest journal file name and ignores every other file |
| Serial.InterleavingIsSerial | internals/remote/lock.go:18-44 | every interleaving of any number of clients, stops and lock removals included, ends with the host, journals and client states of running them in lock order |
| Serial.MutualExclusion | internals/remote/lock.go:18-37 | at most one live client is between acquire and release, and the lock exists while it is |
| Serial.LockIsNotRead | internals/remote/lock.go:18-44 | between acquire and release no action depends on the lock |
| RestorePass.PlanIsOwed | internals/rollback/rollback.go:272-310 | past the preflight the plan is exactly the ordinary objects of applying non-noop steps, none lost or repeated |
| RestorePass.NilErrorMeansAllTried | internals/rollback/rollback.go:272-310 | a rollback without error attempted every owed object exactly once |
| RestorePass.PassTriesInOrder | internals/rollback/rollback.go:444-473 | a pass attempts a prefix of the plan in order and reports exactly the failed attempts |
| RestorePass.PassEndsAtFirstStrictFailure | internals/rollback/rollback.go:454-478 | tolerated failures are collected; the first strict one is the last attempt |
| RestorePass.PassIsExec | internals/rollback/rollback.go:272-310 | the commands' restore loop makes exactly such a pass |
| RestorePass.ServicesComeLast | internals/rollback/rollback.go:288-308 | every service is restored after every file and package |
| Restoration.PlanIsDistinct | internals/rollback/rollback.go:272-310 | the plan restores each journalled object of each reverting step and no object twice |
| Restoration.OneRestore | internals/rollback/rollback.go:454-470 | one more restore, landed or failed, keeps what the earlier ones achieved |
| Machine.Client.Apply | internals/apply/apply.go:44-149 | the command takes exactly the state machine's steps from acquire to its result or its stop |
| Machine.Client.ApplyProfile | internals/apply/apply.go:169-225 | the step loop runs from the first step to publication, or to a failure that was rolled back |
| Machine.Client.AbortIfCancelled | internals/apply/apply.go:227-250 | a cancelled run saves its journal and reverts its steps; otherwise nothing happens |
| Machine.Client.ExecuteStep | internals/apply/apply.go:342-375 | capture, save, apply, capture, save, in that order, stopping at the first failure |
| Machine.Client.CompleteRecord | internals/apply/apply.go:364-370 | the after-capture and the change flag are recorded for this step only |
| Machine.Client.Publish | internals/apply/apply.go:125-147 | the success journal goes to the target, or stays on the runner when that fails |
| Machine.Client.SaveLast | internals/rollback/journal.go:88-113 | write then rename, and what each reported failure leaves |
| Machine.Client.RemoveLast | internals/rollback/journal.go:115-135 | the runner's journal is removed and a failure only warns |
| Machine.Client.SaveRemoteLast | internals/rollback/journal_remote.go:21-47 | the target's journal of this run is replaced as one action |
| Machine.Client.LoadRemoteLast | internals/rollback/journal_remote.go:51-87 | the journal of the greatest run name, refused when it records another run |
| Machine.Client.LoadRollbackJournal | internals/rollback/rollback.go:128-141 | the runner's whole journal or the target's latest one, and the status it admits |
| Machine.Client.AcquireMutationLock | internals/remote/lock.go:18-37 | success takes the lock and happens only when nobody held it |
| Machine.Client.ReleaseMutationLock | internals/remote/lock.go:39-44 | a landed release frees the lock and ends the command |
| Machine.Client.ClaimJournal | internals/rollback/rollback.go:143-158 | the claimed journal is stored before going on; a failure puts the status back |
| Machine.Client.ConsumeJournal | internals/rollback/rollback.go:160-171 | the journal is removed from where it was read; degraded restores still consume it |
| Machine.Client.RollbackCommand | internals/rollback/rollback.go:50-126 | the command takes exactly the state machine's steps from acquire to its result or its stop |
| Machine.Client.RollbackSteps | internals/rollback/rollback.go:255-270 | an automatic rollback succeeds only without refusal, strict failure or degradation |
| Machine.Client.ExecuteRollbackSteps | internals/rollback/rollback.go:272-310 | the two loops with their deferred list follow the flattened plan |
| Machine.Client.RollbackStepWithMode | internals/rollback/rollback.go:444-473 | one step's objects are restored last first under its mode; Accounting says which modes forgive a failure |
| Journals.CheckStepConflicts | internals/rollback/rollback.go:404-433 | exactly the after-objects that stand in the way, in order |
| Journals.ConflictsAre | internals/rollback/rollback.go:420-431 | an object conflicts exactly if it is ordinary, drifted and not already reverted by a resumed attempt |
| Journals.PreflightRollbackConflicts | internals/rollback/rollback.go:316-356 | the two loops decide the preflight predicate, which DriftGate.PreflightDecides states by what the host holds |
| Journals.StepChangedById | internals/rollback/rollback.go:246-253 | the first step of the name decides |
| Journals.ServiceReloadTriggered | internals/rollback/rollback.go:221-235 | a reload is replayed when its policy is not on_change or a watched step has a delta |
| Records.CapturesDiffer | pkg/pluginapi/helpers.go:17-81 | the loop decides equal length, distinct first objects and pairwise equal facts, which ChangeDetection.DifferMeans states field by field |
| ChangeDetection.DifferMeans | pkg/pluginapi/helpers.go:17-81 | captures that list no object twice count as unchanged exactly when each record of either has one in the other with an equal payload, but for whether a service was known and what was requested of a package, whatever order and messages |
| ChangeDetection.ChangedMeansMoved | internals/apply/apply.go:364-370 | over every run of a validated profile, an earlier step counts as changed exactly when one of its objects now holds something else than before the run or the runtime policies listed differ |
| ChangeDetection.RewrittenFileIsAChange | internals/apply/apply.go:364-370 | a file whose content reads differently makes its step count as changed |
| Records.CapturesDifferAsMaps | pkg/pluginapi/helpers.go:17-81 | on captures with each object once and every payload present it is the negation of keyed-map equality, hence order-free and symmetric |
| Records.ComparedRightlyIff | pkg/pluginapi/helpers.go:17-81 | a capture is compared rightly with itself and, either way round, with every capture that repeats no object exactly when it repeats none |
| Records.RepeatedObjectHidesAnother | pkg/pluginapi/helpers.go:28-37 | {x, y} against {x, x} is reported as equal, the other way round as different |
| Records.KeyTextIdentifies | pkg/pluginapi/helpers.go:86-110 | the text of the key identifies kind and name |
| StepGraph.ValidateStepGraph | pkg/profile/validation.go:73-117 | accepts exactly the graphs with trimmed unique ids in which every watched step is an earlier one |
| StepGraph.AcceptedIs | pkg/profile/validation.go:73-117 | step by step what such a graph is: names neither blank nor padded, no two alike, and service steps that watch earlier steps only |
| Restarts.WatchedStepsAreDecided | internals/apply/apply.go:369-370 | when a step of a validated profile runs, the change map already says of each watched step whether its captures differ |
| Restarts.CausedRestartIsReplayed | internals/rollback/rollback.go:221-235 | in every run of a validated profile a restart a watched change caused at apply is undone later: the service's restore is in the plan of the published journal, and of the automatic rollback if the run fails |
| Restarts.KeepsAlways | internals/apply/apply.go:342-375 | once a step runs, the records before it and its own before-capture never change again, up to the published journal |
| Restarts.DifferMeansChanged | internals/rollback/rollback.go:209-219 | a change reported at apply is a delta in the journal |
| Restarts.RecordedReloadReplays | internals/plugins/service/execution.go:258-279 | what the service step journals makes a rollback replay its reload exactly when it asked for one and, if it waits for changes, a watched step has a delta |
| Restarts.RestartPolicySuppressed | internals/plugins/service/execution.go:281-300 | a restart is skipped exactly when it waits for a change, nothing watched changed and the service is already as wanted |
| FirewallMeaning.NormalizationKeepsMeaning | internals/plugins/firewall/execution.go:729-917 | every packet gets the same verdict from the normalised spec as from the profile's rules and policies |
| FirewallMeaning.ExpansionKeepsMeaning | internals/plugins/firewall/execution.go:801-917 | one rule per port matches what the rule with all ports matches |
| FirewallMeaning.DedupeKeepsMeaning | internals/plugins/firewall/execution.go:774-788 | dropping rules whose key occurred earlier changes no verdict |
| FirewallMeaning.OverridesOnlyFillGaps | internals/plugins/firewall/overrides.go:13-44 | appended overrides change only packets no profile rule decides |
| FirewallMeaning.FirewallStep.ApplyOverrides | internals/plugins/firewall/overrides.go:13-44 | accept rules are appended for both port lists, or the step is refused and left as it was |
| Text.CleanIs | internals/plugins/firewall/execution.go:1026-1050 | a cleaned word is the text inside its white space with its capital letters made small |
| Firewall.NormalizeDesiredSpec | internals/plugins/firewall/execution.go:729-799 | the loops compute the specification function, error for error |
| Firewall.NormalizeDesiredRule | internals/plugins/firewall/execution.go:801-917 | one rule becomes its sorted per-port rules or the first error |
| Firewall.NormalizedIsWellFormed | internals/plugins/firewall/execution.go:729-799 | an accepted spec has known fields, sorted states, a policy for each chain used and no key twice |
| FirewallAdmission.AcceptedIff | internals/plugins/firewall/execution.go:729-917 | a profile is accepted exactly if family, table, policies and each rule's words, ports, addresses, interfaces and states are usable and every rule has something to match and a policy for its chain |
| Firewall.KeyIdentifies | internals/plugins/firewall/execution.go:1732-1744 | a rule with the key of a normalised rule is that rule, however foreign |
| FirewallDiff.DiffNormalized | internals/plugins/firewall/execution.go:1441-1524 | the loops compute the differences of policies, rules and order over the managed chains |
| FirewallConvergence.CheckIsExact | internals/plugins/firewall/execution.go:1441-1524 | for every accepted profile and every listing, foreign rules included, the diff is empty exactly when each managed chain's last listed policy is the desired one, accept if none is listed, and its rules read back as the desired ones in order |
| FirewallConvergence.DiffNames | internals/plugins/firewall/execution.go:1441-1524 | exactly which policy changes, from what to what, which rules to add and to remove and which reordered chains a check reports |
| FirewallConvergence.LivePolicyStands | internals/plugins/firewall/execution.go:1104-1153 | the policy read for a chain is the one the last entry of the table shows for it, accept if none shows any |
| FirewallConvergence.CurrentStateIsReadBack | internals/plugins/firewall/execution.go:1104-1153 | whatever a table holds, the live state read from it has sorted known states, no negative port and no key twice |
| FirewallRender.RenderNormalized | internals/plugins/firewall/execution.go:1526-1555 | the text is the lines of the specification, which FirewallText.TextReadsBack says what they mean |
| FirewallText.TextReadsBack | internals/plugins/firewall/execution.go:1526-1609 | a reader of the table, chain, hook, policy and rule words finds in the text the spec's family and table and each managed chain with its hook, policy and rules in order |
| FirewallText.TextDecidesAsProfile | internals/plugins/firewall/execution.go:1526-1609 | the text an accepted profile is rendered to gives every packet the profile's verdict |
| FirewallRender.RenderRuleInjective | internals/plugins/firewall/execution.go:1579-1609 | two normalised rules of one chain with the same text are the same rule |
| FirewallRender.RenderingIsInjective | internals/plugins/firewall/execution.go:1526-1609 | two normalised specs render alike exactly when family, table, policies and per-chain rules agree |
| FirewallReadBack.NormalizeNftRuleExpr | internals/plugins/firewall/execution.go:1155-1322 | the statement loop and the checks after it compute the specification function |
| FirewallReadBack.NormalizeCurrentState | internals/plugins/firewall/execution.go:1104-1153 | policies and deduplicated rules of exactly this table, which FirewallConvergence.LivePolicyStands and RuleReadsBack say what they are |
| FirewallReadBack.DecodeNftStringValues | internals/plugins/firewall/execution.go:1366-1427 | the cleaned values of a string, array, set or prefix, each once and sorted |
| FirewallReadBack.ExpressedIsNoted | internals/plugins/firewall/execution.go:1200-1268 | each way nft lists a rendered match is read as that match |
| FirewallConvergence.RuleReadsBack | internals/plugins/firewall/execution.go:1155-1322 | statements carrying the matches a rule's text names, among ignorable ones, normalise to exactly that rule |
| FirewallConvergence.ReadBackConverges | internals/plugins/firewall/execution.go:1104-1153 | a listing that shows the hooks, policies and rules a reader finds in the rendered text gives an empty diff |
| FirewallConvergence.PortListIsRead | internals/plugins/firewall/execution.go:1325-1364 | a statement that lists several ports names them all |
| FirewallConvergence.PortsReadAsRules | internals/plugins/firewall/execution.go:1268-1308 | a live rule with several ports reads as one rule for each valid one, in rising order |
| FirewallConvergence.ReadsAsNothing | internals/plugins/firewall/execution.go:1260-1315 | a live rule without a verdict or without a known match reads as no rule |
| FirewallConvergence.AddressesRead | internals/plugins/firewall/execution.go:1366-1427 | a statement with several addresses names none |
| LineDiff.DiffLines | internals/plugins/firewall/execution.go:1660-1717 | the edits turn one text into the other and change no more lines than any script |
| LineDiff.NoShorterScript | internals/plugins/template/execution.go:259-316 | no edit script between two texts has fewer changes than the common subsequence leaves |
| LineDiff.LcsIsMaximal | internals/plugins/firewall/execution.go:1668-1682 | the table's value bounds every common subsequence |
| LineDiff.LcsIsAttained | internals/plugins/firewall/execution.go:1668-1682 | some common subsequence has that length |
| LineDiff.LcsTable | internals/plugins/firewall/execution.go:1664-1682 | each cell is the common subsequence length of the two suffixes |
| LineDiff.RenderContentDiff | internals/plugins/template/execution.go:217-248 | within the line limit a preview is printed exactly when the texts differ in their lines, and it stays within its length |
| Quoting.ShellArgRoundTrip | pkg/pluginapi/helpers.go:13-15 | decoding a quoted text gives the text back |
| Quoting.UnquoteConcat | pkg/pluginapi/helpers.go:320-362 | decoding two decodable words in a row gives their decodings in a row |
| Quoting.UnquoteShellWord | pkg/pluginapi/helpers.go:322-362 | the loop decodes a word as the POSIX quoting forms say, or fails |
| Quoting.UnquotedByteFails | pkg/pluginapi/helpers.go:322-362 | an unquoted byte where a piece should start fails the whole word, wherever it stands |
| Quoting.DecodeAnsiC | pkg/pluginapi/helpers.go:365-411 | the ANSI-C form ends at its quote and decodes its escapes |
| Quoting.AnsiOctalRoundTrip | pkg/pluginapi/helpers.go:365-411 | a text spelled in octal escapes decodes to itself |
| Quoting.DoubleQuotedRoundTrip | pkg/pluginapi/helpers.go:334-350 | a text escaped in double quotes decodes to itself |
| Quoting.AnsiLetterRoundTrip | pkg/pluginapi/helpers.go:365-411 | a text spelled with one-letter escapes decodes to itself |
| Quoting.AnsiHexRoundTrip | pkg/pluginapi/helpers.go:365-411 | a text spelled in hexadecimal escapes of either case decodes to itself |
| Quoting.BackslashRoundTrip | pkg/pluginapi/helpers.go:354-356 | a word with a backslash ahead of each byte decodes to itself |
| Quoting.ReopenedRoundTrip | pkg/pluginapi/helpers.go:322-362 | a single-quoted text whose quotes stand behind a backslash between its pieces decodes to itself |
| Quoting.PlainBackslash | pkg/pluginapi/helpers.go:334-350 | in double quotes a backslash ahead of any byte that needs none stands for itself |
| Quoting.ShellArgIsPrefixFree | pkg/pluginapi/helpers.go:13-15 | a quoted word followed by anything decodes to its text first |
| AuditTheorems.RoundTripIff | internals/plugins/audit/rules.go:25-172 | parsing undoes printing, part by part as well as up to the canonical form, exactly for watch rules and for syscall rules without an empty name |
| AuditTheorems.DoubledCommaBreaks | internals/plugins/audit/rules.go:131-135 | every list with a doubled comma is accepted and does not survive printing |
| AuditTheorems.OrderDoesNotMatter | internals/plugins/audit/rules.go:157-160 | moving -S and plain -F options about changes nothing of the parsed rule |
| AuditTheorems.MissingRules | internals/plugins/audit/rules.go:275-288 | the wanted rules whose canonical form is not loaded, in order, which AuditIdentity.ReportedIff states by their parts |
| AuditIdentity.CanonicalTells | internals/plugins/audit/rules.go:18-23 | two rules have one canonical form exactly if they are of one kind and their parts fall into the same pieces between bars |
| AuditIdentity.SameCanonicalIff | internals/plugins/audit/rules.go:18-23 | two parsed rules are the same in kind and parts exactly if their canonical forms are and each part has as many bars, each comparison as many commas |
| AuditIdentity.UnmarkedAreTold | internals/plugins/audit/rules.go:18-23 | parsed rules without bars and commas have one canonical form exactly if they agree in kind, watch, permissions and key, or list, names, comparisons and key |
| AuditIdentity.BarsBlur | internals/plugins/audit/rules.go:18-23 | a watch with a bar in its path and the one with the part behind it as permissions and the old permissions moved into the key both parse, differ, and are taken for one |
| AuditIdentity.CommasBlur | internals/plugins/audit/rules.go:18-23 | so are a comparison with a comma and its two halves |
| AuditIdentity.ReportedIff | internals/plugins/audit/rules.go:275-288 | a wanted rule is reported exactly if no loaded one blends with it, and without bars and commas exactly if none has the same parts |
| AuditIdentity.ListFirstIsTheSame | internals/plugins/audit/rules.go:181-203 | list and action in either order, under -a or -A, parse alike anywhere in a line |
| AuditIdentity.KeyFieldIsKey | internals/plugins/audit/rules.go:142-155 | `-F key=k` and `-k k` parse alike anywhere in a line |
| AuditIdentity.PathFieldsAreAWatch | internals/plugins/audit/rules.go:205-233 | an exit rule with a path or directory field and a permission field parses as the watch with that path and those permissions |
| AuditIdentity.NoPermissionsAreAll | internals/plugins/audit/rules.go:168-170 | a watch without permissions parses as one for all four |
| AuditTheorems.LoadedRulesAreNotMissing | internals/plugins/audit/rules.go:275-288 | rules that survive printing are not reported as missing once loaded |
| AuditRules.ParseRuleTokens | internals/plugins/audit/rules.go:103-172 | the indexed loop reads options in pairs, sorts, folds and fills in permissions |
| AuditRules.FoldWatch | internals/plugins/audit/rules.go:205-233 | a plain exit rule over one path becomes the watch rule it means |
| AuditRules.RuleString | internals/plugins/audit/rules.go:25-48 | the printed text is the rule's options joined with spaces |
| AuditRoundTrip.ParsedIsParsed | internals/plugins/audit/rules.go:103-172 | every parsed rule is in normal form part by part and stays so when folded again |
| AuditRoundTrip.OddFails | internals/plugins/audit/rules.go:105-150 | an odd number of tokens never parses |
| Audit.FieldStays | internals/plugins/audit/rules.go:250-267 | normalising a comparison twice is normalising it once |
| Audit.ComparisonReads | internals/plugins/audit/rules.go:250-267 | a comparison stays as written, but for an id field the two numbers for no user read as unset |
| Audit.TrailingSlashes | internals/plugins/audit/rules.go:235-240 | slashes at the end of a path do not count, unless there is nothing else |
| Audit.SameLettersIff | internals/plugins/audit/rules.go:269-273 | permissions are the same exactly when they are the same letters in some order |
| Audit.RuleListStays | internals/plugins/audit/rules.go:181-203 | the normalised list is accepted and stays as it is |
| Sshd.Host.Apply | internals/plugins/ssh/execution.go:144-208 | a failure whose restore did not fail leaves the old file exactly unless the move of a new file was lost; reloads of new content follow both checks on those files; success means the daemon runs the verified file |
| Sshd.LostMoveKeepsNewFile | internals/plugins/ssh/execution.go:124-142 | from every file that is not aligned, a move that lands but reports failure leaves the new file in place, unread by the daemon |
| Sshd.Host.RestoreFileSnapshot | pkg/pluginapi/helpers.go:512-554 | on success the file equals the snapshot, special bits included, whatever the chown cleared |
| Sshd.Host.Install | internals/plugins/ssh/execution.go:124-142 | the file changes only to a candidate sshd accepted by itself |
| Sshd.Host.Activate | internals/plugins/ssh/execution.go:176-193 | the reload comes after the parse and key-authentication checks and before the effective policy is compared |
| Sshd.Host.RestorePrevious | internals/plugins/ssh/execution.go:210-221 | the daemon is reloaded from the restored file exactly when it may have read the new one |
| Packages.RemovalsAreJournalled | internals/plugins/packages/backend.go:350-389 | every package a guarded transaction removes has a record asking for its reinstall, up to an arch suffix |
| Packages.ValidatedNeverAsksBoth | internals/plugins/packages/validate.go:18-80 | no record of a validated step asks for both removal and reinstall |
| Packages.NoRecordAsksBothIff | internals/plugins/packages/backend.go:355-381 | some record asks for both exactly when a name is on both sides |
| Packages.ValidateLists | internals/plugins/packages/validate.go:18-50 | accepts exactly lists of valid names, none twice and none on both sides |
| Packages.ValidatePurgeCollateral | internals/plugins/packages/validate.go:52-80 | accepts exactly collateral lists without blanks, repeats or names of the other lists |
| Packages.GuardPurgeTransaction | internals/plugins/packages/exec.go:89-101 | lets a transaction through exactly when everything it removes was declared |
| Packages.Targets | internals/plugins/packages/exec.go:103-131 | every name once and sorted, and which list asks for it |
| Packages.DeclaredNameSet | internals/plugins/packages/rpm.go:80-93 | the trimmed names with an arch suffix taken off |
| Packages.BareIs | internals/plugins/packages/rpm.go:80-118 | a declared name loses exactly the known arch it ends with, if something is left of it |
| Packages.TrimRPMArch | internals/plugins/packages/rpm.go:111-118 | the first arch in the list that ends the token |
| Packages.Capture | internals/plugins/packages/backend.go:350-402 | one record per name, failing exactly when a query fails; irreversible exactly when it takes an installed package away, else best-effort exactly when it installs, upgrades or autoremoves |
| Packages.CapturedAre | internals/plugins/packages/backend.go:350-389 | each record holds what the query answered for its name and which lists name it, and every name has just one |
| Packages.Manager.Apply | internals/plugins/packages/backend.go:228-292 | whatever fails or stops it, only declared packages are gone; on success the installs are there and just what was previewed for removal is gone |

## Left out

- SSH, SFTP, sudo, timeouts and command texts: the host is state with actions that succeed, fail, or land although reported as failed.
- JSON, base64, SHA-256 and the journal's version and checksum checks: a torn file is a value of its own, every other file is whole.
- Concurrent writers that are not hardline clients: `--force-rollback` is modelled, the third-party change it overrides is only a conflict.
- The host name recorded in a runner-side journal and name sanitising in paths: one host, and profiles are told apart by their ids.
- Service states systemd cannot express with enable and disable, and `file_meta` restores of special mode bits: excluded by the assumption that a restore sets its object.
- RestorePass.ServicesComeLast: assumes that steps with service objects hold no others, which the shipped plugins keep.
- WriteAhead.AutomaticRollbackRestores: excludes the noop rollback mode, which no shipped plugin reports; ApplyRuns.RevertibleIsCovered says what holds with it.
- StackDiscipline.ApplyPushes: excludes the noop rollback mode.
- StackDiscipline.RollbackPops: excludes the noop rollback mode.
- StackDiscipline.LastInFirstOut: excludes the noop rollback mode.
- StackDiscipline.LocalRollbackOfUnpublished: excludes the noop rollback mode.
- Machine.Client.SaveRemoteLast: writes the target's journal as one action; a target that stops inside `install` is not modelled.
- RuntimePolicies.PolicyComesBackIff: is about steps the rollback reverts, and assumes that a reload reads only the step's own files and does not change them.
- AutoRollback.FailedApplyReverts: says that the host is as found only without the noop rollback mode; it ends the same way with it.
- StoppedRuns.StoppedRunReplays: excludes the noop rollback mode, whose steps no replay reverts.
- ChangeDetection.ChangedMeansMoved: assumes that no capture lists a runtime policy twice.
- FirewallText.TextReadsBack: reads the words, not nft's grammar: what nft accepts beyond the lines the renderer writes is not modelled.
- AuditIdentity.BarsBlur: is about paths and permissions that parse as such; other texts with bars blur by AuditIdentity.SameCanonicalIff alone.
- Restarts.CausedRestartIsReplayed: assumes that no capture lists a runtime policy twice, and that the step is not in noop mode.
- RollbackRuns.CrashResumeRestores: is about the attempt that ends undegraded; DegradedEnds.ConsumedRestores and ConsumedMeansRestoredIff cover the others.
- FirewallReadBack.NormalizeNftRuleExpr: takes numbers in text without sign and addresses as nft prints them; of foreign rules only what FirewallConvergence states about ports, addresses and rules read as nothing is claimed.
- FirewallRender.RenderNormalized: chains beyond input, forward and output never occur in a normalised spec and are not rendered.
- Sshd.Host.VerifyEffective: says that every read and comparison agreed, not how sshd computes its effective policy.
- Packages.Manager.Apply: assumes that a transaction removes what its preview showed and that upgrades remove nothing.
- White space and letter case beyond Latin-1 and ASCII.
- Command line, plan rendering, reports, progress output, plugin loading, signing and schema validation.
- Mode formatting, version comparison, the apt and dnf output parsers and the lock probe: small or tied to tool output.
