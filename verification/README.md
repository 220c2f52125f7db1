# r2r governance engine: a verified model

The repository is an event-sourced governance engine. Probabilistic judgments become typed evidence, an admission policy
decides which evidence counts, accepted evidence drives a small relation kernel per `(subject, scope)` domain, and a runtime
serves `observe`, `decide`, `explain`, `record_outcome` and `replay` over one store that many domains share. A file-backed
store makes it durable, an execution gate binds past decisions to the relation state they were made under, and a gateway
puts the whole thing in front of other tool servers.

This project models that engine in Dafny and proves its guarantees for every input, run, interleaving, crash and restart,
from any store that starts and whose domains replay, and shows where they stop.

## How it is laid out

Each stateful component has two forms. A value-level specification (`Kernel`, `StoreState`, `RuntimeState`, `System`, `Gate`)
carries the theorems. The program's own imperative form (`Governance`, `MemoryEventStore`, `JsonFileEventStore`,
`GovernanceRuntime`, `R2rMcpServer`, the experiment loops, the limiter) updates fields in place and is proved equal to it.

- `Rendering.dfy`: zero-padded ids and versions, injective at every width.
- `Admission.dfy`, `Kernel.dfy`, `KernelHistory.dfy`: admission policy, governance kernel, theorems over every history with overrides.
- `Store.dfy`, `Enforcement.dfy`: the association-list store, and execution binding over arbitrary store runs.
- `Runtime.dfy`, `Recovery.dfy`, `LogForm.dfy`: the five tools, startup recovery and replay, their agreement on arbitrary logs,
  and exactly which logs they accept.
- `Reachable.dfy`, `Verdicts.dfy`, `NonInterference.dfy`, `Explanations.dfy`, `RuntimeBinding.dfy`, `RunRecords.dfy`: theorems over
  every run.
- `JsonFile.dfy`, `Durability.dfy`, `Survival.dfy`: the abstract disk, the crash machine, what survives a crash, and the gate on the disk.
- `Startup.dfy`: exactly which stores keep starting.
- `Server.dfy`: the runtime and server objects, proved against the specification and the crash machine.
- `Gateway.dfy`: tool ownership and the concurrent call protocol.
- `AdmissionCompare.dfy`, `Compare.dfy`, `RateLimiter.dfy`: the experiments and the remote profile's limiter.

## Modelling choices

- A domain missing from the runtime's map behaves as a fresh one (`DomainOf`): `decide` inserts a fresh entry for an unseen
  domain and recovery does not, so two runtimes are compared by what they do in every domain (`Equivalent`).
- The program panics when a confidence or a reliability exceeds one million ppm or an expiry precedes its observation. Those
  inputs are excluded by the types `Ppm`, `ReplayObservation` and `Row`, and by the precondition of `NewContext`. An `observe`
  call with an out-of-range score is not excluded: it is the error the program returns.
- Ids, versions, verdicts and transition records stay rendered strings wherever the program stores or compares them. Fixed
  message texts that nothing compares (admission reasons, gate reason codes, error messages, explanation summaries) are
  enumerations. `WasDenied` and `WasAllowed` stand for the two summary sentences.
- The disk is two file contents. A write or a rename may fail, a failed or interrupted write leaves anything in the temporary
  file, a rename is atomic, and decoding a written snapshot gives the snapshot back. In the classes the outcomes are
  nondeterministic; in the crash machine they are parameters of each action, together with the point of a crash. The disk object keeps
  a ghost history of every state it passes through, a torn write included, to tie the crash points to the code's steps.
- Theorems write thresholds, codes and texts out instead of naming the program's constants, so that they also fix those.
- Counters and times are unbounded naturals. Limiter times are nanoseconds of a monotonic clock.
- The order in which startup visits the domains' final versions is unspecified, as in a hash map, so only the choice among
  several version mismatches to report is left open.

## Where the code and its documentation differ

- `docs/r2r-mcp-prototype.md:288-298` and `SECURITY.md:72` say startup verifies the final state version and fails when replay
  diverges. The code checks final versions only for domains with a replayable event (src/mcp/server.rs:104, 126-135).
  `Recovery.StartupMissesUnloggedVersion` is a store that starts although replay reports a mismatch, and
  `Recovery.EveryDomainReplaysExactly` gives the exact gap. The first observation in such a domain is then acknowledged and
  no later start succeeds (`Startup.ObservationStopsStartup`); stores that keep starting are exactly those whose domains
  all replay (`Startup.StartupIsExact`).
- The denial text at src/gateway/service.rs:74-77 offers a repair through `r2r_observe`. The runtime exposes no override and
  `Verdicts.SuspensionIsAbsorbing` shows that no tool call undoes a suspension.

## Where a comparison or a bound stops

- Neither experiment arm is stricter on all traces (`AdmissionCompare.NeitherArmDominates`); `AdmissionCompare.CoverageIsExact`
  says on exactly which traces each comparison holds.
- A fixed window is not a sliding one. Any sixty seconds admit at most twice the limit (`RateLimiter.IntervalBound`), twice is
  reached (`RateLimiter.IntervalBoundIsTight`), and `RateLimiter.IntervalIsExact` says exactly when once the limit suffices.
- A start whose look at the file fails on its metadata (src/store/json_file.rs:19) sees no file. It comes up empty over a
  store that is there, and its first acknowledged write replaces that store. `Durability.CrashRecovery` says what the disk
  holds then, and `Durability.LosslessIsExact` which histories lose nothing.
- The gateway decides once per call. A call granted before a suspension is forwarded after it
  (`Gateway.GrantOutlivesSuspension`), while the execution gate would refuse it (`Gateway.GateOnGrant`).

## Model

| member | source | states |
|---|---|---|
| Rendering.ValuePadded | src/store/memory.rs:48-50 | Parsing undoes zero-padded rendering of every natural number, at and past the padding width. |
| Rendering.IdInjective | src/r2r.rs:117-155 | Two rendered ids of one family are equal exactly when their numbers are, so comparing strings compares numbers. |
| Rendering.PaddedWidth | src/store/memory.rs:48-50 | A rendered number is exactly as wide as its padding when it fits and wider otherwise, digits only. |
| Admission.PolicyIsExact | src/admission.rs:148-184 | In every context the ordered branches give each answer exactly where an order-free table of the published thresholds puts it. |
| GovernanceKernel.Governance.ApplyAdmittedEvidence | src/r2r.rs:280-322 | The in-place rule pack makes exactly the kernel transition and emits exactly the changes of the specification. |
| GovernanceKernel.Governance.ObserveJudgment | src/r2r.rs:192-274 | The candidate loop over the mutable kernel is the specified observation, state and outcome. |
| GovernanceKernel.Governance.HumanOverride | src/r2r.rs:326-374 | The in-place override is the specified override, state and outcome. |
| KernelHistory.HistoryDecidesState | src/r2r.rs:192-374 | After any history: suspended exactly when, since the last override, a current score was at least 900000 with reliability 800000, or at least 700000 with reliability 700000 and two corroborators; suspended implies trust Warning and delegation Degraded; the authorization counter is odd exactly when suspended; the governing id is the newest authorization id. |
| KernelHistory.LogExplainsState | src/r2r.rs:280-374 | Folding every emitted change from the default state reproduces the phases, each change starts from the phase held before it, ids per relation run 1, 2, 3, ..., and trust, delegation and supervision change at most once. |
| KernelHistory.ObservationIsExplained | src/r2r.rs:200-274 | Every change names accepted evidence of its own observation, and the reason given tells the four situations apart exactly. |
| KernelHistory.ObservationChanges | src/r2r.rs:192-274 | From any kernel one observation changes exactly what the protective chain had left, in order, under the next ids, caused by the first admissible evidence, and logs one line per piece of evidence and one for the decision. |
| KernelHistory.OverrideIsExact | src/r2r.rs:326-374 | From any kernel one override restores a suspended authorization and creates missing supervision, in this order, caused by its own event, and logs one line that names both. |
| KernelHistory.TextsReadBack | src/admission.rs:95-102 | Every decision, prefix, relation and transition text can be read back, so no two say the same. |
| KernelHistory.SupervisionIsFirstOverride | src/r2r.rs:326-374 | After any history supervision exists exactly when an override happened, and names the first override's supervisor and event id for ever. |
| KernelHistory.HistoryCounts | src/r2r.rs:117-155 | n observations and m overrides leave n + m event ids, 2n evidence ids and 3n + m provenance lines. |
| Store.AdvanceMovesOneKey | src/store/memory.rs:52-67 | Advancing moves one key of the version map by one and no other key. |
| Store.AdvanceKeepsUnique | src/store/memory.rs:52-67 | The version list never gets a duplicate key, and only the advanced domain can be a new one. |
| Store.LookupIsExact | src/store/memory.rs:38-44 | Find-first over the version list is the map the list represents, zero for absent domains. |
| Store.FindIsExact | src/store/memory.rs:103-108 | Find-first by rendered id returns the one decision with that id, or nothing when there is none. |
| Store.MemoryEventStore.AdvanceStateVersion | src/store/memory.rs:52-67 | The in-place find-and-increment, or append, is the specified advance, and its answer is the new version. |
| Enforcement.ExecutionBinding | src/enforcement.rs:94-158 | Over every store run: allowed exactly when some step issued that ALLOW for that action at that version and its domain has not advanced since; stale exactly when it was so issued and its domain has advanced; on an unhealthy store nothing but the latched failure. |
| Enforcement.ReasonsAreExact | src/enforcement.rs:94-158 | Over every store run the reason is unknown exactly when no step issued the id, and otherwise the first check the issuing step's decision fails, with its domain, bound version and current version. |
| Recovery.InterleavedPassIsFolds | src/mcp/server.rs:50-124 | On any log the interleaved startup pass succeeds exactly when every event is reproduced by its own domain's fold, and then holds that fold for every domain; `LogForm.StartupClosedForm` says what that demands of each field. |
| Recovery.ReplayReportsLeastDivergence | src/mcp/server.rs:390-462 | On any log the first divergent event is the least one the fold does not reproduce, although the loop goes on after a mismatch and breaks at a policy change; `LogForm.ReplayClosedForm` says what that demands of each field. |
| Recovery.ReplayCoversUpToForeign | src/mcp/server.rs:390-462 | On any log, divergent or not, the reported count and version are those of the events before the first one of another policy, which is itself counted. |
| Recovery.RecoveryAgreesWithReplay | src/mcp/server.rs:50-138 | Startup succeeds exactly when replay matches in every domain with a replay input and events without one carry no transitions. |
| Recovery.EveryDomainReplaysExactly | src/mcp/server.rs:104-135 | All domains replay exactly when startup succeeds and domains without replay input are still at the initial version. |
| Recovery.StartupMissesUnloggedVersion | src/mcp/server.rs:126-135 | A store from which startup succeeds although replay reports a version mismatch. |
| Recovery.RecoveredHoldsFolds | src/mcp/server.rs:50-138 | A recovered runtime holds in every domain the fold of that domain's own log, and the recorded version is the folded one. |
| LogForm.StartupClosedForm | src/mcp/server.rs:50-124 | On any log startup accepts exactly the logs in which every event tells the policy, kernel event id, version and transitions that its domain's earlier events demand, written out, and otherwise names the first event that does not and what is wrong with it. |
| LogForm.ReplayClosedForm | src/mcp/server.rs:390-462 | On any log replay names the first event of the domain that does not tell that, and matches exactly when there is none and the recorded version is 1 or 0 as some event acted or not. |
| LogForm.RecoveredClock | src/mcp/server.rs:95-97 | Startup restores in every domain a clock just past the latest judged event, or 1. |
| Reachable.RunAgrees | src/mcp/server.rs:140-323 | In every run live state and recorded versions are the folds of the log, store counters are list lengths, and ids are sequential over the interleaving. |
| Reachable.RunRecovers | src/mcp/server.rs:50-138 | Startup from the store of any run succeeds and rebuilds the kernel, clock, projection and governing id of every domain. |
| Reachable.StepRespectsEquivalence | src/mcp/server.rs:140-462 | A rebuilt runtime answers every later call as the original would. |
| Reachable.ObserveKeepsStartup | src/mcp/server.rs:104-135 | After startup from any store, one observation leaves a store that starts again exactly when the recorded version of its domain was the folded one. |
| Reachable.ReachableReplays | src/mcp/server.rs:390-462 | In every reachable runtime each domain's replay matches with no divergence and counts exactly the accepted observe calls. |
| Verdicts.SuspensionClosedForm | src/mcp/server.rs:140-208 | In any run a domain's kernel is suspended exactly when an accepted observation in it scored at least 900000, and projection, governing id and version agree with the kernel. |
| Verdicts.SuspensionFrom | src/mcp/server.rs:140-208 | The same from any runtime that agrees with its log, reachable or not: suspended exactly when it was already or a strong observation came since. |
| Verdicts.VerdictClosedForm | src/mcp/server.rs:248-323 | `decide` answers DENY with version 1, review and the suspended relation exactly when the domain had a strong observation, else ALLOW with version 0 and no relation. |
| Verdicts.ObserveClosedForm | src/mcp/server.rs:140-246 | `observe` errs exactly on out-of-range scores, numbers events over the whole store, and reports transitions exactly for a domain's first strong observation. |
| Verdicts.EvidenceClosedForm | src/mcp/server.rs:140-246 | In any run an accepted observation reports evidence numbered within its domain, with verdicts strong, hold or insufficient decided by its score alone. |
| Verdicts.DomainClock | src/mcp/server.rs:158-189 | A domain's clock, event and evidence counters and provenance length are fixed by the number of its own accepted observations. |
| RunRecords.ObservedEventClosedForm | src/mcp/server.rs:140-246 | In any run every field of the event an accepted observation stores, provenance lines and replay input included, is written out from the calls alone. |
| RunRecords.EventLogIsHistory | src/mcp/server.rs:204-226 | The k-th stored event of a domain is what its k-th accepted observation stored. |
| RunRecords.ObserveAnswers | src/mcp/server.rs:140-246 | In any run the whole answer to an observation is written out: id, evidence with verdicts, transitions and version. |
| RunRecords.DecisionClosedForm | src/mcp/server.rs:248-313 | In any run every field of a decision record is written out: id, verdict, code, governing relation, version, and a chain of its domain's event lines in order and one decision line. |
| RunRecords.ExplainedDecision | src/mcp/server.rs:325-357 | After any run `explain` answers about each decide call with its domain and action and the verdict, code, governing relation and version that the call's own past demands. |
| Verdicts.SuspensionIsAbsorbing | src/mcp/server.rs:140-323 | Once a run has suspended a domain, its kernel stays suspended at version 1 after any later operations and every later decide call in it is denied. |
| NonInterference.DomainsDoNotInterfere | src/mcp/server.rs:140-323 | In any run a domain's state, versions, stored events and answers, replay included, are those of the run of its own operations, apart from store-wide ids. |
| NonInterference.IdsIncrease | src/store/memory.rs:69-125 | Event, decision and outcome ids increase strictly over the whole interleaving. |
| Explanations.ExplanationsArePermanent | src/mcp/server.rs:325-357 | `explain` returns the record that was issued, after any later operations. |
| Explanations.CausalChainIsExact | src/mcp/server.rs:261-313 | A decision's causal chain is, line by line and in order, the provenance of exactly its domain's k earlier events plus one decision line, 4k + 1 lines. |
| Explanations.SlicesMakeProvenance | src/mcp/server.rs:180-226 | The kernel slices stored with a domain's events concatenate to the kernel's own provenance. |
| RuntimeBinding.RuntimeRunsAreStoreRuns | src/mcp/server.rs:204-313 | Every runtime run is a store run, so execution binding applies to it. |
| RuntimeBinding.RuntimeExecutionBinding | src/enforcement.rs:94-158 | Over every runtime run the gate allows exactly when some decide call gave that very answer and its domain's authorization is still active. |
| RuntimeBinding.ExecutionBindingFrom | src/enforcement.rs:94-158 | The same from any runtime that agrees with its log; an id its store had already taken is judged by the decision it named then. |
| RuntimeBinding.FreshIdsAreExact | src/store/memory.rs:94-108 | Every decision any run issues is the one its id finds if and only if the starting store holds no decision under an id yet to be allocated. |
| RuntimeBinding.RunsKeepFreshIds | src/store/memory.rs:94-108 | No run takes a decision id early, so that condition holds again for whatever it leaves on disk. |
| RuntimeBinding.OutcomesAreLinked | src/mcp/server.rs:359-388 | Every outcome names a stored decision of its domain and carries its version, unless the domain was suspended in between. |
| RuntimeBinding.KnownIdsAreAnswered | src/mcp/server.rs:325-388 | `record_outcome` and `explain` succeed exactly for ids that some decide call of the run was answered with; the whole stored outcome and answer are given, with the version that decision's domain has now, and the explanation is that call's record. |
| RuntimeBinding.OutcomeLogIsHistory | src/mcp/server.rs:359-388 | The stored outcomes are, in order, exactly the successful outcome calls of the run, each with the id, kind and detail given. |
| JsonFile.JsonFileEventStore.Open | src/store/json_file.rs:17-37 | Opening succeeds exactly on an absent or missed file or a readable one that is empty or decodes, with the decoded store, or a new one when the file is absent, empty or missed. |
| JsonFile.JsonFileEventStore.Persist | src/store/json_file.rs:48-84 | One attempt whose end decides both disk files and the error that is latched; every disk state on the way is that of a crash point; nothing happens after a latched failure. |
| Durability.CrashRecovery | src/store/json_file.rs:17-84 | From any store that starts and replays, after any actions, failures, crashes, restarts and missed targets: the disk holds the result of a line of committed operations, every start that reads it comes up as that line, a healthy process that is not blind behaves as it, and the line is all the committed operations while no blind process has committed. |
| Durability.BlankCrashRecovery | src/store/json_file.rs:17-84 | From an absent or empty file the disk, the live process and a restarted one are the run of the committed operations. |
| Durability.LosslessIsExact | src/store/json_file.rs:17-37 | With starts that miss the file, the disk has every record it began with and was committed exactly when no process that had missed it committed over a target holding records, and fewer otherwise. |
| Durability.OneLifetime | src/store/json_file.rs:48-84 | Within one process lifetime the committed operations are the acknowledged ones in order, then at most the one in flight when the process died. |
| Durability.AcknowledgedIsOnDisk | src/mcp/server.rs:490-514 | From any store that starts and replays, after any acknowledged write the disk decodes to the in-memory store, and after any other answer it does so unless the process missed the file. |
| Durability.FailStop | src/mcp/server.rs:490-514 | From a latched failure until the next boot no operation runs, every call is refused with the latched error and the disk never changes. |
| Durability.FailedReplyStops | src/mcp/server.rs:490-514 | A reply of a persistence failure is the last of its process: the target is what it was before that call, and every later call until the next boot is refused with the error it named. |
| Startup.StartupIsExact | src/mcp/server.rs:50-138 | A store that starts keeps starting after every history if and only if every domain of it replays. |
| Startup.ObservationStopsStartup | src/mcp/server.rs:97-135 | From a store that starts, an observation in a domain that does not replay is written and acknowledged, and no later start that sees the file comes up, whatever the live process goes on to do. |
| Startup.StartsOnce | src/store/memory.rs:52-67 | A snapshot with an advanced version, a decision and no event starts, and after one acknowledged observation scoring zero never again. |
| Survival.AcknowledgedSuspensionSurvives | src/mcp/server.rs:50-138 | From any store that starts and replays, an acknowledged strong observation denies its domain in every later healthy process, whatever crashes and restarts come between, unless a start missed the file. |
| Survival.AcknowledgedDecisionSurvives | src/mcp/server.rs:325-357 | From any store that starts and replays, an acknowledged decision is explained by the same record under the answered id in every later healthy process, except an id the starting store had already taken, which keeps naming the older decision. |
| Survival.OneUnansweredPerBoot | src/store/json_file.rs:58-84 | Over a whole history at most one operation per boot is committed without having been acknowledged. |
| Survival.CommitsLifeByLife | src/store/json_file.rs:48-84 | Over any number of process lifetimes the committed operations are, lifetime by lifetime, those acknowledged in it in order and then at most the one it died in. |
| Survival.DiskGateIsExact | src/mcp/annotated.rs:55-95 | From any store that starts and replays and after any history, the gate on the disk snapshot allows exactly what the line on disk supports: a decision the start carried when it still fits, any other when a decide call of the line gave that answer and its domain is not suspended. |
| Survival.AcknowledgedAllowIsExecutable | src/enforcement.rs:94-158 | From any store that starts and replays, an acknowledged ALLOW passes the gate on the disk exactly until an observation suspending its domain is committed, whatever crashes come between; an id already taken is judged by the decision it named. |
| Server.GovernanceRuntime.TryWithStore | src/mcp/server.rs:50-138 | The startup loop over objects succeeds exactly when the specification recovers, with the recovered runtime, and otherwise reports the first error of the log. |
| Server.GovernanceRuntime.Observe | src/mcp/server.rs:140-246 | The in-place observe is the specified one, with one persist of the resulting store and none on error. |
| Server.GovernanceRuntime.Decide | src/mcp/server.rs:248-323 | The in-place decide is the specified one, with one persist of the resulting store. |
| Server.GovernanceRuntime.RecordOutcome | src/mcp/server.rs:359-388 | The in-place outcome record is the specified one, with one persist of the resulting store and none for an unknown decision. |
| Server.GovernanceRuntime.Replay | src/mcp/server.rs:390-462 | The replay loop, its break and its first-only divergence are the specified scan. |
| Server.R2rMcpServer.Start | src/store/json_file.rs:17-37 | Opening a store and recovering from it brings a server up exactly when the crash machine's boot does, in the same state. |
| Server.R2rMcpServer.WithRuntime | src/mcp/server.rs:490-514 | A served call on the objects, health checks and error included, is exactly one call step of the crash machine, and every disk state it passes through is one the machine's crash at some point leaves. |
| Gateway.Start | src/gateway/service.rs:85-145 | Startup succeeds exactly when every upstream starts and lists its tools and no tool name is exposed twice; otherwise it refuses with the first failure. On success each tool is owned by the upstream that lists it. |
| Gateway.AdmissionByOwner | src/gateway/service.rs:151-156 | Of the tools the upstreams list, exactly the control plane's own `r2r_` tools skip authorization; a tool of any other upstream is authorized whatever its name. |
| Gateway.OnlyControlPlanePasses | src/gateway/service.rs:296-332 | In every interleaving a call that passes through without a decision names an `r2r_` tool that the control plane itself lists, and exactly the calls of unlisted tools are refused as unknown. |
| Gateway.ForwardsOwnDistinctAllows | src/gateway/service.rs:160-390 | In every interleaving each forwarded call owns a stored ALLOW for the configured domain and its own tool, no two share one, and none is forwarded twice. |
| Gateway.ResolvedCallsReportOnce | src/gateway/service.rs:237-390 | Each gated call that resolved issued exactly one outcome record and an unresolved one none; it says blocked exactly for calls never granted and names the granted decision otherwise. |
| Gateway.ReportsTellTheAnswer | src/gateway/service.rs:357-390 | In every interleaving a resolved call was forwarded exactly once if its upstream answered and never otherwise, and its report says executed, failed or blocked accordingly. |
| Gateway.ReportsNameTheAnswer | src/gateway/service.rs:332-357 | In every interleaving a resolved call is reported under the decision that the control plane's delivered answer named, and under the placeholder exactly when none was delivered. |
| Gateway.DeliveredReportIsRecorded | src/gateway/service.rs:237-273 | A delivered report of a granted call becomes one more outcome at the control plane, under the granted decision and with the reported kind. |
| Gateway.NoForwardAfterSuspension | src/gateway/service.rs:332-357 | Once the configured domain is suspended no call not yet decided is ever forwarded, whatever interleaves afterwards. |
| Gateway.PlaneIsRun | src/gateway/service.rs:160-390 | In every interleaving the control plane is the runtime run of what was executed there, by decide requests, pass-through calls, outcome records and other clients. |
| Gateway.SuspendedExactly | src/gateway/service.rs:309-330 | The configured domain is suspended exactly when a strong observation of it was executed, whichever route it took. |
| Gateway.StrongObservationSuspends | src/gateway/service.rs:309-330 | Any move that executes a strong observation of the configured domain, passed through the gateway or sent by another client, suspends it. |
| Gateway.NoForwardAfterObservation | src/gateway/service.rs:309-357 | No call whose decide step follows a strong observation of the configured domain is ever forwarded, by whatever route and whatever interleaves before or after. |
| Gateway.GateOnGrant | src/enforcement.rs:94-158 | At any time the execution gate allows a granted decision exactly while the configured domain is active, and calls it stale exactly when it is suspended. |
| Gateway.GrantOutlivesSuspension | src/gateway/service.rs:332-360 | A call already granted when a strong observation arrives is still forwarded afterwards, under a decision the execution gate then calls stale. |
| AdmissionCompare.RunBaseline | src/bin/admission-compare.rs:92-147 | The baseline loop computes the baseline arm. |
| AdmissionCompare.RunAdmission | src/bin/admission-compare.rs:149-245 | The admission loop, with its retain pass, computes the admission arm and its pending holds. |
| AdmissionCompare.HoldLedger | src/bin/admission-compare.rs:179-198 | On every trace holds = resolved by acceptance + resolved by expiry + pending. |
| AdmissionCompare.PendingAreOpenHolds | src/bin/admission-compare.rs:179-198 | The pending list is, in trace order, exactly the holds with no later row of the incident accepted or observed past expiry. |
| AdmissionCompare.ResolutionsAreExact | src/bin/admission-compare.rs:179-193 | Each resolved hold is counted on the side, acceptance or expiry, of the first later row of its incident that settles it. |
| AdmissionCompare.CauseIsFirstTrigger | src/bin/admission-compare.rs:92-245 | In each arm: suspended exactly when a trigger has had no repair since, and the remembered truth is that of the first such trigger; baseline triggers score at least 850000, admission triggers are strong or corroborated by the published thresholds. |
| AdmissionCompare.BlastRadiusIsExact | src/bin/admission-compare.rs:122-134 | In each arm false denials are exactly the benign calls whose suspension a false positive caused, and enforcement denials the other denied benign calls. |
| AdmissionCompare.MissesAreExact | src/bin/admission-compare.rs:106-128 | In each arm allowed violations are those arriving with no unrepaired trigger, and false suspensions the false positives that became the first one. |
| AdmissionCompare.CallsAreExact | src/bin/admission-compare.rs:92-245 | In each arm calls, denials and effective repairs are counts read off the trace. |
| AdmissionCompare.UntrustedRowsAreInert | src/bin/admission-compare.rs:159-206 | A row of reliability below 600000 never suspends the admission arm and never joins its holds. |
| AdmissionCompare.ArmsBalance | src/bin/admission-compare.rs:92-245 | In each arm suspensions minus effective repairs is 1 when suspended and 0 otherwise, allowed plus denied is the number of calls, and provenance links are the sum of what calls, suspensions or acceptances, and repairs contribute. |
| AdmissionCompare.UncorroboratedTracesAreDominated | src/bin/admission-compare.rs:92-245 | At every step of a trace with fewer than two corroborators per row, admission is suspended only where baseline is, with no more denials, benign denials, suspensions or repairs and no fewer allowed violations. |
| AdmissionCompare.CoverageIsExact | src/bin/admission-compare.rs:92-245 | For either arm against the other and every trace: the comparison of suspension, denials, repairs and allowed violations holds at every step if and only if every row on which the other arm triggers triggers this one too or finds it suspended. |
| AdmissionCompare.CorroboratedTracesLoseNothing | src/bin/admission-compare.rs:92-245 | At every step of a trace whose rows above the baseline threshold are reliable and corroborated, admission is suspended wherever the baseline is, denies no less and lets no more violations through. |
| AdmissionCompare.NeitherArmDominates | src/bin/admission-compare.rs:110-206 | A corroborated row below the threshold breaks one comparison and an uncertain row above it breaks the other. |
| Compare.Run | src/bin/compare.rs:76-120 | The event loop computes both arms' tallies. |
| Compare.StatefulIsStricter | src/bin/compare.rs:44-63 | On every scenario the stateful arm has no more false allows and no fewer false denies, and both ledgers balance. |
| Compare.StatefulHistory | src/bin/compare.rs:91-152 | The stateful arm is suspended exactly when a review failure or a call scoring at least 850000 or 900000 came after the last override. |
| Compare.TalliesAreExact | src/bin/compare.rs:44-120 | Both arms' calls, false allows and false denies are counts read off the scenario. |
| RateLimiter.RemoteHttpSecurity.ConsumeRateLimit | src/bin/r2r-mcp-remote.rs:62-76 | The mutable window makes exactly the specified step. |
| RateLimiter.OneWindowAdmitsLimit | src/bin/r2r-mcp-remote.rs:62-76 | Between one window opening and the next at most the limit is admitted. |
| RateLimiter.IntervalBound | src/bin/r2r-mcp-remote.rs:62-76 | For every non-decreasing sequence of times any half-open sixty-second interval admits at most twice the limit. |
| RateLimiter.IntervalBoundIsTight | src/bin/r2r-mcp-remote.rs:62-76 | For every limit there is a burst of twice the limit, all of it admitted within two nanoseconds. |
| RateLimiter.IntervalIsExact | src/bin/r2r-mcp-remote.rs:62-76 | A sixty-second interval in which request m opens a window admits exactly what the two windows had left, and stays within the limit if and only if nothing before m was admitted or the requests from m on leave room. |
| RateLimiter.WindowCount | src/bin/r2r-mcp-remote.rs:62-76 | Within one window the number admitted is exactly the smaller of what was left of the limit and the requests that came. |
| RateLimiter.AdmittedExactly | src/bin/r2r-mcp-remote.rs:67-74 | A request is admitted exactly when fewer than the limit came before it in its window, so one that opens a window is always admitted. |
| RateLimiter.ConstantTimeEq | src/bin/r2r-mcp-remote.rs:79-88 | The accumulating comparison answers equality exactly. |

## Left out

- Real file, process and network I/O, HTTP and MCP transport, job objects and authentication headers: foreign calls. Only the abstract disk and nondeterministic upstream results remain.
- JSON encoding, schemas and tool annotations: a snapshot is a value whose round trip is the identity, and gateway answers are reduced to the fields the gateway reads.
- The live judge adapter and floating-point conversion: scores start as integer ppm.
- CLI parsing, CSV parsing, console tables and trace logs of the experiments: presentation only.
- Remote principal and scope checks and gateway configuration parsing: single guards.
- The runtime classes over the memory store: `GovernanceRuntime` is written over the file store; the value-level theorems need no disk and cover the memory profile, whose store is the file store's `inner`.
- The store's `event` and `outcome` lookups by id: find-first like `decision`, and not used by the runtime.
- Poisoned locks, cancellation of a gateway call by its client, and concurrent writer processes on one file: the program refuses or disclaims them.
- A control plane that restarts during a gateway run: the gateway machine keeps one running control plane; restarts are the subject of the crash machine.
- The denial text, governing relations and outcome detail text of a gateway call, and the policy version list of a replay answer: constant or descriptive fields.
- Machine-integer overflow: counters are unbounded.
