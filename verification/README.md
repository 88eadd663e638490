# A model of the Maintainerd control plane

Dafny model of the protocols Maintainerd Core runs, and proofs of what they keep: work dispatch to
agents, supervision of system services, the steward that converges auth, secret-blind template
rendering, and one-time setup. `dafny verify dfyconfig.toml` checks everything.

The state machines are stated once as functions over values (`Rows`, `Table`, `Agents`, `Gateway`,
`Supervision`, `Steward`, `Templates`, `SecretSetup`, `ControlPlane`, `Capabilities`). Where the
program changes things in place, a class with the same fields does too and every method is proved to
do exactly what the function says (`Table.ResourceTable`, `Agents.AgentTable`,
`Supervision.Supervisor`, `Applying.FileKeyStore`, `Applying.Applier`, `Templates.Renderer`,
`SecretSetup.SecretOrchestrator`, `ControlPlane.Orchestrator`, `Capabilities.CapabilitiesHandler`).
The other modules hold only theorems.

How the outside is modelled:

- Each SQL statement is one atomic step on a row, in one serial order on one strictly advancing
  database clock. A status report is two steps, a read and a later write stamped by the process clock,
  and any number of reports may be in flight on one row.
- A row keeps an auxiliary history of the statements that changed it. No statement reads it; most
  theorems say that a column is a function of it, or relate two of its entries.
- A supervision pass reads a snapshot and then issues its statements one at a time. Before each of
  them other callers may run any statements at all, and each may meet a storage error.
- A remote call or file write has a fate: it works, fails without effect, takes effect but reports an
  error, or ends the process before or after its effect; a file's write may also be cut off, with or
  without the process, leaving the file empty or truncated.
- Random keys, the clock, number parsing and formatting, template execution, JWKS derivation and the
  workload's own validation and hash are parameters.

## Where the code does not do what is said of it

For each there is a lemma with the exact condition or one that covers the whole failing family; where the
failure takes a run of events, another gives one.

- The attempt counter is computed from the read, so overlapping failed reports lose counts and can
  un-park a row (`Retries.OverlapUnparks`), and one in flight when a row is re-armed can overcount and
  park a spec nobody was handed (`Retries.RearmedMidReport`). The counter counts the failures if and
  only if every report is written at the count it read (`Retries.AttemptsCountFailures`); it exceeds
  them if and only if one is written that had read more than the stretch accounts for
  (`Retries.CounterBoundedIff`); parking is final if and only if none is written that was read with
  attempts to spare (`Retries.ParkedForGoodIff`). The comment that only a spec change revives a parked
  row (`internal/resource/service.go:445-446`) leaves out four other ways (`Retries.RevivesIff`).
- A failure of the old spec, read before an update and written after it, can park the new spec
  undelivered (`Feed.OldFailureParksUpdate`). A re-arm keeps the row in the feed until it is delivered
  if and only if no write parks or stamps it first (`Feed.ReArmedUntilDelivered`).
- "deleting" reported by an agent, then "removed", finishes a delete nobody asked for
  (`Teardown.ReportedDeletingFinalizes`). A removal, or a failed or silent report, read in a teardown
  and written after an operator revives the row carries the teardown over the new spec
  (`Teardown.StaleRemovalStamps`, `Teardown.StaleFailureRevivesTeardown`). A row is stamped if and only
  if a removal was reported of it that was read while it was tearing down (`Teardown.StampedIff`), and
  teardown follows the operator's last word if and only if no report carries one over an update
  (`Teardown.TeardownWantedIff`).
- `UpdateResourceStatus` can make a row count as converged on a spec nobody was handed
  (`Convergence.StatusWriteLosesUpdate`) and can rewind `observed_generation`
  (`Convergence.StatusWriteCanRewind`). It keeps convergence sound if and only if it claims a generation
  the owner was handed and answered for (`Convergence.StatusWriteKeepsIff`).
- A "running" report without a health writes back the health it read, and so clears a flag's "unknown"
  that was written meanwhile; without a document it writes back the document it read, and so clears the
  flag itself (`Observations.StaleReportClearsUnknown`, `Observations.HealthFollowsIff`,
  `Observations.DocumentFollowsIff`).
- Re-dispatch does not feed a row whose `observed_generation` ran ahead of its spec
  (`KeepAliveProofs.RedispatchFeedsIff`, `KeepAliveProofs.AheadIsNeverFed`), and of two system instances with one name only the last one
  listed is kept alive (`KeepAliveProofs.ShadowedInstanceIsIgnored`).
- A recovery is recorded, and the count of re-dispatches cleared, for an instance that is only inside its
  stale window and not running (`Recovery.RecoveredIff`, `Recovery.RecoveredWhileDown`), against
  `internal/supervisor/supervisor.go:110-115` and `internal/supervisor/supervisor.go:539-542`. So a
  service whose agent never answers is never escalated while passes come no further apart than the
  window (`Silence.SilentAgentIsNeverEscalated`); an escalation takes as many re-dispatches as the
  threshold since the last stand-down, and one more (`Recovery.EscalatedIff`).
- A client's key is lost if a create takes effect but reports an error, and its key file is spoilt if
  the write is cut off, by the process dying or by the disk refusing it; no other fault in the model
  does either (`CrashLimits.CustodyKeptIff`). After the first the client fails for ever
  (`CrashLimits.OrphanedClientStaysFailed`); over an empty file it is registered under a key no file
  holds and reported as ensured for ever (`CrashLimits.EmptyKeyFileLosesTheKey`); over a truncated one
  it is never registered (`CrashLimits.TruncatedKeyStaysFailed`).
- The permission loop creates a name twice when the catalog lists it twice
  (`CrashLimits.PermissionsOnceIff`).
- Declaring one parameter both secret and int lets a render's success depend on the plaintext
  (`SecretBlind.ResolutionBlindIff`).
- Core's setup stores its control key only at the end, while auth keeps the first key it is given: an
  attempt that registers and does not live to store leaves the two apart for good
  (`ControlPlane.AgreementIff`, `ControlPlane.CompletesWithoutKey`). An unreadable row looks like a
  first run and its key is replaced (`ControlPlane.StoredKeyKeptIff`).

## Model

| member | source | states |
|---|---|---|
| `Backoff.NextBackoffLoop` | internal/resource/service.go:350-365 | the doubling loop yields min(300 s, 5 s * 2^(k-1)) for every attempt count and its delay stays inside a signed 64-bit integer |
| `Backoff.BackoffIsMonotone` | internal/resource/service.go:343-365 | a later attempt never waits less; every wait is between the base and the cap |
| `Backoff.BackoffDoublesThenStays` | internal/resource/service.go:343-365 | five seconds for the first attempt, doubling, five minutes from the seventh attempt on |
| `Leases.LeaseExclusion` | internal/storage/resource.sql.go:147-163 | in every run of a row, all deliveries and accepted reports are one agent's, and two deliveries with no report or re-dispatch between them are more than the lease apart, whatever spec updates, deletes and flags intervene |
| `Leases.DeliveriesAreSpaced` | internal/resource/service.go:323-336 | over a run's events: after a pull hands a row out for ttl at time t, or for 60 seconds if none was asked for, no pull hands it out again up to t + ttl unless its owner reported or a re-dispatch came between |
| `Leases.StepKeepsLeaseInv` | internal/storage/resource.sql.go:147-163 | every statement keeps the lease column equal to what the history says and keeps deliveries spaced |
| `Leases.OwnerNeverChanges` | internal/storage/resource.sql.go:157 | once a row has an owner no run of any statements gives it another |
| `Convergence.NoLostSpecUpdate` | internal/resource/service.go:425-474 | with agents and direct status writes that claim only generations handed out, observed never exceeds generation, and equality on a live row means its owner was handed exactly the spec the operator last asked for and later answered for it without failing |
| `Convergence.RowIsAsOrdered` | internal/storage/resource.sql.go:802-808 | in every run the row's spec and tier are those of the last update that found it live, or those it was created with |
| `Convergence.GenerationCountsReArms` | internal/storage/resource.sql.go:802-808 | in every run the generation has grown by exactly the updates that found the row live and the re-dispatches that found it not being torn down |
| `Convergence.StepKeepsConvergence` | internal/storage/resource.sql.go:15-26 | every statement that keeps that contract keeps the invariant, reports in flight included |
| `Convergence.WriteAnswers` | internal/resource/service.go:425-474 | a report write that moves observed forward answers a recorded delivery of that generation |
| `Convergence.WriteKeepsBoundIff` | internal/storage/resource.sql.go:19 | a report keeps observed within generation if and only if the generation it carries is |
| `Convergence.StatusWriteKeepsIff` | internal/storage/resource.sql.go:874-877 | the direct status write keeps the invariant if and only if the generation it claims was handed to the owner and answered for |
| `Convergence.StatusWriteLosesUpdate` | internal/resource/service.go:244-272 | one such write on a new row: it counts as converged and nobody was ever handed its spec |
| `Convergence.StatusWriteCanRewind` | internal/resource/service.go:263-272 | a run in which a claim of an earlier generation moves observed backwards |
| `Retries.BackoffHolds` | internal/resource/service.go:438-456 | in every run, no delivery after a retryable failure comes before that failure's backoff has passed, unless the row was re-armed |
| `Retries.AttemptsCountFailures` | internal/resource/service.go:438-456 | over any stretch of claims, flags and failed reports, whatever was in flight when it began, the counter counts the failures throughout if and only if every report is written at the count it read; past the first failure the row is parked exactly at its budget |
| `Retries.CounterBoundedIff` | internal/resource/service.go:438-456 | the counter exceeds the failures if and only if a report is written that had read more than the stretch accounts for, and until then only one read before the stretch can have |
| `Retries.CleanStartNeverExceeds` | internal/resource/service.go:438-456 | with nothing in flight when a stretch begins the counter never exceeds its failures |
| `Retries.CountsIffSerial` | internal/resource/service.go:402-476 | with nothing in flight when a stretch begins the counter equals its failures, at the end or throughout, if and only if reports do not overlap |
| `Retries.FreshIsCurrent` | internal/resource/service.go:402-476 | in every run a report is written at the count it read if nothing wrote the attempts column since |
| `Retries.RearmedMidReport` | internal/resource/service.go:402-476 | a run in which a report in flight over a spec update overcounts and parks the new spec undelivered |
| `Retries.StaleButCurrent` | internal/resource/service.go:402-476 | a stretch in which a stale report writes the right count by luck, so that overlap is not the exact condition once a report is in flight at the start |
| `Retries.ParkedForGoodIff` | internal/resource/service.go:438-456 | in any such stretch a parked row stays parked if and only if no later report is written that was read with attempts to spare, and while parked it is not delivered |
| `Retries.UnparksIff` | internal/resource/service.go:444-456 | the step: in such a stretch a parked row leaves that state if and only if the event is such a write |
| `Retries.ParkedStaysParked` | internal/resource/service.go:444-448 | in particular, when every report is written at the count it read, a row that reached its budget stays parked and is never delivered again |
| `Retries.RetryableMeansUnderBudget` | internal/resource/service.go:445-456 | while such a row is retryable its failures number fewer than the budget |
| `Retries.OverlapUnparks` | internal/resource/service.go:402-476 | a run of overlapping reports in which a parked row is handed out again |
| `Retries.RevivesIff` | internal/resource/service.go:433-476 | a parked row is revived by a spec update, a delete, a re-dispatch, a status write of another state or a report that leaves it unparked, and by nothing else |
| `Feed.ReArmedUntilDelivered` | internal/storage/resource.sql.go:802-808 | from any honestly reached row, a spec update or re-dispatch keeps the row in the feed until it is delivered, deletes and further updates included, if and only if no write parks or stamps it |
| `Feed.OwedIsFed` | internal/storage/resource.sql.go:154-159 | what is owed can be claimed by whoever may hold it as soon as its lease and backoff have run out |
| `Feed.FedIff` | internal/storage/resource.sql.go:154-159 | an agent can claim a row if and only if it is out of sync, tearing down or retrying, not parked, not stamped, past its lease and its backoff, and its own or nobody's |
| `Feed.NewIsOwed` | internal/resource/service.go:116-131 | a row just created can be claimed at once, by anybody |
| `Feed.ReArmOwes` | internal/storage/resource.sql.go:734-743 | a spec update or a re-dispatch leaves the row pending with a full budget and no backoff, owed to its owner; only the re-dispatch ends its lease |
| `Feed.RunningSettles` | internal/resource/service.go:434-437 | a running report clears attempts, backoff and lease, and if it answers the current generation the row is not handed out again before an update, a re-dispatch, a delete, another report or a status write |
| `Feed.ReportIsTaken` | internal/resource/service.go:425-474 | a written report leaves the state it names, or the one it read if it names none, progress that never goes back and covers its claim, the retry state it read unless it settles or fails, and the deletion stamp exactly when it ends a teardown; spec, generation and owner stay |
| `Feed.OwedStepIff` | internal/storage/resource.sql.go:154-159 | the step: an undelivered revision leaves the feed if and only if the event is such a write |
| `Feed.OldFailureParksUpdate` | internal/resource/service.go:438-448 | a run in which a failure of the old spec parks the new one, which nobody can then claim |
| `Teardown.DeletedOnlyOnRequest` | internal/resource/service.go:457-467 | with agents that never say "deleting" and no direct status writes, a row is stamped deleted only after a delete request |
| `Teardown.ReportedDeletingFinalizes` | internal/resource/service.go:468-473 | a run in which an agent's own "deleting" then "removed" finishes a delete nobody requested |
| `Teardown.FinalizesIff` | internal/resource/service.go:457-476 | a statement stamps a live row if and only if it is the write of a "removed" report read while the row was in "deleting", whatever the row has become since |
| `Teardown.StampedIff` | internal/resource/service.go:457-467 | on every run whatever, a row is stamped if and only if some removal was reported that was read while it was tearing down; stamped without a request, it was put into teardown by an agent's "deleting" or a direct status write |
| `Teardown.StaleRemovalStamps` | internal/resource/service.go:402-476 | a run in which a row revived with a new spec is stamped by a removal read before |
| `Teardown.TeardownWantedIff` | internal/resource/service.go:444-467 | with agents that never say "deleting" and no direct status writes, a row is tearing down or stamped only while the operator's last word is the delete, throughout a run, if and only if no report that read a teardown, be it the removal or an earlier failed or silent one, carries it over a later spec update |
| `Teardown.StaleFailureRevivesTeardown` | internal/resource/service.go:450-451 | a run in which a stale failed report puts "deleting" back on a revived row and the agent then removes it, the update never handed to anyone |
| `Teardown.StampedForever` | internal/storage/resource.sql.go:24-26 | a stamped row is the same after any run of any statements |
| `Teardown.FlaggedOncePerEpisode` | internal/storage/resource.sql.go:319-326 | between two host-unreachable flags of one row some write left a status document without the flag |
| `Observations.HealthIsObserved` | internal/resource/service.go:529-541 | in every run the health a row shows was reported by its owner, or is the "unknown" of a flag, or is none |
| `Observations.HealthFollowsIff` | internal/resource/service.go:402-476 | throughout a run the health is the last one reported while running, "unknown" once flagged, none after any other report, if and only if no "running" report without a health is written that read another one |
| `Observations.DocumentFollowsIff` | internal/resource/service.go:415-420 | throughout a run the stored status document is the last one reported or written, with the flag if the host was flagged since, if and only if no report without a document writes back one that is no longer the row's |
| `Observations.FlagTakesIff` | internal/storage/resource.sql.go:319-326 | the flag statement takes exactly the live rows that do not carry the flag yet |
| `Observations.StaleReportClearsUnknown` | internal/resource/service.go:402-476 | a run in which a report read before a flag and written after clears both the flag and its "unknown" |
| `Table.ResourceTable.CreateResource` | internal/resource/service.go:116-131 | inserts the row with its defaults and changes no other |
| `Table.PickOldest` | internal/storage/resource.sql.go:152-162 | picks as many claimable rows as the limit allows, and none younger than one it leaves |
| `Table.ResourceTable.ClaimAgentWork` | internal/storage/resource.sql.go:147-163 | leases exactly the picked rows to the caller until now + ttl, 60 seconds if none was asked for, and leaves every other row as it was |
| `Table.ResourceTable.Execute` | internal/storage/resource.sql.go:15-26 | performs one row statement and reports whether it matched |
| `Table.EventHitsItsRows` | internal/storage/resource.sql.go:147-163 | a statement moves its own row and no other, a pull hands out the rows it picked and no other, an insert adds one row |
| `Table.RowsEvolveAlone` | internal/storage/resource.sql.go:147-163 | in any table run each row does what its own share of the run does, so whatever holds of all runs of a row holds in the table |
| `Table.EveryRowIsSafe` | internal/storage/resource.sql.go:147-163 | on every reachable table every row satisfies the lease, backoff, flag, stamp and health guarantees |
| `Table.EveryRowConverges` | internal/storage/resource.sql.go:802-808 | on every table reachable with honest claims no row counts as converged on a spec nobody answered for |
| `Bypass.NothingOvertakes` | internal/storage/resource.sql.go:160 | no step adds a row ahead of an untouched row in the feed order |
| `Bypass.MissedPullAdvances` | internal/storage/resource.sql.go:152-162 | a pull that passes a claimable row over removes a full limit of rows from ahead of it |
| `Bypass.PullsConsumeRank` | internal/storage/resource.sql.go:147-163 | over any run that leaves the row alone, what the agent's pulls offered plus the rows still ahead is at most the rows ahead at the start |
| `Bypass.BoundedBypass` | internal/resource/service.go:323-336 | from any reachable table, once the agent's pulls offer more items than there are rows ahead, the row has been handed out, and to its owner if it had one |
| `Bypass.HandedWithin` | internal/resource/service.go:323-336 | in pulls of one limit: m / limit + 1 of them always reach the row |
| `Agents.AgentLifeIsSound` | internal/storage/agent.sql.go:366-373 | over an agent's whole life one subject is ever bound, at most one enrollment commits however calls interleave between check and commit, two offline records have a heartbeat or status write between them, and none comes within the threshold of a heartbeat |
| `Agents.StepKeepsBoundOnce` | internal/storage/agent.sql.go:53-57 | a bound subject is never replaced |
| `Agents.StepKeepsEnrolledOnce` | internal/storage/agent.sql.go:327-332 | every step, an enrollment's commit after a stale check included, keeps enrollments at one |
| `Agents.StepKeepsLiveness` | internal/storage/agent.sql.go:14-18 | every step keeps the offline episodes separated and free of false alarms |
| `Agents.HeartbeatBringsOnline` | internal/storage/agent.sql.go:14-18 | a heartbeat brings a live agent online, whatever it was, and dates it; on a deleted one it does nothing |
| `Agents.SweepMarksIff` | internal/storage/agent.sql.go:366-373 | a sweep marks an agent if and only if it is live, not offline yet, beat once, and not within the threshold |
| `Agents.EnrollsIff` | internal/agent/service.go:355-404 | an enrollment passes its check if and only if the agent is live and holds an unused token the caller's matches, commits if and only if the token is still unused, and is then spent |
| `Agents.StatusIsAsSaid` | internal/storage/agent.sql.go:14-18 | in every run the status is what a heartbeat, a sweep that found the agent silent, or a write by hand last said while it was live |
| `Agents.UnseenStaysPending` | internal/storage/agent.sql.go:366-373 | an agent that never beat stays pending through any sweeps |
| `Agents.DeletionIsFinal` | internal/storage/agent.sql.go:427-430 | from its deletion on no statement changes an agent |
| `Agents.AgentTable.BindSubject` | internal/agent/service.go:204-235 | succeeds exactly when the agent is live and unbound or bound to this subject; which error otherwise; the row is bound |
| `Agents.AgentTable.RequireSubject` | internal/agent/service.go:237-257 | lets a caller through exactly when the live agent is bound to its non-empty subject |
| `Agents.AgentTable.SweepOffline` | internal/agent/service.go:301-315 | returns exactly the agents this call moved offline |
| `Agents.AgentTable.ListOffline` | internal/agent/service.go:323-333 | the standing offline set |
| `Gateway.SingleWriter` | internal/grpcserver/server.go:304-335 | with binding enforced, any two accepted reports for a resource over its whole life come from one agent row and one token subject |
| `Gateway.WriterInvHolds` | internal/grpcserver/server.go:170-191 | in every run each authorized call, report in flight and accepted report belongs to the bound subject of the row's owner |
| `Gateway.AcceptedIff` | internal/resource/service.go:409-413 | a report is begun if and only if its session's agent owns the live row, and accepted, under its session, if and only if the row is still live when it is written |
| `Gateway.TableIsARun` | internal/grpcserver/server.go:304-335 | what the gateway does to resources is a valid run of the table, so whatever holds of all runs holds behind it |
| `Gateway.LetInOnlyAsBound` | internal/grpcserver/server.go:170-191 | a call is let in only as a registered agent bound to the caller's non-empty subject, and never after the agent was deleted |
| `Supervision.WithDefaults` | internal/supervisor/supervisor.go:123-140 | a positive setting is kept; others are 15 s, 90 s, five minutes and five re-dispatches |
| `Supervision.Supervisor.DoRedispatch` | internal/supervisor/supervisor.go:490-537 | counts a re-dispatch only if the statement took, and records one escalation when the count passes the threshold |
| `Supervision.Supervisor.NoteRecovered` | internal/supervisor/supervisor.go:543-574 | clears the count and records a recovery only after an escalation |
| `Supervision.Supervisor.ReportMissingInstance` | internal/supervisor/supervisor.go:587-617 | records a missing instance unless the episode says it was, and notes it there |
| `Supervision.Supervisor.Prune` | internal/supervisor/supervisor.go:654-662 | keeps exactly the episodes of live keys |
| `Supervision.Supervisor.IndexByName` | internal/supervisor/supervisor.go:374-386 | the index holds, for each name, the last instance listed under it |
| `Supervision.Supervisor.AttendTo` | internal/supervisor/supervisor.go:403-421 | tearing down, offline host, standing down and re-dispatch, in that order |
| `Supervision.Supervisor.KeepSystemServicesAlive` | internal/supervisor/supervisor.go:374-426 | the loop over registrations, interleaved with any statements of others, equals the pass function |
| `Supervision.Supervisor.FlagStranded` | internal/supervisor/supervisor.go:326-368 | flags exactly the listed instances on offline hosts and records only the flags that matched |
| `Supervision.Supervisor.SweepAgents` | internal/supervisor/supervisor.go:274-309 | marks silent agents offline, writes one record for each row returned, and yields the standing offline set, empty if that read fails |
| `Supervision.Supervisor.RunPass` | internal/supervisor/supervisor.go:243-263 | the whole pass, liveness sweep included, over whatever its list and registry reads returned or failed to return, equals the pass function |
| `Escalation.EscalationAccounting` | internal/supervisor/supervisor.go:490-574 | for every key after every sequence of passes: escalated exactly when re-dispatches exceed the threshold, re-dispatches equals the successful ones since the last reset or drop, one escalation per such stretch, and recoveries never outnumber escalations in any prefix |
| `Escalation.TickBalances` | internal/supervisor/supervisor.go:243-263 | one pass keeps that accounting |
| `KeepAliveProofs.KeepAliveReArms` | internal/supervisor/supervisor.go:374-426 | after one fault-free pass that nobody disturbs, every supervised instance not ahead of its spec, not being torn down and on a host not offline is serving, or out of sync inside the stale window, or claimable by its owner at once; none is parked |
| `Catalog.ServiceIsKeptRunning` | internal/supervisor/supervisor.go:440-488 | said from the catalog and the registry: a registered service that the catalog declares system tier or does not mention, and that is not core, agent, docker or runtime, is re-armed by a quiet pass if its instance is unhealthy, unknown, failed, parked in sync or stale, and otherwise left as it was or re-armed |
| `Catalog.NothingIsBookedForOthers` | internal/supervisor/supervisor.go:440-450 | for a service declared app tier, and for those four, no pass, whatever runs beside it, writes a record or count, and one that ends keeps no episode |
| `Catalog.RowIsLeftAlone` | internal/supervisor/supervisor.go:403-450 | a quiet pass leaves the instance of such a service, on a host not offline, exactly as it was; so too any instance being torn down |
| `Catalog.TornDownIsForgotten` | internal/supervisor/supervisor.go:403-408 | a pass that sees a service's instance being torn down forgets its episode |
| `Catalog.StrandedAreFlagged` | internal/supervisor/supervisor.go:326-368 | a quiet pass flags every listed instance on an offline host that is not being torn down, with unknown health if the flag is new, and changes nothing else about it |
| `Absence.OneRecordPerAbsence` | internal/supervisor/supervisor.go:587-640 | over any passes of one process the missing-instance records of a service number exactly the absences its passes saw, a failed read neither ending nor starting one |
| `Absence.PassSights` | internal/supervisor/supervisor.go:374-426 | one pass, whatever runs beside it, records the absence if and only if it is new, and remembers it if and only if it goes on |
| `Accounts.SweptAreRecorded` | internal/supervisor/supervisor.go:274-309 | whatever else of a pass fails, each agent its sweep moved is recorded as offline once, and no other |
| `KeepAliveProofs.TurnReArmsIff` | internal/supervisor/supervisor.go:403-425 | whatever others did before a turn, an instance read as needing it is re-armed right after if and only if its row by then is live, not tearing down and not ahead of its spec, and its owner is who it was |
| `KeepAliveProofs.PassReArmsIff` | internal/supervisor/supervisor.go:374-426 | the same for any turn of a pass interleaved with anything |
| `KeepAliveProofs.RedispatchFeedsIff` | internal/storage/resource.sql.go:734-743 | re-dispatching makes a row claimable if and only if observed had not run ahead of generation; otherwise nobody can ever claim it as it stands |
| `KeepAliveProofs.AheadIsNeverFed` | internal/storage/resource.sql.go:734-743 | a run that takes observed beyond generation, after which no re-dispatch lets anybody claim the row |
| `KeepAliveProofs.StandingDownMeans` | internal/supervisor/supervisor.go:452-488 | no re-dispatch is needed if and only if the instance is serving or inside the stale window |
| `Recovery.RecoveredIff` | internal/supervisor/supervisor.go:543-574 | a turn records a recovery if and only if the episode is escalated and the instance, not tearing down nor on an offline host, is serving or merely inside its stale window |
| `Recovery.EscalatedIff` | internal/supervisor/supervisor.go:490-537 | a turn records an escalation if and only if it re-dispatches and exactly the threshold of re-dispatches went before since the last reset or drop |
| `Recovery.RecoveredWhileDown` | internal/supervisor/supervisor.go:419-421 | three passes that escalate and then record as recovered a service that never ran |
| `Recovery.FreshService` | internal/resource/service.go:116-131 | such passes can start from a table with one new system resource |
| `Silence.SilentAgentIsNeverEscalated` | internal/supervisor/supervisor.go:374-426 | over any number of passes, each visiting the service no later than the stale window after the one before, interleaved with anything but reports, flags, deletes and status writes on its row, a service whose agent never answers is never escalated |
| `Silence.SilentPass` | internal/supervisor/supervisor.go:374-426 | one such pass writes no escalation and leaves at most one re-dispatch on account |
| `KeepAliveProofs.ShadowedInstanceIsIgnored` | internal/supervisor/supervisor.go:378-386 | an instance listed before another of its name is left untouched by the whole walk |
| `KeepAliveProofs.SupervisionNeverUndoes` | internal/supervisor/supervisor.go:403-417 | whatever others did just before, a keep-alive turn undoes no delete, revives no finished row and reassigns nothing |
| `KeepAliveProofs.FlaggingNeverUndoes` | internal/supervisor/supervisor.go:326-343 | nor does flagging |
| `KeepAliveProofs.StatementKeepsIntent` | internal/storage/resource.sql.go:319-326 | either of the supervisor's statements changes no row's teardown, deletion, owner or spec |
| `KeepAliveProofs.TickIsARun` | internal/supervisor/supervisor.go:243-263 | a whole pass, interleaved with any valid statements of anyone, is a valid run of the table, so whatever holds of all runs holds across it |
| `KeepAliveProofs.TicksKeepRowsSafe` | internal/supervisor/supervisor.go:217-263 | after any number of passes from any reachable table the table is reachable, every row keeps its lease, backoff, flag, stamp and health guarantees, and with honest claims no row counts as converged on a spec nobody answered for |
| `KeepAliveProofs.RecordIffFlagged` | internal/supervisor/supervisor.go:344-368 | a host-unreachable record is written if and only if the row's history gains the flag |
| `Applying.FileKeyStore.PrivateKey` | internal/steward/keystore.go:29-42 | yields what the file holds, if there is one; a missing file is no error |
| `Applying.FileKeyStore.Record` | internal/steward/keystore.go:47-65 | creates the file only if there is none, whole or, when the write is cut off, empty or truncated; no file that was there changes |
| `Applying.FileKeyStore.Discard` | internal/steward/keystore.go:71-80 | removes that one file |
| `Applying.ValidatePolicyActions` | internal/steward/reconcile.go:115-126 | accepts exactly the lists with no blank and no bare star once trimmed |
| `Applying.FindClient` | internal/authctrl/applier.go:480-493 | finds a client if and only if one has exactly that name |
| `Applying.Applier.EnsureService` | internal/authctrl/applier.go:207-237 | get-or-create, the id remembered once known, the registry converged, for every way its calls can turn out |
| `Applying.Applier.EnsurePermissions` | internal/authctrl/applier.go:330-361 | the permission loop equals its specification and counts what it created |
| `Applying.Applier.EnsureResourceAPI` | internal/authctrl/applier.go:267-311 | get-or-create of an API and its permissions, only under an applied service |
| `Applying.Applier.EnsureServiceClient` | internal/authctrl/applier.go:365-453 | key recorded before registration, rolled back if auth refuses, existing clients left alone |
| `Applying.Applier.EnsureServicePolicy` | internal/authctrl/applier.go:497-549 | get-or-create of a policy, then attachment on both paths |
| `Applying.Applier.Ensure` | internal/steward/reconcile.go:58-107 | validates, applies and records one outcome unless the process died |
| `Applying.Applier.Reconcile` | internal/steward/reconcile.go:52-113 | the loop over the catalog equals the pass function, stopping at the first returned error |
| `CrashConvergence.ConvergesFromAnyCrash` | internal/steward/reconcile.go:52-113 | after any number of passes and setup-window runs in which any call failed, lost its reply or died, short of the two faults named at CrashLimits.CustodyKeptIff, one failure-free pass leaves auth holding the whole catalog with nothing created twice and no failure reported, and the next pass, whatever its calls do, changes nothing |
| `CrashConvergence.FaultFreePassConverges` | internal/authctrl/applier.go:207-549 | one failure-free pass converges any sound world |
| `CrashConvergence.ConvergedIsFixed` | internal/authctrl/applier.go:207-549 | where the catalog already holds, no pass writes anything or reports a creation |
| `CrashConvergence.CompletedPassReportsEach` | internal/authctrl/applier.go:183-199 | a pass that ran to its end recorded exactly one outcome per catalog object, in order |
| `Outcomes.OutcomesAreTrue` | internal/authctrl/applier.go:183-549 | in every pass from any world, however its calls turn out, a success is of something auth then holds and still holds at the end, and "created" of something missing when its turn came, "ensured" of something that was not |
| `Outcomes.TurnIsTruthful` | internal/authctrl/applier.go:207-549 | the same of one turn, which only ever adds |
| `Outcomes.UnmetDependencyFails` | internal/authctrl/applier.go:268-272 | an API, client or policy whose service this pass has not applied fails and touches nothing |
| `Outcomes.KnownServicesExist` | internal/authctrl/applier.go:229 | a service other objects may lean on in a pass is one auth holds |
| `Outcomes.EmptyPolicyIsEnsured` | internal/authctrl/applier.go:497-549 | a policy without actions changes nothing and is reported as ensured |
| `Outcomes.MalformedStops` | internal/steward/reconcile.go:57-126 | an object of another version, without a name, without a spec of its kind, or a policy with a blank or bare-star action ends the pass: nothing is applied or recorded for it or after it |
| `Outcomes.WellFormedTakesItsTurn` | internal/steward/reconcile.go:57-126 | every other object gets its turn, and the pass goes on unless that turn ends it |
| `Outcomes.RegistryOnlySettles` | internal/service/service.go:207-262 | a turn moves at most the row of the service it applies, only off pending, never off what the runtime wrote, and not at all without a registry kind |
| `Outcomes.KeyPathIff` | internal/steward/keystore.go:82-91 | a service has a key file if and only if its trimmed name is not blank and has neither slash nor two dots; two services share one if and only if trimming makes them one |
| `Outcomes.WindowLeavesNoStrayKey` | internal/setup/steward.go:67-112 | in the setup window a key minted for a client that exists already is not left behind |
| `CrashConvergence.KeyCustody` | internal/authctrl/applier.go:377-453 | in every world a careful journey reaches, every registered client's JWKS comes from the key held for its service, and nothing exists twice |
| `CrashConvergence.RegisteredKeysStay` | internal/steward/keystore.go:47-80 | no later stage replaces or discards a registered client's key |
| `CrashConvergence.WindowGood` | internal/setup/steward.go:67-112 | the setup window's client path keeps custody even when a reply is lost |
| `CrashConvergence.ServiceGood` | internal/service/service.go:207-262 | a service's turn creates nothing twice and never takes a settled registry row back |
| `CrashLimits.CustodyKeptIff` | internal/authctrl/applier.go:397-443 | a client's turn keeps key files whole and registered keys in custody if and only if its key write is not cut off, with the process or without it, and it does not roll back a create that took effect |
| `CrashLimits.CustodyCanBreak` | internal/authctrl/applier.go:403-443 | each of those faults, on one client from an empty world |
| `CrashLimits.TruncatedKeyStaysFailed` | internal/authctrl/applier.go:397-419 | over a truncated key file no later turn registers the client, changes anything or reports success |
| `CrashLimits.OrphanedClientStaysFailed` | internal/authctrl/applier.go:382-391 | a registered client whose key is gone fails at every later turn, which changes nothing |
| `CrashLimits.EmptyKeyFileLosesTheKey` | internal/authctrl/applier.go:401-416 | over an empty key file a clean turn registers a key no file holds and every later one reports it as ensured |
| `CrashLimits.NoKeyNoClient` | internal/authctrl/applier.go:397-419 | without a key file, or over an empty one, no client is registered unless a key was generated and recorded |
| `CrashLimits.PermissionsOnceIff` | internal/authctrl/applier.go:330-361 | a failure-free turn creates no permission twice if and only if the names it finds missing are distinct |
| `Templates.ResolveParams` | internal/deploytemplate/service.go:184-221 | the resolving loop equals its specification, failures included |
| `Templates.ResolvedIsTyped` | internal/deploytemplate/service.go:184-258 | after resolution each non-secret parameter has the type its last definition declares, or is optional and unset |
| `Parameters.SuppliedIsUsed` | internal/deploytemplate/service.go:184-258 | a plain parameter declared once comes to what was supplied, read as its kind (the same bool, int or text, a float without its fraction, a number or text parsed), or, if that is missing, nil or "", to its default read so, or stays as it was |
| `Parameters.UndeclaredIsKept` | internal/deploytemplate/service.go:184-221 | names no plain definition declares come through resolution untouched |
| `Parameters.RefusedIff` | internal/deploytemplate/service.go:184-258 | with names declared once, resolution fails if and only if a name is blank, a required parameter has neither value nor default, or the value to use cannot be read as its kind |
| `Parameters.RefusedWritesNothing` | internal/deploytemplate/service.go:133-150 | an unknown template or a refused parameter ends the render, as not found or invalid, before anything reaches the vault |
| `Parameters.SecretIsKept` | internal/deploytemplate/credentials.go:51-120 | after vaulting, a secret declared once has its plaintext, supplied or generated, in the vault under the reference its parameter holds; without one it is dropped, and only if optional, not generated and without default |
| `Parameters.RenderUsesSupplied` | internal/deploytemplate/service.go:133-182 | a successful render returns each plain parameter as resolution made it of what was supplied |
| `Parameters.WorkloadIsAsDeclared` | internal/deploytemplate/service.go:155-182 | the object's own image and name win, then the template's image, and for the name the parameter "name", then the template's; the rest is the object's |
| `Places.RenderedInPlace` | internal/deploytemplate/service.go:260-287 | every place of a spec, however deep, is there in what is rendered: a string as it renders, a container with the same places, anything else unchanged |
| `Places.RenderFailsIff` | internal/deploytemplate/service.go:260-287 | a spec fails to render if and only if some string in it does |
| `Templates.PlainIsKept` | internal/deploytemplate/service.go:260-292 | a spec without templates renders to itself, however deeply it nests |
| `Templates.TextRendersTo` | internal/deploytemplate/service.go:289-352 | a text without braces is kept; one that is a single reference, white space aside, becomes the parameter itself, type and all, or fails if there is none; every other template is executed into text |
| `Templates.RenderedIsNamed` | internal/deploytemplate/service.go:164-176 | a rendered workload is valid and has an image and a name if the template has |
| `Templates.Renderer.VaultSecrets` | internal/deploytemplate/credentials.go:51-88 | the vaulting loop equals its specification and the vault holds exactly the writes it made |
| `Templates.Renderer.Render` | internal/deploytemplate/service.go:133-182 | a whole render equals its specification; writes already made stay made if it then fails |
| `SecretBlind.RenderingIsBlind` | internal/deploytemplate/service.go:133-182 | two renders that agree on every non-secret parameter and on which secrets are supplied return the same params, spec, hash or failure and make the same writes up to the values, for any nested spec |
| `SecretBlind.BlindThroughVault` | internal/secretctrl/credentials.go:41-59 | the same through the deployed credential store, whichever writes the vault refuses |
| `SecretBlind.SuccessMeansVaulted` | internal/deploytemplate/credentials.go:51-88 | after a success every secret parameter is absent or holds the reference of a write the vault took |
| `SecretBlind.SuppliedSecretIsStored` | internal/deploytemplate/credentials.go:51-98 | a secret supplied as text under a name declared once is in the vault, exactly, under the reference its parameter holds |
| `SecretBlind.WritesAreAnswered` | internal/deploytemplate/credentials.go:77-85 | every recorded write is one the vault answered for that parameter and value |
| `SecretBlind.ResolutionBlindIff` | internal/deploytemplate/service.go:204-249 | no step of resolution tells plaintexts apart if and only if no reached definition parses as a number a name that is also a secret supplied as text |
| `Names.RoundTripIff` | internal/resource/service.go:810-815 | a rendered resource name reads back to its parts if and only if no separator stands where a reader would stop too soon, slashes in the path allowed |
| `Names.StoredNamesReadBack` | internal/resource/service.go:745-808 | every name built from accepted parts reads back, so rendering is injective on them |
| `Names.PartsAreInPlace` | internal/resource/service.go:745-815 | tenant and project stand as given, each in its place; service, type and path come from the first metadata key that holds a text, or are core, the lower-cased kind and the name |
| `Names.AcceptedIff` | internal/resource/service.go:745-808 | a name is accepted if and only if no part is blank or holds a colon, a star or two dots, and no slash stands outside the path or at its ends |
| `Names.SameRefIff` | internal/secretctrl/credentials.go:41-71 | under one scope two parameters share a reference if and only if their template and parameter names agree once trimmed |
| `Names.StoredIff` | internal/secretctrl/credentials.go:41-71 | a credential is stored if and only if the scope is set, both trimmed names are plain segments and the vault takes the write at that address; the reference spells the address out |
| `Names.OuterSlashesDoNotMatter` | internal/secretctrl/secretctrl.go:154-160 | slashes around a folder make no difference to a reference |
| `SecretSetup.SetupIsOrderly` | internal/setup/secret.go:194-265 | in every run of any number of processes and restarts: no vault call before auth's completion is recorded or by a finished process, the vault never locked unprovisioned or twice, and State is nil exactly when done, which implies the vault is set up |
| `SecretSetup.StepKeepsSetupInv` | internal/setup/secret.go:194-265 | every step keeps that, and nothing recorded is taken back |
| `SecretSetup.DoneIsFinal` | internal/setup/secret.go:194-200 | a finished process stays finished and sends nothing more |
| `SecretSetup.FaultFreePassFinishes` | internal/setup/secret.go:194-265 | from any install with auth complete, one failure-free pass reaches done |
| `SecretSetup.PassReports` | internal/setup/secret.go:194-265 | a pass that lives to its end is ready if and only if auth was complete, the vault answered, and it was set up already or both calls succeeded; it says adopted or provisioned accordingly, else that auth is incomplete or a call failed |
| `SecretSetup.ClaimedOnce` | internal/setup/secret.go:228-265 | in every run at most one process claims to have set the vault up, and only when it is |
| `SecretSetup.GateIsAuths` | internal/setup/secret.go:201-214 | only auth's own completion opens the gate |
| `SecretSetup.VaultMovesOnlyWhenCalled` | internal/setup/secret.go:228-262 | in every run the vault is provisioned, or locked, only by its own wizard or by a call some process sent for it |
| `SecretSetup.DiedIsPending` | internal/setup/secret.go:144-154 | a process that died comes back unfinished and reports setup as pending |
| `SecretSetup.SetupWaits` | internal/setup/secret.go:274-296 | the delay between passes is three seconds, doubles, and stays at half a minute |
| `SecretSetup.PassIsARun` | internal/setup/secret.go:194-265 | a pass is a stretch of such a run, so it keeps what every run keeps |
| `SecretSetup.SecretOrchestrator.State` | internal/setup/secret.go:144-154 | nil once done, else the last problem |
| `SecretSetup.SecretOrchestrator.Record` | internal/setup/secret.go:305-312 | the outcome is stored and done only ever set |
| `SecretSetup.SecretOrchestrator.Run` | internal/setup/secret.go:194-265 | one pass equals the pass function |
| `SecretSetup.SecretOrchestrator.RunWithRetry` | internal/setup/secret.go:274-296 | passes until done or cancelled, with delays min(30 s, 3 s * 2^k) |
| `ControlPlane.Orchestrator.TryBegin` | internal/setup/orchestrator.go:63-71 | claims the slot exactly when it was free |
| `ControlPlane.Orchestrator.Persist` | internal/storage/control_plane.sql.go:34-47 | the upsert keeps the stored key when given an empty one and overwrites everything else |
| `ControlPlane.Orchestrator.RunWith` | internal/setup/orchestrator.go:159-420 | an attempt equals the attempt function, and one made while another is in flight changes nothing |
| `ControlPlane.CompletionIsDurable` | internal/setup/orchestrator.go:194-231 | completion never reverts over any sequence of attempts, whatever fails |
| `ControlPlane.CleanAttemptCompletes` | internal/setup/orchestrator.go:281-410 | from an open window one attempt whose calls all come back well leaves auth locked and the row with the attempt's time, its console id and the key stored before or the one minted; auth holds that key unless it had one |
| `ControlPlane.CleanAttemptRecords` | internal/setup/orchestrator.go:185-231 | in a closed window such an attempt leaves completion recorded and key, console id and auth untouched |
| `ControlPlane.OneCleanAttemptIsEnough` | internal/setup/orchestrator.go:159-420 | whatever failed before or fails after, one clean attempt leaves setup complete |
| `ControlPlane.WindowClosesIff` | internal/setup/orchestrator.go:281-405 | auth's window closes if and only if an attempt gets as far as creating the administrator; the row is not written before completion |
| `ControlPlane.ConsoleIsBestEffort` | internal/setup/orchestrator.go:365-378 | the row written from an open window carries the attempt's time, and its console id if that step succeeded, else none |
| `ControlPlane.StoredKeyIsDurable` | internal/setup/orchestrator.go:425-438 | with readable rows a stored key never changes and is never erased |
| `ControlPlane.StoredKeyKeptIff` | internal/setup/orchestrator.go:425-438 | a stored key survives an attempt if and only if the attempt does not both fail to read it and reach the write |
| `ControlPlane.AgreementIff` | internal/setup/orchestrator.go:281-410 | over any sequence of attempts with readable rows, core's key and auth's agree if and only if no attempt registered a key it did not store |
| `ControlPlane.ClosedWithoutKey` | internal/setup/orchestrator.go:185-231 | if the window closed without a stored key, no later attempt ever stores one |
| `ControlPlane.CompletesWithoutKey` | internal/setup/orchestrator.go:405-410 | two attempts after which setup is complete and core holds no key |
| `Capabilities.AnswersAreRight` | internal/server/capabilities.go:300-318 | beside any run of attempts over a readable row, a "complete" answer is right, console client included, then and for ever; a "not complete" answer is right or completion was recorded less than five seconds ago |
| `Capabilities.ReadsAreSpaced` | internal/server/capabilities.go:300-318 | however often it is asked, the probe reads the row at most once in five seconds |
| `Capabilities.CacheInvHolds` | internal/server/capabilities.go:300-318 | the cache never runs ahead of the row and never rests on a check made after completion |
| `Capabilities.CapabilitiesHandler.SetupIdentity` | internal/server/capabilities.go:300-318 | refreshes the cache only when it is neither complete nor fresh, and answers from it |

## Left out

- HTTP handlers, routers, pagination, tenant, project and provider records, logging, telemetry and configuration loading: plumbing.
- gRPC and TLS dialing, token signing and verification, key and JWKS formats, hashing, JSON and text/template internals: opaque libraries, here parameters or outcomes of a call.
- Listing is unpaged: an auth list that needs more than one page of 200 is not modelled, nor are auth's partial name matches.
- `FOR UPDATE SKIP LOCKED`: a claim is one atomic step, so two claims that overlap inside the database are serialized.
- The database clock is taken as strictly advancing and times as integers; the attempt counter as unbounded where the column is 32 bits wide.
- Lower-casing covers the ASCII letters only, and health texts are taken as already normalised.
- UpdateSpec is the statement it ends in: what its earlier read filled in is part of the argument, so overlapping updates by two operators are last writer wins.
- AssignResourceAgent: it has no caller, and would reassign an owned row.
- The batch loops and counters of PullWork and ReportStatus, and the work envelope: each item is one step here.
- Enrollment and heartbeats exist only as steps of the agent machine, with no method of their own.
- Concurrent passes of one supervisor or one reconciler: each is started by one loop.
- The reconcile report's counters: the outcomes carry the same information.
- The setup window's service, API, role, policy and console registrations, the tenant mirror and the registry seeding: get-or-create calls on the other side, or best effort.
- The registry's own reads and write are one call; so are an attempt's tenant and service registration, and its dial and status.
- Auth is taken to report setup complete as soon as its administrator exists.
- A vault driver that is not configured reports nothing wrong and never runs; the model starts from a configured one.
- Error texts: a failure carries its kind.
- Convergence.NoLostSpecUpdate: is about agents and direct status writes that claim only what was handed out; for status writes that is exact (Convergence.StatusWriteKeepsIff), for reports the bound on observed is (Convergence.WriteKeepsBoundIff).
- Teardown.DeletedOnlyOnRequest: excludes agents that report "deleting" and direct status writes; Teardown.StampedIff is the exact statement without either exclusion.
- KeepAliveProofs.KeepAliveReArms: is about an instance that has not run ahead of its spec (exact by KeepAliveProofs.RedispatchFeedsIff) and a pass nobody disturbs; KeepAliveProofs.PassReArmsIff is the statement amid others.
