# Verified model of the agent capability broker

A Dafny model of the parts of the agent capability broker where a mistake would
hand out, lose or leave behind a credential, with proofs of what those parts
promise.

- `registry.dfy`, `registry_theorems.dfy`, `registry_reports.dfy`,
  `registry_class.dfy`: the broker's checkout registry. Values live in memory,
  value-free records on disk. `Reg` is the abstract state and the functions of
  `RegistrySpec` say what each operation does to it; the class `Registry` does it in
  place on shared `Checkout` objects and is proved to do exactly that.
  `RegistryTheorems` states what the operations guarantee, checkout by checkout, and
  `RegistryReports` in which order and what they log. Which issuer kinds exist,
  which issuer revocations succeed and which state-file writes succeed are chosen by
  an `Env`.
- `broker_steps.dfy`, `broker_runs.dfy`, `broker_progress.dfy`,
  `broker_durability.dfy`: the running broker as a step relation: workers, the
  reaper and shutdown share the registry, each locked section is one step, issuer
  calls run outside the lock, a crash may fall between any two steps, and a restart
  recovers. Invariants over every run, and what becomes of the checkouts whose
  state-file write failed.
- `broker_refinement.dfy`: the link between the two: each sequential operation of
  `RegistrySpec` is a run of the step relation that ends in the specified state.
- `leases.dfy`, `leases_theorems.dfy`, `leases_outcomes.dfy`, `leases_calls.dfy`,
  `leases_class.dfy`: child tokens. A script of moves says, interaction by
  interaction, how long each takes, whether it fails before or after its effect, and
  what is answered; the broker's bookkeeping is proved against every script, and
  each bad outcome has its exact condition on the moves. The class
  `ChildTokenLeases` does it in place.
- `service_leases.dfy`: checkouts beside their tokens: how long a checkout outlives
  its token, and which reported revocations have ended one.
- `service.dfy`, `service_secrecy.dfy`, `service_theorems.dfy`,
  `service_requests.dfy`, `service_class.dfy`: requests, answers and whole runs of
  the broker; non-interference of issued values; what each request does and answers.
- `framing.dfy`: length-prefixed frames over a stream that arrives in any pieces.
- `onboard.dfy`, `onboard_rollback.dfy`, `onboard_agreement.dfy`,
  `onboard_probes.dfy`, `onboard_undo.dfy`, `onboard_replaced.dfy`,
  `onboard_failures.dfy`, `onboard_site.dfy`: the onboarding saga (plan,
  three-valued probes, apply, undo stack, drift check) over a model of Vault and the
  plane files, in which a call that raises may have had its effect.
- `plane_env.dfy`, `plane_lines.dfy`: the plane `.env` printer and the parser every
  reader uses; what each form of line reads as.
- `exec.dfy`, `exec_body.dfy`, `exec_theorems.dfy`, `exec_names.dfy`,
  `exec_runs.dfy`, `exec_class.dfy`, `launcher.dfy`, `launcher_reads.dfy`: exec
  checkout: environment-name planning across capabilities, what the child is given
  and when it is started, the provenance trace of a try block that an exception may
  cut short anywhere, before and after it too, the receipt, and the launcher that
  reads it back.
- `cli.dfy`, `cli_grammar.dfy`: the hand-written token splitter of `acb exec`, and
  the grammar of the lines it reads.
- `history.dfy`, `history_listing.dfy`, `history_input.dfy`, `batch_output.dfy`: the
  one-pass verdict on a commit graph, and the reading of git's output under it: the
  listing of commits, the rows of the batch check, and the byte-offset parser of
  `git cat-file --batch`.
- `scanner.dfy`, `scanner_reports.dfy`: the committed-identifier scan, and what its
  reports are worth.
- `base.dfy`, `json_tree.dfy`: shared types.

Where the code works step by step the model has classes and methods with loops
(`Registry`, `Broker`, `ChildTokenLeases`, `Site`, `Runner`, `Socket`, and the loops of
the parsers and of the history pass), each tied by its `ensures` to a function
about which the theorems are proved, or stating the promise outright.

## What the proofs found

- A checkout whose state-file write failed is refused to the worker that asked but
  stays in memory, and the next like request is answered from it
  (`ServiceTheorems.FailedAddIsShared`). If the broker then crashes, no recovery and no
  later step ever revokes it (`BrokerDurability.SharedThenLost`). A fresh answer is
  always on disk; a shared one exactly if it was before
  (`ServiceTheorems.AnsweredIsFiledIff`, `BrokerDurability.SharedIsFiledIff`).
- A helper can be handed a value that has already expired: the clock is read before
  the registry's lock is taken. Every value handed out has life left if and only if
  the wait for the lock is shorter than the minimum asked for
  (`BrokerRuns.AlwaysLiveIff`).
- A child token can be left alive after a failed issue although the documentation
  says nothing dangles. None is left behind if and only if the last create call is not
  made, is refused or makes none, or the token is named, a client is built for it, and
  the first read or else the clean-up returns (`LeasesOutcomes.NothingLeftIff`); each
  other end can leave a live one (`LeasesOutcomes.Dangles`). A creds reply of the wrong
  shape leaves a held token no checkout names if and only if the token has not expired
  by then and the call that gives it back fails (`LeasesOutcomes.StuckIff`).
- A checkout can be recorded as live long after its child token, and so its lease, has
  died. For each grant, it is never so beyond the time from the token's minting to the
  checkout's stamp if and only if Vault reports the grant or grants all that was asked
  for; otherwise the worst is what was not granted, and it is reached
  (`LeasesOutcomes.OverrunIff`, `ServiceLeases.FreshOverrunIff`).
- After a restart, recovery reports every recorded Kubernetes checkout as revoked and
  ends no token; they live until their own expiry (`ServiceLeases.RecoveryEndsNothing`).
- A plane file is read back as written if and only if each value is plain
  (`PlaneEnv.RoundTrip`). A successful onboarding is followed by a clean check if and
  only if each plane matched before or its values can be carried
  (`OnboardAgreement.CleanAfterApplyIff`); with an address that cannot be, the check is
  not clean after a run in which everything succeeded (`OnboardFailures.SuccessNotClean`,
  with an instance in `OnboardFailures.SpacedAddress`), and every further run mints
  another SecretID (`OnboardAgreement.EveryRunMints`).
- A failed onboarding that is rolled back in full can leave a plane dead: the SecretID
  that the replaced file held was revoked before a later step failed, and the old file
  is put back (`OnboardFailures.AddressMoved`). `OnboardRollback.RestoredPlaneLives` says
  exactly when a restored file still names a live SecretID, and
  `OnboardReplaced.PlaneSurvivesIff` says it of the environment alone.
- What a rolled-back onboarding leaves: a policy or role that was there, as converged;
  the policy and the role it wrote without being able to look first; what a call made
  although it raised; and each SecretID whose accessor it was not told
  (`OnboardRollback.FailedRunRestores`).
- A child that exited 0 is recorded as failed exactly when an exception arrives before
  its exit is noted; it is recorded as applied by a path that raises exactly when one
  arrives after that, or the record's write raises with its line written; and it leaves
  a start alone exactly when the record's write is not reached, or raises with no line
  written (`ExecTheorems.ExitedButFailed`, for every path).
- A bare exec checkout upper-cases field names without a collision check, so the
  launcher reads back what was resolved only under the condition of
  `Launcher.BareRoundTrip`; a composed checkout's receipt is never accepted by the
  launcher's parser (`Launcher.ComposedUnread`); an empty selection passes planning but
  not the launcher (`Launcher.StrictRoundTrip`).
- The word scan promises a violation for every occurrence and reports non-overlapping
  ones. Nothing is missed in a text if and only if no two occurrences overlap
  (`ScannerReports.AllReportedIff`), and in no text if and only if the word has no
  border (`ScannerReports.AlwaysReportedIff`); `ScannerReports.OverlapMissed` is an
  instance. So too for phrases (`ScannerReports.AllFoundIff`,
  `ScannerReports.PhraseMissed`).
- The phrase scan names and shows the wrong line after a form feed, a lone carriage
  return or another boundary that is not a line feed, and only then
  (`ScannerReports.PhraseLineIff`, `ScannerReports.FormFeedMisplaces`).
- Declaring private and then removing the file lets a repository leave the
  publication system only if no other tip is exposed (`History.PrivateThenRemoved`).

## Model

| member | source | states |
|---|---|---|
| RegistryTheorems.RevokeFate | src/agent_capability_broker/broker/registry.py:279-309 | per checkout: unnamed is untouched; named is gone exactly when its issuer confirmed, else stays without value and pending; reported ids are exactly those gone |
| RegistryTheorems.RevokeLog | src/agent_capability_broker/broker/registry.py:279-309 | no issuer is asked twice about one checkout in a revocation, and each is asked with that checkout's own handle |
| RegistryTheorems.AskedOnce | src/agent_capability_broker/broker/registry.py:286-308 | two issuer calls of one revocation are about different checkouts |
| RegistryTheorems.RevokeFile | src/agent_capability_broker/broker/registry.py:307-309 | the state file is rewritten from memory when anything was named and the write succeeded, and is otherwise unchanged |
| RegistryTheorems.RevokeSettles | src/agent_capability_broker/broker/registry.py:279-309 | revocation keeps: no value exactly when pending |
| RegistryTheorems.ReapFate | src/agent_capability_broker/broker/registry.py:311-329 | a reap revokes exactly the entries that are expired, whose anchor process is gone, or that wait for a retry; any other is untouched and no issuer is asked about it; after a reap that returns, no entry is left due but the pending ones, and every returned id is gone from memory and file |
| RegistryTheorems.ReapDurable | src/agent_capability_broker/broker/registry.py:311-329 | a reap, even one that fails part way, keeps every remembered handle on disk |
| RegistryTheorems.AddDurable | src/agent_capability_broker/broker/registry.py:220-226 | once `add` returns, the file lists the new checkout and all others in memory, each with its handle |
| RegistryTheorems.AddSettles | src/agent_capability_broker/broker/registry.py:220-226 | adding keeps: no value exactly when pending |
| RegistryTheorems.RevokeDurable | src/agent_capability_broker/broker/registry.py:279-309 | what stays in memory after a revocation stays on disk with its handle, even if the write fails |
| RegistryTheorems.RecoverFate | src/agent_capability_broker/broker/registry.py:207-218 | every recorded checkout's issuer is asked with the recorded handle; it is then gone if that succeeded, else pending without value or anchor |
| RegistryTheorems.RestoreFind | src/agent_capability_broker/broker/registry.py:94-117 | what recovery loads for a record: pending, no value, no process anchor |
| RegistryTheorems.ReuseIsFirst | src/agent_capability_broker/broker/registry.py:228-244 | a shared checkout is the earliest that qualifies, and none is shared only if none qualifies |
| RegistryReports.RevokeSweeps | src/agent_capability_broker/broker/registry.py:279-309 | the dict after a revocation, in order: the confirmed entries are left out, the other named ones pend without a value, the rest are as they were |
| RegistryReports.RevokeOrder | src/agent_capability_broker/broker/registry.py:281-287 | issuers are asked in the order in which the ids first name the checkouts |
| RegistryReports.RevokeTells | src/agent_capability_broker/broker/registry.py:286-306 | each checkout named is logged once, with its own labels, the reason given, and applied exactly if it is gone; nothing else is logged |
| RegistryReports.ReapReasons | src/agent_capability_broker/broker/registry.py:311-329 | everything a reap logs is about a due checkout, under the first of expired, session end and retry that applies |
| RegistryReports.PutPlace | src/agent_capability_broker/broker/registry.py:223-224 | a new id goes to the end of the dict, a known one keeps its place |
| RegistryReports.RestoreIs | src/agent_capability_broker/broker/registry.py:209-213 | recovery loads the records in file order, pending, without value or anchor |
| RegistryReports.WrittenIs | src/agent_capability_broker/broker/registry.py:203-205 | the file lists every checkout in memory, in order, with its mark and without its value |
| RegistryClass.Registry.Persist | src/agent_capability_broker/broker/registry.py:203-205 | the file becomes the records in memory, or stays as it was |
| RegistryClass.Registry.Add | src/agent_capability_broker/broker/registry.py:220-226 | the in-place `add` does what `RegistrySpec.Add` says, error case included |
| RegistryClass.Registry.FindReusable | src/agent_capability_broker/broker/registry.py:228-244 | the loop finds the checkout the specification names, with its value |
| RegistryClass.Registry.Counts | src/agent_capability_broker/broker/registry.py:272-277 | the two counts are the numbers of pending and of live rows |
| RegistryClass.Registry.Revoke | src/agent_capability_broker/broker/registry.py:279-309 | the in-place revocation on shared objects is `RegistrySpec.Revoke` |
| RegistryClass.Registry.RevokeTarget | src/agent_capability_broker/broker/registry.py:286-306 | one target: dropped on success, marked on failure or on a missing issuer, and logged |
| RegistryClass.Registry.Reap | src/agent_capability_broker/broker/registry.py:311-329 | the in-place reap, over one snapshot in three groups, is `RegistrySpec.Reap` |
| RegistryClass.Registry.RevokeAll | src/agent_capability_broker/broker/registry.py:331-336 | shutdown revokes every id in memory |
| RegistryClass.Registry.Recover | src/agent_capability_broker/broker/registry.py:207-218 | recovery loads the file as pending objects and revokes them, as `RegistrySpec.Recover` |
| RegistryClass.CountsAreRows | src/agent_capability_broker/broker/registry.py:272-277 | the pending count and the rows a listing shows as live add up to all rows |
| BrokerRuns.StepInv | src/agent_capability_broker/broker/registry.py:203-309 | the invariant survives every step of every thread, a crash and a restart |
| BrokerRuns.RunInv | src/agent_capability_broker/broker/registry.py:203-309 | the invariant holds in every reachable state |
| BrokerRuns.NoHandleLost | src/agent_capability_broker/broker/registry.py:203-226 | in every interleaving, with a crash anywhere, an added checkout not yet revoked is in the file with its handle, and the file lists beyond memory only revoked handles |
| BrokerRuns.RecoveryRetries | src/agent_capability_broker/broker/registry.py:207-218 | after any run that ended in a crash, recovery sets out to revoke exactly the recorded checkouts, every added one that still needs it among them |
| BrokerRuns.QuiescentValues | src/agent_capability_broker/broker/registry.py:279-306 | when no operation is under way, a checkout has no value exactly when it is pending |
| BrokerRuns.HandoutsSound | src/agent_capability_broker/broker/registry.py:228-244 | every reused value belonged, at the locked lookup, to a checkout of the same capability, session and harness whose revocation had not begun, with the stated remaining life |
| BrokerRuns.AlwaysLiveIff | src/agent_capability_broker/broker/registry.py:228-244 | over all runs, every value handed out with this minimum and this wait has life left if and only if the wait is shorter than the minimum |
| BrokerRuns.LateLookup | src/agent_capability_broker/broker/registry.py:232-233 | for every minimum and every wait as long, a run that hands out an expired value |
| BrokerProgress.NeverStuck | src/agent_capability_broker/broker/registry.py:203-309 | in every reachable state every thread can take its next step, whatever the others do and whatever disk and issuers answer; a crashed process can be started again |
| BrokerProgress.EndsAfter | src/agent_capability_broker/broker/registry.py:279-309 | an operation that no crash cuts short ends after a number of its own steps that is known when it starts, whatever else goes on |
| BrokerDurability.RunWritten | src/agent_capability_broker/broker/registry.py:220-226 | in every reachable state a remembered checkout is on disk exactly when it is not one whose own write failed and has not been made good |
| BrokerDurability.SharedIsFiledIff | src/agent_capability_broker/broker/registry.py:228-244 | a checkout about to be shared is on disk with its handle exactly when no failed write of its own is outstanding |
| BrokerDurability.LostForever | src/agent_capability_broker/broker/registry.py:203-226 | an issued checkout that neither memory, nor disk, nor any thread knows is never revoked by any later run |
| BrokerDurability.CrashDecides | src/agent_capability_broker/broker/registry.py:207-226 | after a crash, recovery asks the issuer about an unrevoked checkout exactly when it is on disk; if it is not, no later run ever revokes it |
| BrokerDurability.SharedThenLost | src/agent_capability_broker/broker/registry.py:220-226 | a run that shares a checkout whose write failed; after a crash it is never revoked |
| BrokerRefinement.EachTarget | src/agent_capability_broker/broker/registry.py:286-306 | the loop over the targets is a run of issuer calls and locked settlements |
| BrokerRefinement.RevokeIsARun | src/agent_capability_broker/broker/registry.py:279-309 | the sequential revocation is a run of the concurrent broker that ends in the specified memory and file |
| BrokerRefinement.ReapIsARun | src/agent_capability_broker/broker/registry.py:311-329 | so is a reap: its three groups in order, ending where a write fails |
| BrokerRefinement.ShutdownIsARun | src/agent_capability_broker/broker/registry.py:331-336 | so is the revocation of everything at shutdown |
| BrokerRefinement.AddIsARun | src/agent_capability_broker/broker/registry.py:220-226 | so is an issue followed by `add` |
| BrokerRefinement.RecoverIsARun | src/agent_capability_broker/broker/registry.py:207-218 | and a restart with its recovery after a crash |
| LeasesTheorems.CreateIs | src/agent_capability_broker/broker/issuers.py:271-288 | what a create call may do to Vault: at most one token, at most as long as asked, made before any failure of the answer |
| LeasesTheorems.CallIs | src/agent_capability_broker/broker/issuers.py:171-189 | one call, retried once with a new client after a refusal; at most one token is minted, by the client reported |
| LeasesCalls.CallClient | src/agent_capability_broker/broker/issuers.py:157-189 | with which client each create call is made: the one there is or a new one, and after a refusal one made since; which client is kept |
| LeasesCalls.TokenLife | src/agent_capability_broker/broker/issuers.py:259-317 | a token is asked for the checkout's lifetime, between one second and a quarter of an hour; it is stamped for what Vault says it granted, or else for what was asked |
| LeasesTheorems.ReadIs | src/agent_capability_broker/broker/issuers.py:306-317 | a token that cannot be read with is ended if the clean-up call returns, else abandoned |
| LeasesTheorems.IssueIs | src/agent_capability_broker/broker/issuers.py:259-317 | each minted token is in exactly one of held, ended, abandoned; a failed issue abandons the token it minted unless the clean-up returned; on success stamp, lifetime and granted duration agree |
| LeasesOutcomes.NothingLeftIff | src/agent_capability_broker/broker/issuers.py:259-317 | the exact condition on the moves for an issue to leave no token behind, and for it to succeed |
| LeasesOutcomes.Dangles | src/agent_capability_broker/broker/issuers.py:259-317 | each way an issue can leave a live token behind is reached |
| LeasesTheorems.RevokeIs | src/agent_capability_broker/broker/issuers.py:319-348 | returning normally for a held token means it is dead at Vault; for one not held nothing is done at all; no other token is touched |
| LeasesCalls.RevokeDoes | src/agent_capability_broker/broker/issuers.py:319-346 | revoking a held token makes no call exactly if its stamp has run out, else one with the token itself; it is let go exactly if that returns or was not needed, and Vault's tokens are otherwise unchanged |
| LeasesTheorems.RestartIs | src/agent_capability_broker/broker/issuers.py:232-234 | a restart ends no token; those held become abandoned |
| LeasesOutcomes.RunInv | src/agent_capability_broker/broker/issuers.py:192-348 | over any sequence of issues, creds, revocations and restarts: each token is counted in exactly one place, an ended one stays dead, and a live one is held or abandoned |
| LeasesTheorems.CredsIs | src/agent_capability_broker/broker/issuers.py:419-454 | lifetime between 1 s and the token's and the asked one, within the token's stamp; a bad creds reply gives the token back or leaves it held |
| LeasesOutcomes.CredsLifetime | src/agent_capability_broker/broker/issuers.py:419-454 | the lifetime of issued creds is exactly the larger of a second and the least of what was asked, the creds' own duration if positive, and the whole seconds left of the token's stamp, read off the script's moves |
| LeasesOutcomes.StuckIff | src/agent_capability_broker/broker/issuers.py:438-443 | the exact condition on the moves for a failed creds issue to leave a token held |
| LeasesCalls.CredsIff | src/agent_capability_broker/broker/issuers.py:419-454 | creds are issued exactly when the last create call names a token that a client is built for and that can be read with, and the creds have the right shape |
| LeasesOutcomes.Stranded | src/agent_capability_broker/broker/issuers.py:438-443 | a live token left held for no checkout |
| LeasesTheorems.DeadByTtl | src/agent_capability_broker/broker/issuers.py:192-199 | any token is dead 900 s after its minting |
| LeasesOutcomes.OverrunIs | src/agent_capability_broker/broker/issuers.py:444-454 | a checkout passes its token's expiry at Vault by at most the time from minting to its own stamp and what was asked for and not granted; the latter only if the grant is not reported; sharper with more than a second of life |
| LeasesOutcomes.OverrunIff | src/agent_capability_broker/broker/issuers.py:444-454 | over all scripts, states, stamps and lifetimes, that bound is exact for each grant, reported or not |
| LeasesOutcomes.WithinIff | src/agent_capability_broker/broker/issuers.py:444-454 | the checkout never outlives its token beyond the time from minting to stamp if and only if the grant is reported or full |
| LeasesOutcomes.Unreported | src/agent_capability_broker/broker/issuers.py:300-302 | for every short grant that is not reported, a run in which the checkout outlives its token by all the rest |
| LeasesClass.ChildTokenLeases.Call | src/agent_capability_broker/broker/issuers.py:171-189 | the retried call in place, as specified |
| LeasesClass.ChildTokenLeases.Issue | src/agent_capability_broker/broker/issuers.py:259-317 | issuing in place, as specified |
| LeasesClass.ChildTokenLeases.Revoke | src/agent_capability_broker/broker/issuers.py:319-348 | revoking in place, as specified |
| LeasesClass.ChildTokenLeases.IssueCreds | src/agent_capability_broker/broker/issuers.py:419-454 | the creds issuer in place, as specified |
| ServiceLeases.FreshOverrun | src/agent_capability_broker/broker/service.py:210-217 | a fresh checkout against the token its handle names: the same bound for the expiry the registry records |
| ServiceLeases.FreshOverrunIff | src/agent_capability_broker/broker/service.py:210-217 | over all worlds, capabilities and turns, that bound is exact |
| ServiceLeases.FreshLife | src/agent_capability_broker/broker/service.py:210-217 | a fresh checkout lives exactly as long as its creds were issued for, at most the larger of a second and their own duration |
| ServiceLeases.ServedFate | src/agent_capability_broker/broker/issuers.py:319-348 | over all the calls of a revocation: a held token with a recorded success is dead; one not held is not touched, whatever was recorded |
| ServiceLeases.ReportedTokens | src/agent_capability_broker/broker/registry.py:279-309 | which reported ids have a dead token: those whose token was held; the others stay as they were, and are dead 900 s after minting |
| ServiceLeases.RecoveryEndsNothing | src/agent_capability_broker/broker/registry.py:207-218 | recovery after a restart reports each recorded checkout of this kind as revoked and changes nothing at Vault |
| ServiceSecrecy.EraseDispatch | src/agent_capability_broker/broker/service.py:120-142 | every request commutes with erasing the issued values |
| ServiceSecrecy.EraseRun | src/agent_capability_broker/broker/service.py:95-142 | so does every run of requests, reaps, restarts and shutdowns |
| ServiceSecrecy.SameRecords | src/agent_capability_broker/broker/registry.py:82-92 | two runs that differ only in issued values leave the same state file, issuer calls and events |
| ServiceSecrecy.SameAnswers | src/agent_capability_broker/broker/service.py:177-238 | and give identical answers to everything but helper checkouts |
| ServiceSecrecy.CheckoutShape | src/agent_capability_broker/broker/service.py:228-238 | a checkout's answer carries a value and the mark exactly when a helper asked |
| ServiceSecrecy.DispatchedShapeOk | src/agent_capability_broker/broker/protocol.py:301-314 | no dispatched answer is refused by the value rule |
| ServiceTheorems.SelectIs | src/agent_capability_broker/broker/registry.py:250-265 | a selection holds each checkout that passes the filters once, oldest first |
| ServiceTheorems.SortStable | src/agent_capability_broker/broker/registry.py:265 | checkouts issued at the same time keep their order |
| ServiceTheorems.RevokeRequestFate | src/agent_capability_broker/broker/service.py:240-262 | per checkout: what the request is not about is untouched; the rest is reported revoked and gone, or reported pending and kept without value |
| ServiceTheorems.NotFoundIff | src/agent_capability_broker/broker/service.py:247-250 | not found exactly when the named checkout is absent or of another session |
| ServiceRequests.ResolveIs | src/agent_capability_broker/broker/service.py:157-173 | a capability is found exactly when one fits the id, or the tool and host, and it is the first that does |
| ServiceRequests.CheckoutAdmits | src/agent_capability_broker/broker/service.py:177-199 | a checkout is answered only for a capability that fits, whose allowlist is empty or has the caller's harness, that the asking front end's helper delivers, and that has an issuer; else nothing changes and the failure is the first of these tests to fail |
| ServiceRequests.CheckoutShares | src/agent_capability_broker/broker/service.py:200-206 | an admitted request is answered from the first checkout of the same capability, session and harness that has a value, is not pending, and has a minute or a quarter of the lifetime left, whichever is less; nothing changes |
| ServiceRequests.CheckoutIssues | src/agent_capability_broker/broker/service.py:207-238 | if none can be shared, one is issued: its labels field by field, its lifetime, who else is in memory, on disk and in the log, and the answer key by key |
| ServiceRequests.ListIs | src/agent_capability_broker/broker/service.py:127-133 | a listing shows each checkout of the capability and session asked for once, every label of it, oldest first, and changes nothing |
| ServiceRequests.RevokeRefuses | src/agent_capability_broker/broker/service.py:245-253 | a revocation request that names no checkout of its session, or no served capability, changes nothing and says which |
| ServiceRequests.DryRunIs | src/agent_capability_broker/broker/service.py:254-257 | a dry run changes nothing and shows the rows of exactly what would be revoked |
| ServiceRequests.RevokeDoes | src/agent_capability_broker/broker/service.py:240-262 | per checkout: unconcerned ones are untouched, concerned ones are gone and listed as revoked or pend and are listed as pending, by what their issuer answers |
| ServiceRequests.StatusIs | src/agent_capability_broker/broker/service.py:264-290 | the two counts of a status are the pending entries and the others, each capability with its own fields |
| ServiceTheorems.ReadOnly | src/agent_capability_broker/broker/service.py:254-257 | a dry run, a listing, a status request and a refused revocation change nothing |
| ServiceTheorems.HandedIsHeld | src/agent_capability_broker/broker/service.py:202-238 | an answered checkout is in the registry under the reported id, for the asked capability, session and harness; a helper's value is its own |
| ServiceTheorems.FreshIsDurable | src/agent_capability_broker/broker/service.py:209-227 | a fresh checkout is answered only once it is on disk with all others in memory, whatever was on disk before |
| ServiceTheorems.AnsweredIsFiledIff | src/agent_capability_broker/broker/service.py:202-227 | an answered checkout is on disk exactly when it is fresh or was on disk before |
| ServiceTheorems.FailedAddIsShared | src/agent_capability_broker/broker/registry.py:220-226 | two like requests: the first cannot write and is refused, the second is answered from the checkout it left in memory, and the file still does not know it |
| ServiceTheorems.FreshLifetime | src/agent_capability_broker/broker/service.py:200-217 | a fresh lifetime lies between 1 s and the least of declared, asked, issued and 900 s |
| ServiceTheorems.RunSettles | src/agent_capability_broker/broker/service.py:120-142 | over every run ids stay distinct and a value is absent exactly when revocation is pending |
| ServiceClass.Broker.Match | src/agent_capability_broker/broker/config.py:108-120 | the loop finds the first capability whose helper serves tool and host |
| ServiceClass.Broker.Select | src/agent_capability_broker/broker/registry.py:250-265 | the filter and sort over live objects is `ServiceSpec.Select` |
| ServiceClass.Broker.CheckoutOf | src/agent_capability_broker/broker/service.py:200-238 | reuse or issue, record and answer, in place, as `ServiceSpec.CheckoutCap` |
| ServiceClass.Broker.Checkout | src/agent_capability_broker/broker/service.py:177-238 | the checks before a checkout, in order, as `ServiceSpec.Checkout` |
| ServiceClass.Broker.Revoke | src/agent_capability_broker/broker/service.py:240-262 | a revocation request in place, as `ServiceSpec.RevokeRequest` |
| ServiceClass.Broker.Dispatch | src/agent_capability_broker/broker/service.py:120-142 | all four methods in place, as `ServiceSpec.Dispatch` |
| ServiceClass.Broker.Respond | src/agent_capability_broker/broker/service.py:95-110 | what leaves is what was dispatched, and obeys the value rule |
| Framing.RecvExact | src/agent_capability_broker/broker/protocol.py:105-114 | exactly n bytes, or an error when the stream ends first, however it is cut up |
| Framing.ReadFrame | src/agent_capability_broker/broker/protocol.py:117-124 | the client's reader is a function of the bytes alone |
| Framing.RecvBefore | src/agent_capability_broker/broker/server.py:321-334 | the same with a deadline: a timeout, or the same result |
| Framing.ReadBody | src/agent_capability_broker/broker/server.py:318-343 | absent a timeout the server's reader agrees with the client's on every byte stream, error code included |
| Framing.FrameRoundTrip | src/agent_capability_broker/broker/protocol.py:86-124 | a written frame is read back exactly if and only if it is non-empty and within the limit |
| Framing.ReadWasWritten | src/agent_capability_broker/broker/protocol.py:117-124 | whatever is read, the stream began with exactly that frame |
| Framing.CutShort | src/agent_capability_broker/broker/protocol.py:105-124 | a frame cut short anywhere is an error |
| Framing.EncodedIsRead | src/agent_capability_broker/broker/protocol.py:86-91 | what the encoder lets through is read back under the same limit |
| PlaneEnv.ParseEnvText | src/agent_capability_broker/cred_vault.py:79-112 | the line loop computes `PlaneEnv.Parse` |
| PlaneEnv.ParseValueIff | src/agent_capability_broker/cred_vault.py:97-110 | a value is parsed as itself exactly when it is plain |
| PlaneEnv.RoundTrip | src/agent_capability_broker/onboard.py:638-644 | a plane file parses back to what was written if and only if all three values are plain |
| PlaneEnv.ReadOneLine | src/agent_capability_broker/cred_vault.py:79-112 | every value read from any text is one line |
| PlaneLines.StripIs | src/agent_capability_broker/cred_vault.py:79-112 | stripping leaves exactly the core: nothing but white space around it, none at its ends |
| PlaneLines.QuotedReads | src/agent_capability_broker/cred_vault.py:79-112 | a quoted value is what stands up to the next quote of its kind; what follows is dropped |
| PlaneLines.UnclosedReads | src/agent_capability_broker/cred_vault.py:79-112 | a quote that is never closed is taken off the ends |
| PlaneLines.CommentReads | src/agent_capability_broker/cred_vault.py:79-112 | an unquoted value ends at the first `#` after a blank or tab, without the white space before it |
| PlaneLines.PlainReads | src/agent_capability_broker/cred_vault.py:79-112 | an unquoted value without a comment reads as it stands |
| PlaneLines.KeyReads | src/agent_capability_broker/cred_vault.py:79-112 | a key is its name without white space and without a leading `export` |
| PlaneLines.PairReads | src/agent_capability_broker/cred_vault.py:79-112 | a line declares what its name and value read as, if the name starts with VAULT |
| PlaneLines.LastWins | src/agent_capability_broker/cred_vault.py:79-112 | a key is read off the last line that declares it, and is there only if one does |
| PlaneLines.BreakThen | src/agent_capability_broker/cred_vault.py:88 | a line ends at any boundary, a carriage return and its line feed being one |
| OnboardRollback.UnwindOrder | src/agent_capability_broker/onboard.py:1275-1299 | every undo runs once, in exact reverse order |
| OnboardRollback.UnwindDischarges | src/agent_capability_broker/onboard.py:1275-1299 | unwinding with no failed undo discharges the whole stack |
| OnboardUndo.UnwindIs | src/agent_capability_broker/onboard.py:1188-1299 | an unwinding makes every undo, the last first, whether or not one fails: what each does to Vault and to the files, and that it is reported as rolled back exactly if its call returned |
| OnboardUndo.ApplyUnwinds | src/agent_capability_broker/onboard.py:943-1008 | a run is unwound exactly if a step failed; its rows are one for each action of the plan, and then those of the unwinding |
| OnboardRollback.PrefixGood | src/agent_capability_broker/onboard.py:943-1007 | after every prefix of the plan the undo stack still accounts for all that was made |
| OnboardRollback.AbortedCompensable | src/agent_capability_broker/onboard.py:943-1007 | an aborted run's whole stack can still be discharged |
| OnboardRollback.FailedAborts | src/agent_capability_broker/onboard.py:943-1007 | a failed row always aborts the run |
| OnboardRollback.FailedRunRestores | src/agent_capability_broker/onboard.py:943-1299 | a failed run with no failed undo, exactly: policies, roles and KV paths with what it could not know it made on top; plane files as they were; a SecretID from before lives exactly if no replaced plane file held it with its revocation taking effect; one of the run's exactly if its accessor was not told and its role is there |
| OnboardRollback.DefiniteRunRestores | src/agent_capability_broker/onboard.py:943-1299 | with definite probes and every accessor told, no policy, role, value or SecretID of the run remains |
| OnboardRollback.RestoredPlaneLives | src/agent_capability_broker/onboard.py:1179-1221 | a plane file that was put back names a live SecretID exactly if it did before and no replaced plane held the same one with its revocation taking effect |
| OnboardReplaced.RunFollows | src/agent_capability_broker/onboard.py:976-1000 | how far a run gets, its calls, its SecretIDs and what it revokes are what is computed from the environment and the world before it |
| OnboardReplaced.SurvivesIff | src/agent_capability_broker/onboard.py:1179-1221 | after a full rollback, a SecretID from before is gone exactly if it is this role's and its text is among those the run gets as far as dropping |
| OnboardReplaced.PlaneSurvivesIff | src/agent_capability_broker/onboard.py:1179-1221 | and a restored plane names a live SecretID exactly if it did before and its text is not among them |
| OnboardFailures.RolledBackDead | src/agent_capability_broker/onboard.py:1179-1221 | whenever only the value's write raises after a plane's address moved: all is rolled back, and the restored file names no live SecretID, though it did before |
| OnboardFailures.AddressMoved | src/agent_capability_broker/onboard.py:1179-1221 | such worlds, for any two addresses |
| OnboardRollback.NeverOverwrites | src/agent_capability_broker/onboard.py:1224-1272 | a KV path that holds a value keeps it, whatever fails |
| OnboardAgreement.CleanIffNothingToDo | src/agent_capability_broker/onboard.py:749-842 | the drift check is clean exactly when onboarding with values makes no changing call and no step fails |
| OnboardProbes.RoleRow | src/agent_capability_broker/onboard.py:584-635 | the role row is fine exactly when the role is there and, if it can be read, is empty or is bound to the one policy with each of the four settings present holding 3600, 14400, 0, 0; when it is missing, unknown or drift; and the role id that goes with it |
| OnboardProbes.RoleStepDoes | src/agent_capability_broker/onboard.py:1053-1104 | a role seen as declared is left alone; any other is written bound to the one policy with all four settings, keeping its id |
| OnboardProbes.RunDeclares | src/agent_capability_broker/onboard.py:943-1104 | after a run in which no step failed, in a Vault whose roles can be read, the role is as declared; if it was not before, it is bound to the one policy with all four settings |
| OnboardProbes.PolicyRow | src/agent_capability_broker/onboard.py:749-843 | the policy row is fine exactly when the policy can be read and says what is declared, white space at its ends aside |
| OnboardProbes.PolicyStepDoes | src/agent_capability_broker/onboard.py:1010-1050 | a policy seen as declared is left alone, any other written |
| OnboardProbes.PlaneRowIs | src/agent_capability_broker/onboard.py:858-904 | the plane row is fine exactly when the file is complete, private, carries this address and names this role |
| OnboardProbes.PlaneStepDoes | src/agent_capability_broker/onboard.py:1107-1222 | what is minted, written, kept as backup and revoked for a plane, and when the step fails |
| OnboardProbes.ValueRowIs | src/agent_capability_broker/onboard.py:749-843 | the value row, exactly |
| OnboardProbes.ValueStepDoes | src/agent_capability_broker/onboard.py:1224-1272 | a value is written only to a path not seen and not found to hold one |
| OnboardAgreement.CarriesIff | src/agent_capability_broker/onboard.py:858-898 | what a written plane file gives back matches what was declared exactly when, for a one-line SecretID, address and role id are plain and the SecretID does not parse to nothing |
| OnboardAgreement.SuccessIs | src/agent_capability_broker/onboard.py:943-1007 | a successful run: policy, role and value as declared, each plane kept or written with the SecretID minted for it |
| OnboardAgreement.CleanAfterApplyIff | src/agent_capability_broker/onboard.py:943-1007 | after a successful run with values in a readable Vault the check is clean if and only if each plane matched before or its values can be carried |
| OnboardAgreement.ApplyThenNothing | src/agent_capability_broker/onboard.py:950-957 | and then a re-run changes nothing |
| OnboardAgreement.EveryRunMints | src/agent_capability_broker/onboard.py:950-957 | over a plane written with an address or role id that cannot be carried, each of any number of successful runs mints at least one SecretID |
| OnboardFailures.SuccessNotClean | src/agent_capability_broker/onboard.py:749-842 | everything granted, every step successful, and the check not clean: for every address that is not plain |
| OnboardFailures.SpacedAddress | src/agent_capability_broker/onboard.py:749-842 | one such run, on an empty Vault |
| OnboardSite.Site.ApplyPolicy | src/agent_capability_broker/onboard.py:1010-1050 | the policy step in place, as specified |
| OnboardSite.Site.ApplyRole | src/agent_capability_broker/onboard.py:1053-1104 | the role step in place, as specified |
| OnboardSite.Site.ApplyPlane | src/agent_capability_broker/onboard.py:1107-1185 | the plane-file step in place, as specified |
| OnboardSite.Site.ApplyKv | src/agent_capability_broker/onboard.py:1224-1272 | the value step in place, as specified |
| OnboardSite.Site.Unwind | src/agent_capability_broker/onboard.py:1275-1299 | the undo loop in place, as specified |
| OnboardSite.Site.Apply | src/agent_capability_broker/onboard.py:943-1007 | the whole run in place is `OnboardSpec.Apply` |
| OnboardSite.Site.Check | src/agent_capability_broker/onboard.py:749-842 | the drift check loop is `OnboardSpec.Check` |
| ExecTheorems.PlanIff | src/agent_capability_broker/providers.py:603-651 | planning succeeds exactly when every field's name is valid, unreserved, new and shared with no other; the plan is then the fields' own names |
| ExecTheorems.PlanAllSound | src/agent_capability_broker/providers.py:719-736 | across capabilities all planned names are valid and distinct from each other and from every inherited name, case aside |
| ExecTheorems.ResolveFacts | src/agent_capability_broker/providers.py:773-792 | resolving adds exactly the planned names, each with its resolved value, and changes nothing else |
| ExecTheorems.StrictChild | src/agent_capability_broker/providers.py:705-835 | the child's environment is the disjoint union of the unchanged inherited one, the injected names and the receipt |
| ExecNames.PlannedIff | src/agent_capability_broker/providers.py:603-740 | a checkout is planned exactly when no receipt is inherited, each capability's options are well formed and its id fits a receipt, and the names of all together are valid, unreserved, not inherited and pairwise different |
| ExecNames.RefusedAt | src/agent_capability_broker/providers.py:630-649 | a refused plan fails at the first name that cannot be handed out: not a name, reserved, used already, or inherited, in this order |
| ExecNames.NameGrows | src/agent_capability_broker/providers.py:92 | which variable names are valid, letter by letter |
| ExecNames.IdGrows | src/agent_capability_broker/providers.py:93 | which ids fit a receipt, letter by letter |
| ExecNames.StrictGiven | src/agent_capability_broker/providers.py:527-540 | in a strict child each resolved value is found under the mapped name if the options map its field to one, else under the prefix and the field in upper case, else under the field in upper case; just the selected fields are resolved, and nothing else is added but the receipt |
| ExecNames.StrictReceipt | src/agent_capability_broker/providers.py:670-702 | the receipt read back names each capability in order and each of its fields by the name it is found under, with the invocation and its two times |
| ExecNames.TargetGrows | src/agent_capability_broker/providers.py:749 | a checkout's records name all its capabilities in order |
| ExecNames.SuiteGives | src/agent_capability_broker/providers.py:654-667 | a suite's child has each field under its name, exactly the allowed inherited variables that fold to none of its names and fields, and nothing else |
| ExecNames.SuiteReceipt | src/agent_capability_broker/providers.py:1399-1506 | the one row of a suite's receipt names its fields as the suite does |
| ExecNames.BareGives | src/agent_capability_broker/providers.py:1335-1370 | a bare child has its fields in upper case over what it inherits, the later one where two fold alike |
| ExecNames.CredGives | src/agent_capability_broker/providers.py:1294-1334 | which of the three a capability's child gets, by its options, and only with the qualified command |
| ExecNames.CredRoute | src/agent_capability_broker/providers.py:1294-1320 | a qualified command is run by the path the capability's options choose; anything else is refused with nothing recorded, resolved or run |
| ExecRuns.StrictRunsIff | src/agent_capability_broker/providers.py:724-805 | a strict child is started exactly when all is planned, the receipt is at most 16 KiB, the start record is written, each capability resolves to just the fields planned, and no exception arrives before |
| ExecRuns.StrictComesTo | src/agent_capability_broker/providers.py:755-835 | what an undisturbed strict checkout comes to: the receipt's refusal, the first capability that fails to resolve or resolves to other fields, or the child's own end |
| ExecRuns.BareRunsIff | src/agent_capability_broker/providers.py:1335-1400 | a bare child is started exactly when the capability resolves, its receipt is at most 16 KiB, the start record is written, and no exception arrives before |
| ExecRuns.BareComesTo | src/agent_capability_broker/providers.py:1335-1400 | what an undisturbed bare checkout comes to |
| ExecRuns.SuiteRunsIff | src/agent_capability_broker/providers.py:1402-1506 | a suite's child is started exactly when the suite is planned and resolves to fields of its own, the start record is written, and no exception arrives before |
| ExecRuns.SuiteComesTo | src/agent_capability_broker/providers.py:1402-1506 | what an undisturbed suite checkout comes to |
| ExecTheorems.PlannedFirst | src/agent_capability_broker/providers.py:719-792 | no resolver call before all plans passed, none twice, none after a failure |
| ExecBody.PerformHonest | src/agent_capability_broker/providers.py:755-835 | whatever a path does before its child, wherever an exception arrives from the start record to the return, and whether or not a record's write that raises wrote its line: exactly when there is no record, a start alone, or a start and one terminal record; the terminal one says applied exactly when exit 0 was noted; a code is returned exactly when that exit was noted and nothing disturbed the path afterwards |
| ExecBody.ChildIs | src/agent_capability_broker/providers.py:755-835 | a child started only when every statement before it ran, with the environment they built |
| ExecTheorems.StrictHonest | src/agent_capability_broker/providers.py:755-835 | the trace of a strict checkout is honest in that sense |
| ExecTheorems.ComposedHonest | src/agent_capability_broker/providers.py:838-867 | the same through the composed entry point |
| ExecTheorems.CredHonest | src/agent_capability_broker/providers.py:1294-1506 | the same for every path of the credential provider |
| ExecTheorems.E2eHonest | src/agent_capability_broker/providers.py:462-524 | the same for the browser provider |
| ExecTheorems.ClaimsAreTrue | src/agent_capability_broker/providers.py:795-801 | a variable is recorded as injected only when the child was given it |
| ExecTheorems.BareClaimsAreTrue | src/agent_capability_broker/providers.py:1330-1372 | so too on the bare path |
| ExecTheorems.ExitedButFailed | src/agent_capability_broker/providers.py:755-835 | on any path, exactly when a child that exited 0 goes down as failed, as applied although the path raises, or not at all |
| ExecTheorems.E2eChild | src/agent_capability_broker/providers.py:482-500 | on the browser path a child runs exactly when no exception arrives before it |
| ExecTheorems.ObjectionIff | src/agent_capability_broker/providers.py:851-865 | a composed checkout is let through exactly when all are distinct non-suite credentials qualified for the command |
| ExecNames.ObjectionAt | src/agent_capability_broker/providers.py:851-865 | a composed checkout is refused for the first capability that is not composable beside those before it, for the first test it fails |
| ExecTheorems.OnlyQualified | src/agent_capability_broker/providers.py:838-867 | nothing is resolved, recorded or run unless the command is the qualified one |
| ExecTheorems.SuiteChild | src/agent_capability_broker/providers.py:654-667 | a suite's child inherits only allowed names that do not clash with what it is given, which goes by different names |
| ExecClass.Runner.InjectionPlan | src/agent_capability_broker/providers.py:603-651 | the planning loop with carried-over names is the specification |
| ExecClass.Runner.Statement | src/agent_capability_broker/providers.py:755-835 | each statement of a path on the method's own locals, as specified |
| ExecClass.Runner.Perform | src/agent_capability_broker/providers.py:755-835 | start record, try block and finally block in place, as specified, wherever an exception arrives |
| ExecClass.Runner.ExecCheckout | src/agent_capability_broker/providers.py:705-835 | the strict path step by step is `ExecSpec.ExecStrict` |
| ExecClass.Runner.ExecComposed | src/agent_capability_broker/providers.py:838-867 | the composed entry point is `ExecSpec.ExecComposed` |
| ExecClass.Runner.ExecCred | src/agent_capability_broker/providers.py:1294-1506 | all paths of the credential provider are `ExecSpec.ExecCred` |
| ExecClass.Runner.ExecE2e | src/agent_capability_broker/providers.py:462-524 | the browser provider is `ExecSpec.ExecE2e` |
| Launcher.ReadFields | src/agent_capability_broker/launcher_contract.py:96-103 | the field loop returns every mapped value, or nothing when one is not set |
| Launcher.StrictRoundTrip | src/agent_capability_broker/launcher_contract.py:51-109 | one strict capability's child reads back exactly the resolved fields if and only if the selection is not empty |
| Launcher.ComposedUnread | src/agent_capability_broker/launcher_contract.py:79-81 | a composed checkout's child is always refused |
| Launcher.BareRoundTrip | src/agent_capability_broker/providers.py:1335-1344 | a bare checkout's child reads back the resolved fields if and only if no names clash |
| LauncherReads.ReadIff | src/agent_capability_broker/launcher_contract.py:51-109 | an environment is accepted exactly when its receipt has the schema, an invocation and one checkout, of the capability expected if one is, with a field at least, each mapped to a variable that is set; and what is then read |
| LauncherReads.ResultIff | src/agent_capability_broker/launcher_contract.py:162-221 | a result document is accepted exactly when each of its parts is there in the right form or may be left out; and what is then read |
| Launcher.ReadEach | src/agent_capability_broker/launcher_contract.py:188-204 | the operations loop stops at the first bad one |
| Launcher.ResultRoundTrip | src/agent_capability_broker/launcher_contract.py:143-221 | a result is read back exactly if and only if its invocation and every operation's name and status are non-empty |
| Launcher.AcceptedIsStable | src/agent_capability_broker/launcher_contract.py:162-221 | whatever is accepted can be written and read again unchanged |
| ExecCli.ParseExec | src/agent_capability_broker/cli.py:527-594 | the token loop computes `ExecCli.Parse` |
| ExecCli.BoundaryDecides | src/agent_capability_broker/cli.py:515-532 | everything but the command depends only on the tokens before the first `--`; the command is exactly those after |
| ExecCli.OnlyIds | src/agent_capability_broker/cli.py:573-594 | a composed line's capabilities are distinct well-formed ids from before the boundary |
| ExecCli.RenderRoundTrip | src/agent_capability_broker/cli.py:515-594 | a rendered line parses back if and only if the manifest value, ids and command are as stated |
| ExecCli.OneWithoutBoundary | src/agent_capability_broker/cli.py:569-572 | without `--` there is one capability and the command is the rest of the line |
| CliGrammar.Splits | src/agent_capability_broker/cli.py:536-590 | every line's head is options and ids, in any order, followed by nothing or by a token that is neither |
| CliGrammar.ComposedReads | src/agent_capability_broker/cli.py:527-594 | with a `--`, what every line reads as: help; or the error for the first token that is no item; or the ids in order, the last manifest named, whether JSON is asked for, and the command, after the checks for no id, no command and a repeated id |
| CliGrammar.OldReads | src/agent_capability_broker/cli.py:527-594 | without a `--`, what every line reads as that stops before its capability |
| CliGrammar.OldRuns | src/agent_capability_broker/cli.py:568-594 | and one that does not: the first token that is no option is the capability, options may follow, and all that is left is the command |
| BatchOutput.ReadBatch | scripts/check_committed_identifiers.py:804-814 | the offset loop computes `BatchOutput.ReadAll`, failure included |
| BatchOutput.ReadsBack | scripts/check_committed_identifiers.py:806-810 | one printed object is read back exactly, whatever bytes it holds, wherever it stands |
| BatchOutput.BatchRoundTrip | scripts/check_committed_identifiers.py:801-814 | every blob is recovered exactly and the offset ends at the end of the output |
| HistoryInput.RowIsRead | scripts/check_committed_identifiers.py:792-800 | only a regular file's blob is read as a declaration |
| HistoryInput.AbsentIff | scripts/check_committed_identifiers.py:795-796 | a commit has no declaration exactly when its row ends in the word missing |
| History.AllSafe | scripts/check_committed_identifiers.py:821 | the join over parents, an unwalked parent counting as safe |
| History.Judge | scripts/check_committed_identifiers.py:815-821 | one pass marks a commit safe exactly when no path through declaration-free commits reaches a non-private declaration |
| HistoryListing.ReadWalk | scripts/check_committed_identifiers.py:766-775 | the parent graph and the order of the commits, from the bytes git prints |
| HistoryListing.ListingRoundTrip | scripts/check_committed_identifiers.py:768-775 | every walk git prints is read back: commits, parents and order |
| HistoryListing.BreakThen | scripts/check_committed_identifiers.py:771 | a line ends at any boundary, a carriage return and its line feed being one |
| History.Verdict | scripts/check_committed_identifiers.py:815-823 | the gate is skipped exactly when HEAD is walked and neither HEAD nor any tip has such a path |
| HistoryInput.ReadDeclarations | scripts/check_committed_identifiers.py:792-814 | what is judged is the content git stores |
| HistoryInput.AbsentVerdict | scripts/check_committed_identifiers.py:766-830 | the whole verdict, from git's output to skip or refusal |
| History.TipsCover | scripts/check_committed_identifiers.py:777-778 | every walked commit is reached from some tip |
| History.SkipMeansSuperseded | scripts/check_committed_identifiers.py:719-736 | skipped exactly when on every path from HEAD or a tip to a non-private declaration a clean private one came after it |
| History.PrivateThenRemoved | scripts/check_committed_identifiers.py:743-745 | declaring private and then removing lets the gate be skipped if and only if no other tip is exposed |
| History.RemovedIsRefused | scripts/check_committed_identifiers.py:724-728 | removing a declaration that was not private is refused |
| Scanner.ScanWord | scripts/check_committed_identifiers.py:196-208 | the find loop reports as many times as there are non-overlapping hits |
| Scanner.EveryOccurrence | scripts/check_committed_identifiers.py:196-208 | no occurrence is missed: each is a hit or overlaps one |
| ScannerReports.AllReportedIff | scripts/check_committed_identifiers.py:176-208 | every occurrence in a text is reported exactly when no two overlap |
| ScannerReports.AlwaysReportedIff | scripts/check_committed_identifiers.py:176-208 | that is so in every text exactly when no proper beginning of the word is also its end |
| ScannerReports.OverlapMissed | scripts/check_committed_identifiers.py:176-208 | a text with two occurrences of which one is reported |
| ScannerReports.EveryStart | scripts/check_committed_identifiers.py:210-217 | no spelling of a phrase is missed: each starts where one that is found starts, or inside it |
| ScannerReports.AllFoundIff | scripts/check_committed_identifiers.py:210-217 | every spelling of a phrase in a text is found exactly when none starts inside another |
| ScannerReports.PhraseMissed | scripts/check_committed_identifiers.py:210-217 | a text with two spellings of which one is found |
| ScannerReports.PhraseLineIff | scripts/check_committed_identifiers.py:210-225 | a phrase is reported on the line it starts on, and that line shown, exactly when every line boundary before it is a line feed |
| ScannerReports.FormFeedMisplaces | scripts/check_committed_identifiers.py:210-225 | after a form feed the line before is named and shown |
| Scanner.HitsApart | scripts/check_committed_identifiers.py:208 | hits do not overlap |
| Scanner.LineByLine | scripts/check_committed_identifiers.py:192-195 | searching line by line finds a word exactly when it occurs anywhere |
| Scanner.LowerLines | scripts/check_committed_identifiers.py:192-195 | lower-casing moves no line boundary |
| Scanner.MatchIff | scripts/check_committed_identifiers.py:161-169 | the backtracking matcher succeeds exactly when the words stand in order with separators between them |
| Scanner.FoundIff | scripts/check_committed_identifiers.py:210-217 | the phrase search finds something exactly when the phrase is present |
| Scanner.EverySpelling | scripts/check_committed_identifiers.py:161-169 | every spelling is matched, whatever non-empty separators it uses |
| Scanner.FilteredTwice | scripts/check_committed_identifiers.py:114-125 | filtering a filtered set changes nothing |
| Scanner.FilteredIs | scripts/check_committed_identifiers.py:186-190 | a filtered identifier is its words joined by single spaces, and a phrase exactly when it has several |
| ScannerReports.KeptIff | scripts/check_committed_identifiers.py:114-125 | an identifier is looked for exactly when it is an entry, spaced singly and in small letters, of four characters or more |
| ScannerReports.CaseAside | scripts/check_committed_identifiers.py:172-208 | two texts are the same to the scan exactly when they differ in the case of letters only |
| ScannerReports.SeparatorsAre | scripts/check_committed_identifiers.py:62 | what may stand between the words of a phrase |
| Scanner.ScanText | scripts/check_committed_identifiers.py:172-225 | an identifier is reported exactly when it is present in the lower-cased text, and exactly as often as it has hits in the lines or matches in the text; a word on a line it occurs on, a phrase on the line that counting line feeds gives |

## Left out

- Sockets, signals, peer credentials, process hardening, process trees: operating-system calls; only byte streams and steps are kept.
- hvac, kubectl, git and the suite resolver: replaced by environments that choose outcomes. Reading probes of the onboarding give the same sight throughout a run.
- Child tokens: `num_uses` is not counted; a call may revoke a token as a side effect, which covers a last use being spent. The broker and Vault share one clock, Vault never grants more than was asked for, and a duration it reports is the one it granted.
- Child tokens under concurrent issue and revoke: the operations are modelled one at a time.
- JSON and TOML text: documents are trees, and reading back what was written is assumed of the library.
- Random checkout ids: each issued id is new in the step relation; the service model takes any id.
- State file: a missing, corrupt or partly malformed file, and the permissions and syncs of the write; replacing it is one atomic step that happens or does not.
- `validate_request`: requests are taken as validated; refusals of malformed ones are branch-by-branch checks.
- The response size limit: an answer too large to frame becomes an internal error, which is not modelled.
- ServiceSpec.Status: holds the counts and the capability rows; process id, uptime and paths are left out.
- Planning-time validation of a capability for onboarding, `policy_hcl` and the admin client: per-field checks.
- A failure halfway through a plane-file write: the write is all or nothing, and a backup that existed before is replaced. A plane path is taken to differ from every other's backup path.
- OnboardRollback.FailedRunRestores: that an untold SecretID of the run is still there is stated for a Vault that makes no SecretID whose text a plane file already held (`FreshTexts`).
- OnboardReplaced.SurvivesIff: likewise asks for a Vault that makes no SecretID whose text a plane file already held.
- OnboardAgreement.CleanAfterApplyIff: asks for a Vault that can be read; what cannot be read is `Unknown` in the check. A SecretID of several lines is left to what the written file parses to.
- Line ends: the plane file is read as text already decoded, with no newline translation.
- Exec: an exception before the start record, which leaves nothing at all; one inside a statement counts as before or after it; a provenance line is written whole or not; the wiping of strings after use, which the code itself calls best effort; the parsing of `trusted_argv` and of a suite's references, and the search for a browser, are outcomes chosen by the environment.
- The launcher's parser raises an `AttributeError` where a receipt or its checkout is not an object; the model keeps the case apart (`NotAnObject`) without modelling exception classes.
- BatchOutput.ParseDecimal: plain decimal digits only, as git prints them; signs, underscores and spaces that `int` accepts are left out.
- History: an unborn HEAD, shallow or grafted histories, object verification, and the decoding of a blob to text and its judgement, which is a parameter; blobs are asked for in any order. What git lists and checks is ASCII, as hexadecimal ids and fixed words are.
- Scanner: case folding is of ASCII letters only; file discovery, encodings and the denylist's quoting are left out.
- Scanner.ScanText: does not fix the order of the reports, since the identifiers are a set.
- `acb exec` after parsing: manifest loading and the call into the providers.
- Harness adapters, shims, publication plumbing, assurance tables and the doctor: file plumbing or finite tables.
