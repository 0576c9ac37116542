# Verification of the WireMirage host

WireMirage serves programmable mock HTTP endpoints. Its host keeps everything in one keyed store
that several replicas may share, and most of its hard logic keeps several keys, caches or replicas
in agreement. This project models that logic in Dafny and proves what it is for.

| file | what it models |
|---|---|
| `RouteTable.dfy`, `RouteRefresh.dfy`, `RouteBus.dfy`, `RouteConvergence.dfy`, `Sessions.dfy` | the per-replica route cache and how local refreshes keep it level; the invalidation bus as steps over storage, replicas and pub/sub queues; when exactly a cache equals storage; the subscriber loops |
| `KeyStore.dfy`, `StoreLaws.dfy`, `Streaming.dfy`, `DryRun.dfy`, `DryRunEffects.dfy` | the in-memory store with its bucket operations and their laws, the streaming sink, a handler run with both on a copy of its state, and what any handler meets and can touch |
| `AccountClaim.dfy`, `ClaimUniqueness.dfy`, `ClaimAdoption.dfy`, `ClaimConvergence.dfy`, `ClaimRuns.dfy`, `ClaimAlone.dfy` | bootstraps, adopting or not, and creations, interleaved at single store operations; what holds of every interleaving, and the runs that show the conditions exact |
| `Text.dfy`, `Tokens.dfy`, `Accounts.dfy`, `AccountSpelling.dfy`, `AccountEffects.dfy`, `AccountOrigins.dfy`, `AccountResidues.dfy`, `Auth.dfy` | users behind a self-healing e-mail index and tokens behind three indexes; the service class is proved against the specification functions |
| `OAuthStore.dfy`, `OAuthLineage.dfy`, `OAuthOutcomes.dfy`, `OAuthService.dfy` | the authorization-code and refresh-token endpoints (RFC 6749 sections 4.1.2 and 6, RFC 7636 section 4.6, RFC 7009 section 2), whole runs of them, and the grant listing |
| `Throttle.dfy` | the login throttle over an expiring and a non-expiring store |
| `Fanout.dfy`, `Demand.dfy` | journal events between replicas, and the wakeup handshake of the fan-out task |
| `JournalLog.dfy` | numbered logs with gaps, cursor walks and the windowed count |
| `SweepLease.dfy`, `SweepPass.dfy` | the sweep lease and one sweep pass |
| `Glob.dfy`, `Duration.dfy` | the glob matcher and durations |

Where the source changes state a class has the source's fields and its methods are proved against
functions on values; the theorems are about those functions. Protocols are state machines whose
steps are the points at which replicas can interleave. Clocks, generated ids and secrets are
parameters; a secret is identified with its hash, and generated values are new.

Nine properties fail of the code. For each there is an input or run that shows it, and the condition
under which the promise holds:

* A replica's cache converges to storage. A reload on the read-through path reads storage outside
  the table lock and can undo an invalidation (`RouteBus.ReadThroughCanUndoInvalidation`); a compile
  between eviction and re-read can keep a stale artifact (`RouteBus.DeliveryCanKeepStaleArtifact`);
  a publish can fail. The promise holds at a point of a run if and only if none of these has left
  something behind that no later read has healed (`RouteConvergence.StaleExactly`), and in every run
  without them (`RouteConvergence.CleanRunsConverge`).
* Concurrent bootstraps and creations leave at most one account for an e-mail. A bootstrap sets its
  e-mail on a legacy record without the atomic claim, so a restart beside a first sign-up can leave two
  listed users with one e-mail (`ClaimRuns.RestartDoubles`). The promise holds in every interleaving
  if and only if the e-mail is not contested (`ClaimRuns.UniqueIffUncontested`). For that there must
  be a legacy record to adopt, a bootstrap of the e-mail while it has no account, and another call
  for it: an explicit creation, or a second bootstrap if a third one has another e-mail.
* A finished call has left its e-mail an account. Two bootstraps with different e-mails can both find
  the legacy record, and the second takes it from the first, as any bootstrap takes it from a call for
  its old handle (`ClaimRuns.OverwrittenLoses`). The promise holds if and only if the calls include no
  such pair (`ClaimRuns.AccountIffNotOverwritten`).
* A stale identity entry is dropped and a new account made (the comment at `auth.rs:355-356`).
  `delete_user` leaves `session_epoch` behind, so this holds if and only if the record had no such
  field (`Accounts.ReloginHealsIffNoEpoch`, `AccountResidues.DeletionSticks`), and otherwise the
  identity is stuck (`Accounts.StuckForever`). Every record a deployment writes has the field, so
  from a fresh deployment every deletion sticks (`AccountResidues.EveryDeletionSticks`); signing in,
  being deleted and signing in again is enough (`AccountResidues.SignUpDeleteSticks`).
* A lookup by e-mail heals. It fails instead if and only if the index leads to such a residue
  (`Accounts.FindRefinesScan`). A store with a legacy record gets there
  (`AccountOrigins.LegacyLookupFails`); no run of a fresh deployment does
  (`AccountOrigins.FreshLookupsNeverFail`).
* One secret belongs to one token. A bootstrap's secret is configured, and keeping it while changing
  the e-mail breaks this (`AccountOrigins.SecretCanBeReused`, `AccountOrigins.ReusedSecretLocksOut`);
  it holds if and only if the secret was not in use (`Accounts.BootstrapKeeps`,
  `Tokens.WritingAgreesIffSecretFresh`).
* Sweep passes do not overlap. The lease is released without a fence, as the source says
  (`SweepLease.OverrunBreaksLease`, `SweepLease.ReleaseDeletesSiblings`); the first overlap becomes
  possible exactly when a pass outlives its lease (`SweepLease.OverlapIffOverrun`).
* A sweep is a no-op on what is already gone. A dispatch that arrives after a group's hash expired
  re-creates the hash with one field (`SweepPass.LateHitBlocks`), and every later pass then fails on
  it (`SweepPass.BlockedFailsEveryPass`) until it is deleted (`SweepPass.ClearingHashUnblocks`). A
  pass succeeds if and only if no gone group has a hash (`SweepPass.Sweeper.SinglePass`).
* A windowed count that is not saturated counts the window. The number is taken before the time, so
  two replicas can order them differently, and the count then stops early
  (`JournalLog.RacingRecordsUndercount`); when it is exact is `JournalLog.WindowedCountIsExactIff`.

Two details differ from what one may expect; the model follows the code. `spec.rs:264-267` calls what
is printed the most compact duration; it is the largest unit that divides the time
(`Duration.FormatPicks`), which is not always the shortest text (`Duration.BareIsShorter`,
`Duration.TwoUnitsAreShorter`). And in memory a list range that starts past the last item answers that
item (`StoreLaws.RangeMeans`), where the LRANGE command of the other backend answers nothing.

The theorems come first in the table. The rows after them that begin with "refinement link" tie a
class method, branch by branch, to the function on values that specifies it. They carry the theorems
about that function over to the code's form and claim nothing beyond it.

## Model

| member | source | states |
|---|---|---|
| RouteTables.ReloadReplacesOneGroup | crates/wm-host/src/route_table.rs:283-317 | swapping a freshly read group in replaces exactly that group's records and no other group's |
| RouteTables.RefreshOtherGroup | crates/wm-host/src/route_table.rs:519-645 | a local refresh after an API change leaves every other group's cached records as they were |
| RouteTables.PutFirstAt | crates/wm-host/src/route_table.rs:548-575 | the update scan overwrites the first slot holding the id, or appends |
| RouteRefresh.RefreshFollowsCommit | crates/wm-host/src/route_table.rs:519-645 | if the cached group was what storage held before a commit, then after each kind of local refresh it is what storage holds |
| RouteRefresh.RefreshDropsTouched | crates/wm-host/src/route_table.rs:530-621 | after the refresh no artifact of a changed or removed route stays, and every other artifact stays as it was |
| RouteRefresh.NoticeNamesTouched | crates/wm-host/src/route_table.rs:530-621 | the announcement names every route the change removes or changes, and no other, if the announcing table was level with storage |
| RouteRefresh.RefreshStaysLevel | crates/wm-host/src/route_table.rs:519-645 | a table that holds exactly storage, each record once, with artifacts of stored records only, does so again after a commit and its refresh |
| RouteRefresh.SiblingStaysLevel | crates/wm-host/src/route_table.rs:350-381 | so does a sibling's after it has applied the announcement and re-read the group |
| RouteRefresh.LoneReplicaStaysLevel | crates/wm-host/src/bus.rs:83-86 | on a store without a bus, over every run of changes and requests, the table always holds exactly storage and serves each route from its stored record |
| RouteTables.RouteTable.ReloadGroup | crates/wm-host/src/route_table.rs:283-317 | a failed read keeps the cached group; a working one makes the group exactly what was read and keeps the other groups and all artifacts |
| RouteTables.RouteTable.ReloadAll | crates/wm-host/src/route_table.rs:319-348 | a full reload replaces all records and drops every artifact, or on a failed read changes nothing |
| RouteTables.RouteTable.ApplyInvalidation | crates/wm-host/src/route_table.rs:350-381 | the named artifacts go even if the re-read fails; the group's records become what was read |
| RouteTables.RouteTable.ComponentFor | crates/wm-host/src/route_table.rs:472-498 | serves the cached artifact if there is one and otherwise compiles and caches the record's own |
| RouteBus.StepKeepsInv | crates/wm-host/src/bus.rs:83-235 | every step of the protocol keeps: what is stale is in flight, queued, being applied, lost to a failed publish, or overwritten by a request thread |
| RouteConvergence.StepKeepsExact | crates/wm-host/src/bus.rs:83-235 | every step keeps: on a connected replica what a failed publish or a superseded write left behind is stale, unless news of it is on its way; a later read of the group or a store of the artifact clears it |
| RouteConvergence.StaleExactly | crates/wm-host/src/bus.rs:83-235 | at every point of every run, a connected replica with no news of a group on its way holds exactly the stored group if and only if nothing left it behind; likewise for a stored route's artifact |
| RouteConvergence.QuiescentEqualsStorageIff | crates/wm-host/src/bus.rs:174-235 | at quiescence a connected cache equals storage, and serves every stored route from its stored record, if and only if nothing is left behind |
| RouteConvergence.CleanRunsConverge | crates/wm-host/src/route_table.rs:262-317 | in every run in which no publish fails and request threads write only what storage then holds, every connected cache equals storage at quiescence, artifacts included |
| RouteBus.StaleOnlyForCause | crates/wm-host/src/bus.rs:83-235 | in every run a replica past its post-subscribe reload is stale for a group, or serves a stale artifact, only for one of those causes |
| RouteBus.QuiescentCachesEqualStorage | crates/wm-host/src/bus.rs:174-235 | at quiescence every connected replica that nothing has left behind holds exactly storage, each record once, with artifacts compiled from the stored records |
| RouteBus.ReadThroughCanUndoInvalidation | crates/wm-host/src/route_table.rs:262-317 | a run with no failed publish in which a read-through reload that read before a delete brings the deleted route back, where it stays until the group is read again |
| RouteBus.DeliveryCanKeepStaleArtifact | crates/wm-host/src/route_table.rs:350-381 | a run with no failed publish in which a compile between eviction and re-read leaves the new record served by the old artifact |
| Sessions.RunRouteSession | crates/wm-host/src/bus.rs:174-235 | one session: resync, then each decodable message in order; a bad message is skipped |
| Sessions.SessionKeepsLatestRead | crates/wm-host/src/bus.rs:205-235 | after a session each group is what its last working read gave, or the resync's if none, whatever came in between |
| Sessions.SessionEvictsNamed | crates/wm-host/src/route_table.rs:350-381 | whatever else came in the session, the artifacts a message names are gone after it |
| Sessions.JournalBus.RunJournalSession | crates/wm-host/src/bus.rs:362-397 | the local broadcast gains exactly the other origins' events, in order |
| Sessions.PumpIsHandling | crates/wm-host/src/bus.rs:362-397 | handling a queue event by event in the fan-out model gives what the pump loop gives |
| KeyStore.CopiedLookup | crates/wm-host/src/store/memory.rs:41-65 | after a prefix copy each destination key holds what its source key held, and every other key what it held |
| KeyStore.Storage.CopyKeysWithPrefix | crates/wm-host/src/store/memory.rs:41-65 | the copy loop makes the whole copy and returns the number of keys under the source prefix |
| KeyStore.Storage.DeleteWithPrefix | crates/wm-host/src/store/mod.rs:513-520 | exactly the keys under the prefix go, and their number is returned |
| StoreLaws.IntTextReads | crates/wm-host/src/store/memory.rs:83-107 | what is written of a 64-bit number reads back as that number |
| StoreLaws.ParseReads | crates/wm-host/src/store/memory.rs:83-107 | a text reads as n exactly if it is an optional sign and digits whose signed value is n, in range |
| StoreLaws.IncrAdds | crates/wm-host/src/store/memory.rs:83-107 | one increment answers and stores the sum if it fits, and otherwise faults and changes nothing |
| StoreLaws.IncrementsAddUp | crates/wm-host/src/store/memory.rs:83-107 | any run of increments whose running sums fit answers the running sums |
| StoreLaws.IncrRefuses | crates/wm-host/src/store/memory.rs:83-107 | exactly a text that does not read as a number is refused |
| StoreLaws.FailuresMean | crates/wm-host/src/store/memory.rs:57-65 | an operation answers a type fault exactly on a value of another kind, naming the key and both kinds; only an increment can fail otherwise; whatever fails changes nothing |
| StoreLaws.OthersUntouched | crates/wm-host/src/store/memory.rs:67-329 | no operation changes what any other key holds |
| StoreLaws.ReadsLeaveAll | crates/wm-host/src/store/memory.rs:67-329 | a reading operation changes nothing |
| StoreLaws.PutGet | crates/wm-host/src/store/memory.rs:67-81 | a get after a put answers what was put, and a delete leaves nothing |
| StoreLaws.MissingReads | crates/wm-host/src/store/memory.rs:67-329 | what each reading operation answers on a missing key |
| StoreLaws.HashPutGet | crates/wm-host/src/store/memory.rs:193-222 | after a hash put that field reads as put and every other as before |
| StoreLaws.HashDeleteGet | crates/wm-host/src/store/memory.rs:224-233 | after a hash delete that field is missing and every other as before |
| StoreLaws.HashKeysFind | crates/wm-host/src/store/memory.rs:235-243 | the keys of a hash are exactly the fields that can be got |
| StoreLaws.SetAddContains | crates/wm-host/src/store/memory.rs:294-310 | after an add the member is in, and every other as before |
| StoreLaws.SetRemoveContains | crates/wm-host/src/store/memory.rs:312-321 | after a removal the member is out, and every other as before |
| StoreLaws.ListKeysMeans | crates/wm-host/src/store/memory.rs:109-120 | a listing has exactly the names under the prefix whose full keys are stored |
| StoreLaws.QueuesAreFifo | crates/wm-host/src/store/memory.rs:122-146 | over every run of pushes and pops from a missing key, what the pops gave and then what waits is what was pushed, in order |
| StoreLaws.QueueReports | crates/wm-host/src/store/memory.rs:140-191 | length and whole range report what waits; a pop is empty exactly if nothing does |
| StoreLaws.RangeMeans | crates/wm-host/src/store/memory.rs:148-181 | a range has the items whose positions it covers, in order, with the ends of the list in place of positions outside it |
| DryRuns.ListingsAgree | crates/wm-host/src/store/memory.rs:109-120 | a key listing through the shifted prefix gives the same user-facing names |
| DryRuns.ExecMirrors | crates/wm-host/src/dry_run.rs:180-232 | one bucket operation answers alike on the real and on the mirrored store, keeps them mirrored, and touches nothing outside the throw-away root |
| DryRuns.InteractSimulates | crates/wm-host/src/dry_run.rs:350-403 | any relation kept by single operations is kept by whole adaptive handler runs, stream calls included, with equal answers and ending |
| DryRuns.InteractMirrors | crates/wm-host/src/dry_run.rs:350-403 | an adaptive handler sees the same answers and ends the same way on the mirrored store, which stays mirrored, and nothing else changes |
| DryRuns.SeedingMirrors | crates/wm-host/src/dry_run.rs:228-262 | applying overrides to the copy mirrors applying them to the real state, also when one fails to decode half way |
| DryRuns.SnapshotMirrors | crates/wm-host/src/dry_run.rs:180-210 | copying both namespaces under a fresh root sets the mirror up |
| DryRuns.PurgeRestores | crates/wm-host/src/dry_run.rs:469-472 | whatever happened under the root, deleting the root restores the store |
| DryRuns.RunInSnapshot | crates/wm-host/src/dry_run.rs:172-345 | snapshot, seed and run: the answers and what is delivered are those of the real state with the overrides applied; a decode failure runs nothing |
| DryRuns.DryRun | crates/wm-host/src/dry_run.rs:105-165 | on every exit path the store is what it was; the answers are those of the real state; a run that returned gives its streamed head and accepted writes if it streamed and its value if not, without an error; any other gives status 500 and its message, also if it had streamed |
| DryRunEffects.ReadsSeeSeeds | crates/wm-host/src/dry_run.rs:180-262 | a handler that first reads a key of its route or group is answered the last seed for that key of that bucket, or else what the real store holds under the bucket's name for it |
| DryRunEffects.RunsEndAs | crates/wm-host/src/dry_run.rs:350-403 | a run returns a response exactly as the handler's last act with no operation failed; otherwise it panicked, its first failed operation trapped it with that fault's text, or the budget ran out |
| DryRunEffects.NextReplyIs | crates/wm-host/src/dry_run.rs:350-403 | from any state, the next reply is the asked bucket's answer to the asked operation |
| DryRunEffects.BucketsAreApart | crates/wm-host/src/store/mod.rs:100-128 | no key is in the buckets of two routes, of two groups, or of a route and a group |
| DryRunEffects.HandlersStayApart | crates/wm-host/src/store/mod.rs:100-128 | no handler, whatever it does, changes what another route or another group has stored |
| AccountClaim.NobodyBreaks | crates/wm-host/src/auth.rs:153-198 | in every interleaving of any bootstraps and creations, adoptions of the legacy record included, no call meets a half-built record, a bootstrap that does not create answers false and never an error, and what a call reports creating is listed under its e-mail |
| ClaimAdoption.AdoptersAreLive | crates/wm-host/src/auth.rs:153-183 | in every interleaving only a bootstrap whose e-mail had no account at the start gets to adopt the legacy record |
| ClaimAdoption.AtMostOneAccount | crates/wm-host/src/auth.rs:497-551 | in every interleaving of any calls, at most one record is reachable by index or listing for an e-mail that is not contested |
| ClaimRuns.ContestedDoubles | crates/wm-host/src/auth.rs:159-183 | whenever an e-mail is contested some interleaving leaves two listed users with it |
| ClaimRuns.UniqueIffUncontested | crates/wm-host/src/auth.rs:153-198 | an e-mail keeps at most one account in every interleaving if and only if it is not contested: there is no record to adopt, or no bootstrap of the e-mail that could adopt it, or no second call for the e-mail that could create (a creation, or a bootstrap beside a bootstrap of yet another e-mail) |
| ClaimRuns.RestartDoubles | crates/wm-host/src/auth.rs:159-183 | a concrete store and two calls: a restart that adopts beside a first sign-up, for any e-mail |
| ClaimConvergence.FinishedHasAccount | crates/wm-host/src/auth.rs:153-198 | a finished call, whatever it answered, has left its e-mail an account, unless a bootstrap of another e-mail can take it |
| ClaimRuns.AccountIffNotOverwritten | crates/wm-host/src/auth.rs:163-181 | and that is exact: finished calls always leave an account if and only if no bootstrap of another e-mail can take the record they found |
| ClaimConvergence.OneWinner | crates/wm-host/src/auth.rs:184-198 | a call that reports creating an uncontested account is the only one that does, and its record is the only one reachable |
| ClaimConvergence.BootstrapsAdoptOne | crates/wm-host/src/auth.rs:159-183 | when only bootstraps of one e-mail find the legacy record, every one that finishes answers false and that record is the only account |
| ClaimConvergence.ColdStartsConverge | crates/wm-host/src/auth.rs:497-551 | when all calls for a free e-mail have finished and it is neither contested nor overwritten, it has exactly one account, made by one call's creation or adoption |
| ClaimAlone.CreatesAlone | crates/wm-host/src/auth.rs:497-551 | run alone, the store operations of a creation come to the service's own creation: same store and same answer, in whatever order the scan goes |
| ClaimAlone.BootstrapsAlone | crates/wm-host/src/auth.rs:153-198 | run alone, the store operations of a bootstrap, adopting or not, come to the service's own bootstrap, the token apart |
| ClaimAlone.EndsAlone | crates/wm-host/src/auth.rs:153-198 | and from any store a call run alone comes to an end |
| Accounts.NormalizeIsStable | crates/wm-host/src/auth.rs:874-876 | normalising an e-mail twice is normalising it once; what it identifies is `AccountSpelling.NormalizeMeans` |
| AccountSpelling.NormalizeMeans | crates/wm-host/src/auth.rs:874-876 | two spellings normalise to one e-mail exactly if, trimmed, they are equal up to ASCII case |
| AccountSpelling.TrimMeans | crates/wm-host/src/auth.rs:874-876 | trimming gives the one text without blank ends that the input frames with blanks |
| AccountSpelling.NormalIsPlain | crates/wm-host/src/auth.rs:874-876 | the normal form is itself such a spelling, without capitals or blank ends |
| AccountSpelling.AnySpellingMeets | crates/wm-host/src/auth.rs:153-422 | under every spelling of a user's e-mail a lookup, local login and first provider login meet that user, a creation is refused as taken, and a bootstrap answers false |
| AccountSpelling.CreatedOnce | crates/wm-host/src/auth.rs:211-214 | after a successful creation the next one under any spelling of the e-mail is refused as taken, and changes nothing |
| AccountSpelling.CreatesIffFree | crates/wm-host/src/auth.rs:497-551 | a creation succeeds exactly if no listed user has the e-mail and its lookup does not fail |
| Tokens.WritingAgreesIffSecretFresh | crates/wm-host/src/auth.rs:580-625 | writing a token keeps the three indexes in agreement with the records exactly when its secret is not in use |
| Tokens.DeletingAgrees | crates/wm-host/src/auth.rs:748-768 | deleting a token keeps the agreement and touches no other record |
| Tokens.DeletingIsCascading | crates/wm-host/src/auth.rs:748-768 | in agreement the index edits of a deletion remove exactly that token's entries |
| Tokens.CascadesCompose | crates/wm-host/src/auth.rs:471-476 | deleting tokens one after the other is deleting them all |
| Tokens.RevokingAgrees | crates/wm-host/src/auth.rs:726-738 | revoking keeps the agreement and reports exactly whether the name was there |
| Tokens.RenamingMeans | crates/wm-host/src/auth.rs:664-710 | which of not-found, name-taken and success a rename gives, and what success leaves |
| Tokens.RenamingAgrees | crates/wm-host/src/auth.rs:664-710 | renaming keeps the agreement |
| Tokens.TouchingAgrees | crates/wm-host/src/auth.rs:807-813 | the last-used stamp keeps the agreement |
| Tokens.RenamePrefixesAreSafe | crates/wm-host/src/auth.rs:690-710 | after each of rename's writes no name entry dangles and every secret authenticates as before |
| Tokens.DeletingEndsOneCredential | crates/wm-host/src/auth.rs:748-768 | deletion ends exactly that token's authentication |
| Tokens.WritingAddsOneCredential | crates/wm-host/src/auth.rs:580-625 | a new token authenticates until it expires and no other secret is affected |
| Tokens.ResolveIsExact | crates/wm-host/src/auth.rs:789-805 | a secret resolves exactly to the live unexpired token holding it, and never to an error |
| Accounts.FindRefinesScan | crates/wm-host/src/auth.rs:390-422 | the self-healing lookup gives what a scan gives whenever it does not fail, fails exactly when the index leads to a half-deleted record, and keeps the store consistent |
| Accounts.WriteNewUserKeeps | crates/wm-host/src/auth.rs:497-551 | a user is written exactly when the lookup found none; the store stays consistent and nothing is lost |
| Accounts.UpsertLocalKeeps | crates/wm-host/src/auth.rs:256-283 | a local login keeps the store consistent, loses no user and moves no stored e-mail |
| Accounts.UpsertOauthKeeps | crates/wm-host/src/auth.rs:299-381 | a provider login, linking, backfilling or healing, keeps the store consistent, loses no user and moves no stored e-mail |
| Accounts.BootstrapKeeps | crates/wm-host/src/auth.rs:153-198 | a bootstrap loses no user and moves no e-mail; it keeps the tokens in agreement if and only if it does not mint an admin for a configured secret that a token already has |
| Accounts.DeleteUserKeeps | crates/wm-host/src/auth.rs:460-487 | what deletion answers; it unlists exactly that user, leaves only the epoch field of the record, and cascades to consistent tokens |
| Accounts.EmptyIsConsistent | crates/wm-host/src/auth.rs:201-208 | a fresh deployment, with no users and no tokens, is consistent, so every run from it is |
| Accounts.OpKeepsInv | crates/wm-host/src/auth.rs:153-822 | every operation keeps accounts, indexes and tokens consistent and moves no stored e-mail except by deletion |
| Accounts.RunsStayConsistent | crates/wm-host/src/auth.rs:153-822 | over any mix of operations the store stays consistent and a stored e-mail never changes before its user is deleted |
| Accounts.ReachableLookupsAreExact | crates/wm-host/src/auth.rs:390-422 | in any store reachable from a consistent one, legacy records included, no two listed users share an e-mail, a lookup that does not fail equals the scan, and a secret logs in exactly the owner of the live token holding it |
| AccountEffects.LoginShowsStored | crates/wm-host/src/auth.rs:789-822 | in every reachable store a login that succeeds shows the e-mail and role stored for the owner of its token |
| AccountEffects.RoleAndEpochFollow | crates/wm-host/src/auth.rs:153-487 | what each operation does to every user's role and session epoch: who gets which role, whose epoch goes up by one, and that nobody else's moves |
| AccountEffects.RolesFollowRuns | crates/wm-host/src/auth.rs:153-487 | over every run a user's role is the one the last operation that gave one gave |
| AccountEffects.LoginShowsLastRole | crates/wm-host/src/auth.rs:815-821 | what the last role write gave is what the next login shows |
| AccountEffects.LoginStamps | crates/wm-host/src/auth.rs:807-813 | a login that succeeds stamps its token and changes nothing else; one that fails changes nothing |
| AccountEffects.NewTokenLogsIn | crates/wm-host/src/auth.rs:557-625 | when a token is created, with which record, and that it logs its owner in until its time to live is over, or for good without one |
| AccountEffects.LocalLoginDoes | crates/wm-host/src/auth.rs:256-283 | whom a local login signs in or makes, with which role, which identity entry it leaves, and that no other record changes |
| AccountEffects.LinkDoes | crates/wm-host/src/auth.rs:358-381 | the same for a first-seen provider identity: linked to the holder of its e-mail, or to a new user |
| AccountEffects.ReturningDoes | crates/wm-host/src/auth.rs:318-352 | a known identity signs its user in whatever e-mail it brings; what is synced, re-indexed or filled in |
| AccountEffects.OauthLoginDoes | crates/wm-host/src/auth.rs:299-381 | after a provider login its identity leads to the user it signed in, and every other identity leads where it led |
| AccountEffects.BootstrapDoes | crates/wm-host/src/auth.rs:153-198 | a bootstrap answers true exactly if the e-mail is free and there is nothing to adopt; then exactly its admin and token are new |
| AccountEffects.BootstrapAdopts | crates/wm-host/src/auth.rs:155-183 | otherwise it leaves an e-mail somebody has alone, or gives it to the legacy record, which loses its old name's entry |
| AccountEffects.RoleAndEpochDo | crates/wm-host/src/auth.rs:426-455 | setting a role and signing out everywhere are refused for nobody and change exactly that field |
| AccountEffects.LookupIndexes | crates/wm-host/src/auth.rs:390-422 | exactly what a lookup that does not fail leaves in the index: the holder's entry if the e-mail has an at sign or the entry was right, no entry otherwise |
| AccountEffects.DeletionFrees | crates/wm-host/src/auth.rs:460-487 | a deleted user's e-mail is free again and its old name leads nowhere, so no bootstrap adopts it; only its own index entries go |
| AccountOrigins.RunsStayModern | crates/wm-host/src/auth.rs:153-822 | over any mix of operations from a store whose users store their e-mails, every index entry leads to a user that stores it |
| AccountOrigins.ModernLookupsNeverFail | crates/wm-host/src/auth.rs:390-422 | so in every run from such a store every lookup by e-mail succeeds and equals the scan |
| AccountOrigins.FreshLookupsNeverFail | crates/wm-host/src/auth.rs:390-422 | in particular in every run of a fresh deployment, after whatever deletions |
| AccountOrigins.LegacyLookupFails | crates/wm-host/src/auth.rs:460-487 | for any plain old handle and e-mail, a run from a legacy store (lookup, provider login, epoch bump, deletion) after which the handle's lookup fails though the scan finds nobody |
| AccountOrigins.ReusedSecretLocksOut | crates/wm-host/src/auth.rs:184-198 | whenever a bootstrap mints an admin for a secret a token already has, both tokens are live with one hash, the secret logs the new admin in, and revoking the old token ends that login with the new token still on record |
| AccountOrigins.SecretCanBeReused | crates/wm-host/src/main.rs:327-356 | two configured starts of a fresh deployment get there, with the same secret and another e-mail |
| Accounts.RenameChangesNoLogin | crates/wm-host/src/auth.rs:664-710 | a rename changes the outcome of no login |
| Accounts.RevokeEndsOneToken | crates/wm-host/src/auth.rs:726-738 | a revocation ends the logins of the named token and of no other |
| Accounts.DeleteEndsOwnLogins | crates/wm-host/src/auth.rs:460-487 | deleting a user ends the logins of exactly that user's tokens |
| Accounts.ReloginHealsIffNoEpoch | crates/wm-host/src/auth.rs:353-357 | a login by an identity whose user was deleted reaches the drop-and-create path if and only if the record carried no session epoch; otherwise it is refused as malformed |
| Accounts.StuckForever | crates/wm-host/src/auth.rs:318-357 | once refused for that reason, every later login by that identity is refused, whatever else happens |
| AccountResidues.DeletionSticks | crates/wm-host/src/auth.rs:482-485 | deleting a user sticks each provider identity linked to it if and only if the record carries an epoch |
| AccountResidues.RunsStayStamped | crates/wm-host/src/auth.rs:153-822 | over any mix of operations every stored record keeps an epoch and every identity leads to a stored record |
| AccountResidues.SelfHealNeverRuns | crates/wm-host/src/auth.rs:353-357 | in no run of a fresh deployment does an identity lead to an absent record, so the drop-and-create path is never taken |
| AccountResidues.EveryDeletionSticks | crates/wm-host/src/auth.rs:318-357 | in every run of a fresh deployment, after every deletion of a user every later login by each provider identity linked to it is refused, whatever happens in between |
| AccountResidues.SignUpDeleteSticks | crates/wm-host/src/auth.rs:460-487 | the shortest such run, for any provider, subject and e-mail: sign in, be deleted, be refused |
| OAuthLineage.Lineage | crates/wm-host/src/mcp_oauth.rs:1124-1561 | in every run a code or refresh token mints at most one pair, a code has at most one live refresh token below it, every token record carries its consent's user, client and scope, every pair from a code needed the matching verifier, every consent answers its own request |
| OAuthLineage.StepKeepsInv | crates/wm-host/src/mcp_oauth.rs:185-315 | every endpoint call, expiry and revocation keeps the lineage invariant |
| OAuthLineage.CodesAreApprovals | crates/wm-host/src/mcp_oauth.rs:1124-1195 | in every run the codes given out are exactly those of approvals, each of its own request by its own user; no denial and no other answer gives one |
| OAuthOutcomes.AnswerGives | crates/wm-host/src/mcp_oauth.rs:1124-1195 | an answer gives a code exactly if it approves a waiting request; the code is then unspent and carries the request, the user and the time, and no other code changes |
| OAuthOutcomes.AuthorizeTakes | crates/wm-host/src/mcp_oauth.rs:871-1005 | a request is taken exactly if its client is active and its redirect URI matches |
| OAuthOutcomes.PendingFollows | crates/wm-host/src/mcp_oauth.rs:1124-1150 | a request waits until it is answered, whatever the answer, or expires |
| OAuthOutcomes.CodesFollow | crates/wm-host/src/mcp_oauth.rs:252-266 | a code is unspent from its approval until an authenticated client, any client, first tries it, or it expires |
| OAuthOutcomes.ExchangeAnswers | crates/wm-host/src/mcp_oauth.rs:1338-1461 | an exchange succeeds exactly for an unspent code of the authenticated client whose redirect URI and challenge match, with the consent's scope |
| OAuthOutcomes.RotateAnswers | crates/wm-host/src/mcp_oauth.rs:1464-1561 | a rotation succeeds exactly for a live token of the authenticated client, with the scope of the consent it comes from |
| OAuthOutcomes.PairsAreStored | crates/wm-host/src/mcp_oauth.rs:1396-1561 | either then stores a pair for the consent's user, client and scope, from now, the access token for 3600 seconds |
| OAuthOutcomes.RefreshFollows | crates/wm-host/src/mcp_oauth.rs:301-315 | a refresh token is live from its minting exactly until an authenticated client presents it, its own client or its user revokes it, or it expires |
| OAuthOutcomes.AccessFollows | crates/wm-host/src/mcp_oauth.rs:1580-1652 | an access token is stored from its minting exactly until its own client revokes it or it expires |
| OAuthOutcomes.RunKeepsKinds | crates/wm-host/src/mcp_oauth.rs:1396-1561 | in every run no token is both an access and a refresh token |
| OAuthOutcomes.RevokedTokenNeverMints | crates/wm-host/src/mcp_oauth.rs:1580-1652 | in every run, once its client has revoked a refresh token it never mints again, whoever presents it and whatever happens in between |
| OAuthOutcomes.StrangersAreRefused | crates/wm-host/src/mcp_oauth.rs:1243-1335 | a request that is not an active client's with its secret is refused as an invalid client and changes nothing |
| OAuthOutcomes.ClientsAreFollowed | crates/wm-host/src/mcp_oauth.rs:185-205 | over every run a client is active exactly if its last registration or removal left it so |
| OAuthOutcomes.RemovalReports | crates/wm-host/src/mcp_oauth.rs:185-205 | removing reports whether there was an active client to remove, and takes no row from any user's listing |
| OAuthOutcomes.RevokingLeavesNone | crates/wm-host/src/mcp_oauth.rs:538-561 | revoking a user's grants for a client leaves none of their tokens unrevoked, used ones included, and touches no other; doing it again finds nothing |
| OAuthOutcomes.RemovedClientIsRefused | crates/wm-host/src/mcp_oauth.rs:185-205 | once a client is removed, and until it is registered again, it is refused everywhere |
| OAuthOutcomes.RowsAreConsents | crates/wm-host/src/mcp_oauth.rs:484-532 | in every run each row a user is shown is of a live token from a consent of theirs, with its client's name and its scope, from its minting to thirty days after |
| OAuthLineage.DeadStaysDead | crates/wm-host/src/mcp_oauth.rs:252-315 | a refresh token once used, revoked or expired, and a code once tried or expired, never becomes usable again |
| OAuthLineage.ExchangeOutcome | crates/wm-host/src/mcp_oauth.rs:1338-1461 | an authenticated exchange succeeds exactly if the code is unspent and client, redirect URI and verifier match; either way no later request gets anything for that code |
| OAuthLineage.RevokedNeverMintAgain | crates/wm-host/src/mcp_oauth.rs:538-561 | after a revocation of a user's grants for a client, no refresh token of theirs that existed then mints again in any continuation |
| OAuthLineage.RevocationLeavesCodes | crates/wm-host/src/mcp_oauth.rs:534-561 | the revocation does not reach approved codes: an exchange comes out as without it |
| OAuthLineage.IndexIsExact | crates/wm-host/src/mcp_oauth.rs:270-286 | in every run the per-user index holds every refresh record of that user and no other user's |
| OAuthStore.IndexSuffices | crates/wm-host/src/mcp_oauth.rs:484-532 | a row computed from the user's index is the row a scan of all refresh records defines |
| OAuthStore.RevokingRemovesOneRow | crates/wm-host/src/mcp_oauth.rs:538-561 | revoking removes exactly that client's row of that user |
| OAuthStore.ListingsAgree | crates/wm-host/src/mcp_oauth.rs:491-532 | any two listings of a user show the same clients with the same grant times |
| OAuthService.OAuth.ListActiveGrants | crates/wm-host/src/mcp_oauth.rs:491-532 | one row per existing client with an unused, unrevoked token, carrying its latest grant, newest first |
| OAuthService.OAuth.RevokeGrantsForClient | crates/wm-host/src/mcp_oauth.rs:538-561 | marks exactly the user's unrevoked tokens of that client, used ones included, and returns their number |
| OAuthService.SortedRows | crates/wm-host/src/mcp_oauth.rs:529-531 | the collected rows, each once, by descending grant time |
| OAuthService.InsertSorts | crates/wm-host/src/mcp_oauth.rs:529-531 | insertion keeps the descending order and brings in nothing else |
| Throttle.RunIsReference | crates/wm-host/src/login_throttle.rs:69-159 | on either store a run leaves each address in the state of a three-field reference and answers as it does |
| Throttle.BackendsBisimilar | crates/wm-host/src/login_throttle.rs:13-20 | for any clocked sequence of calls the expiring and the non-expiring store give identical answers |
| Throttle.WindowCountsFailures | crates/wm-host/src/login_throttle.rs:96-130 | while a window runs the counter is the number of failures since the failure that opened it, between one and four |
| Throttle.LockedOutMeans | crates/wm-host/src/login_throttle.rs:69-91 | an address is locked out exactly for the minute after a failure that reported tripping the lockout |
| Throttle.FifthFailureLocks | crates/wm-host/src/login_throttle.rs:131-148 | a failure leaves its address locked exactly if it is the fifth of its window or a lockout was running, and changes no other address |
| Throttle.FiveInAMinuteLock | crates/wm-host/src/login_throttle.rs:31-33 | in figures: up to four failures within a minute lock nobody out, and a fifth locks its address out for the sixty seconds after it |
| Throttle.FailureKeepsOthers | crates/wm-host/src/login_throttle.rs:96-148 | a failure leaves the view of every other address alone |
| Throttle.FailureSteps | crates/wm-host/src/login_throttle.rs:96-148 | what one failure does to its address, on either store |
| Fanout.AtMostOnceAndOnceAtOrigin | crates/wm-host/src/journal.rs:535-563 | in every run no event enters a local broadcast twice, none unsent enters one, and the sender's has it exactly once from the send on |
| Fanout.OnceAtSibling | crates/wm-host/src/bus.rs:336-397 | a sibling whose session spans publish and handling has the event exactly once if the origin ids differ, and never if it shares the sender's id |
| Fanout.MissedForGood | crates/wm-host/src/bus.rs:336-397 | what is published while a sibling has no session never reaches it, whatever sessions it opens later |
| Demand.NoLostWakeup | crates/wm-host/src/journal.rs:483-517 | in every interleaving the task is parked only if each attached tail still has its notification to send, which then wakes it |
| Demand.NoSessionUnasked | crates/wm-host/src/journal.rs:475-487 | a replica to which no tail attached never opens a subscription, and a task that finds no tail left goes back to waiting |
| Glob.GlobMatch | crates/wm-host/src/api_filters.rs:32-69 | true exactly if the target is the pattern with each star replaced by some string |
| Glob.MatchParts | crates/wm-host/src/api_filters.rs:42-69 | the greedy cursor loop accepts exactly the texts the parts can be placed in, first at the start, last at the end |
| Glob.LeftmostSuffices | crates/wm-host/src/api_filters.rs:57-62 | taking the leftmost occurrence of a middle part loses no match |
| Glob.SplitAnchors | crates/wm-host/src/api_filters.rs:40-42 | placing the parts between stars is filling the stars |
| Glob.Find | crates/wm-host/src/api_filters.rs:57-62 | the first place a part occurs, if any |
| JournalLog.RunEvolves | crates/wm-host/src/journal.rs:567-610 | in every run of appends and expiries a number never gets a second record, and new records are numbered above all earlier ones |
| JournalLog.LogFollowsChanges | crates/wm-host/src/journal.rs:689-719 | over every run, reading by number gives exactly the record of that append, as it was made, for as long as neither it nor its entry has expired |
| JournalLog.PageFills | crates/wm-host/src/journal.rs:738-775 | a page has records of the visible groups only, as many as asked for, at least one and at most a hundred, or else every such one before its start |
| JournalLog.WalkIsExact | crates/wm-host/src/journal.rs:738-775 | a page is strictly descending, within the limit, of visible stored records only, and skips none above its last |
| JournalLog.WalkTerminates | crates/wm-host/src/api.rs:1678-1695 | following the cursor ends within as many requests as the starting number |
| JournalLog.FollowDescends | crates/wm-host/src/api.rs:1854-1867 | the pages together are strictly descending, so nothing is seen twice |
| JournalLog.FollowIsStored | crates/wm-host/src/api.rs:1678-1695 | everything seen is visible and was stored when its page was read |
| JournalLog.FollowIsComplete | crates/wm-host/src/api.rs:1854-1867 | a visible record stored throughout a finished walk is in it, whatever expires or is appended meanwhile |
| JournalLog.WalkFromTopIsExact | crates/wm-host/src/journal.rs:622-659 | for any gaps, limits, visible groups and concurrent appends, a finished walk is every visible stored record exactly once, newest first |
| JournalLog.WalkDuringAppendsIsExact | crates/wm-host/src/api.rs:1678-1695 | over every run in which records arrive between the requests, a finished walk from the top is every visible record stored at its start, exactly once, newest first |
| JournalLog.WalkDuringChangesIsSound | crates/wm-host/src/api.rs:1678-1695 | over every run with appends and expiry, a finished walk is strictly descending, has everything visible that stayed stored, and nothing that was not stored at its start |
| JournalLog.WindowedCountIsExactIff | crates/wm-host/src/journal.rs:790-835 | a count is exact (unsaturated: the number inside the window; saturated: all but those below the cap, and only at the cap) if and only if none of the records the cap allows is older than the window and numbered above a visible one inside it |
| JournalLog.CountsOverRunsAreExact | crates/wm-host/src/journal.rs:790-835 | over every run in which each record is created no earlier than the one before it, with records expiring in any order, every count is exact |
| JournalLog.RacingRecordsUndercount | crates/wm-host/src/journal.rs:689-719 | a run of two records numbered in one order and timed in the other whose count says zero, unsaturated, with one inside the window |
| JournalLog.ListWithCursor | crates/wm-host/src/api.rs:1678-1695 | the cursor handed back is below where the page started, and none is handed back only if nothing visible is left |
| SweepLease.PassesDoNotOverlap | crates/wm-host/src/lifecycle.rs:73-106 | if every pass ends before its lease does, no two overlap, and without crashes a tick claims exactly if no pass is in progress |
| SweepLease.TickOverlapsIffOverrun | crates/wm-host/src/lifecycle.rs:73-106 | while the pass in progress is the holder, an idle replica's tick makes two passes overlap if and only if that pass has outlived its lease |
| SweepLease.OverlapIffOverrun | crates/wm-host/src/lifecycle.rs:73-106 | in every run in which no pass has overrun so far none overlap, and an idle replica's next tick overlaps exactly if a pass in progress is now past its lease |
| SweepLease.OverlapNeedsOverrun | crates/wm-host/src/lifecycle.rs:73-106 | every run in which two passes overlap went through an overrun |
| SweepLease.ReleaseDeletesSiblings | crates/wm-host/src/lifecycle.rs:147-164 | whenever a pass ends while a sibling holds an unexpired lease, the release deletes that lease, and any idle replica's next tick overlaps the sibling's pass |
| SweepLease.CrashDelaysUntilDeadline | crates/wm-host/src/lifecycle.rs:108-125 | a crashed holder keeps the others out until its deadline and no longer |
| SweepLease.CrashCostsTwoIntervals | crates/wm-host/src/lifecycle.rs:126-145 | that is two intervals in whole seconds from the claim, and at least two seconds |
| SweepLease.OverrunBreaksLease | crates/wm-host/src/lifecycle.rs:147-164 | whatever the interval, one pass that overruns can make two passes overlap that are both within their leases |
| SweepPass.PassTakesExactlyTheOrphans | crates/wm-host/src/lifecycle.rs:168-190 | a group is gone exactly if it has routes and leads to a whole record neither by id nor by name; a pass takes exactly such groups' routes, with their private state, their listing and the group's state, and leaves the others whole |
| SweepPass.SecondPassIsNoOp | crates/wm-host/src/lifecycle.rs:11-16 | an immediate second pass finds nothing gone and changes nothing |
| SweepPass.LateHitBlocks | crates/wm-host/src/registry.rs:486-508 | one dispatch to a cached route after its group expired leaves a hash with stray fields and no group |
| SweepPass.HitMovesNoGroup | crates/wm-host/src/registry.rs:486-508 | a dispatch's stamp makes no group gone and brings none back, and changes no hash that is there |
| SweepPass.BlockedFailsEveryPass | crates/wm-host/src/lifecycle.rs:168-190 | from then on, in every sequence of passes and dispatches, every pass fails and the group's routes all stay |
| SweepPass.ClearingHashUnblocks | crates/wm-host/src/registry.rs:532-602 | once the only stray hash is deleted, the next pass succeeds and takes the group's routes |
| SweepPass.Sweeper.CascadeDeleteGroup | crates/wm-host/src/registry.rs:532-602 | removes exactly the group's children and counts its routes, or fails without a change on a hash with stray fields |
| SweepPass.Sweeper.CascadeNext | crates/wm-host/src/lifecycle.rs:180-187 | one more gone group after those already swept: fails exactly if its hash came back, else adds its routes to the count |
| SweepPass.Sweeper.SinglePass | crates/wm-host/src/lifecycle.rs:168-190 | succeeds exactly if no gone group has left a hash; then exactly the gone groups are swept, each once, with exact counts; a failure has swept a proper part of them |
| Streaming.RunMeans | crates/wm-host/src/host_state.rs:503-560 | over every run nothing goes out if the client left before the first start; otherwise its head goes out, once and before any chunk, then exactly the accepted writes in order; totals are their number and summed length |
| Streaming.WriteAnswers | crates/wm-host/src/host_state.rs:520-551 | a write is taken exactly after a start and before any finish or disconnect |
| Streaming.NothingAcceptedAfterEnd | crates/wm-host/src/host_state.rs:520-560 | after a finish or disconnect nothing is accepted and no total moves |
| Streaming.DisconnectFlagMeans | crates/wm-host/src/host_state.rs:543-550 | the disconnect flag is set exactly if a write was made after a start and a disconnect and before any finish |
| Streaming.Collect | crates/wm-host/src/dry_run.rs:405-410 | the collecting loop yields the concatenation of the chunks |
| Streaming.CollectRun | crates/wm-host/src/dry_run.rs:405-430 | while the receiver stays, collecting a run gives the first start's head and the accepted writes joined in order, or nothing if it never started |
| Duration.ParseDuration | crates/wm-core/src/spec.rs:217-262 | the checked loop gives the specified parse, each error included |
| Duration.ParseMeans | crates/wm-core/src/spec.rs:217-262 | parsing succeeds with n exactly on the digits of a 64-bit n, a plus sign before them allowed, or on well-formed number-unit segments whose exact sum n fits in 64 bits |
| Duration.ScanMeans | crates/wm-core/src/spec.rs:228-261 | the same for the rest of the text from any point of the scan |
| Duration.ValueByPlace | crates/wm-core/src/spec.rs:238-240 | digits stand for their value at their place |
| Duration.FirstFault | crates/wm-core/src/spec.rs:233-253 | after the segments that fit, the first one that does not decides which of the five errors comes |
| Duration.TrailingFault | crates/wm-core/src/spec.rs:256-260 | a number at the end without a unit is that error |
| Duration.RoundTrip | crates/wm-core/src/spec.rs:268-281 | what is printed parses back to itself, for every 64-bit number |
| Duration.FormatPicks | crates/wm-core/src/spec.rs:268-281 | what is printed is one number, of the largest unit that divides the time; zero is in seconds |
| Duration.BareIsShorter | crates/wm-core/src/spec.rs:264-267 | a time whose bare number is shorter than what is printed |
| Duration.TwoUnitsAreShorter | crates/wm-core/src/spec.rs:264-267 | a time which two units spell shorter than what is printed |
| RouteTables.RouteTable.RefreshAfterCreate | crates/wm-host/src/route_table.rs:519-529 | refinement link: appends the record; the announcement names the group and no artifact |
| RouteTables.RouteTable.RefreshAfterDelete | crates/wm-host/src/route_table.rs:530-547 | refinement link: drops the record and its artifact; the announcement names both |
| RouteTables.RouteTable.RefreshAfterUpdate | crates/wm-host/src/route_table.rs:548-581 | refinement link: overwrites in place, evicts the artifact, announces the id |
| RouteTables.RouteTable.RefreshAfterCascade | crates/wm-host/src/route_table.rs:582-621 | refinement link: no record of the group is left, its cached routes' artifacts are gone, and the group is announced even when none were cached |
| RouteTables.RouteTable.RefreshAfterGroupRename | crates/wm-host/src/route_table.rs:622-645 | refinement link: renames the group on its cached records and announces the group |
| Sessions.JournalBus.Publish | crates/wm-host/src/journal.rs:535-563 | refinement link: the event is in the local broadcast at once; a copy with the origin's id goes out only on a distributed store |
| KeyStore.Bucket.Perform | crates/wm-host/src/store/memory.rs:67-329 | refinement link: each bucket operation answers, and changes the one full key it names, as `Exec` does, whose laws are in `StoreLaws` |
| DryRuns.ApplyOverrides | crates/wm-host/src/dry_run.rs:228-262 | refinement link: overrides are applied in order up to the first that does not decode, which is reported |
| DryRuns.Move | crates/wm-host/src/dry_run.rs:383-403 | refinement link: one move of the handler on a bucket or on its stream |
| DryRuns.Drive | crates/wm-host/src/dry_run.rs:380-403 | refinement link: the handler is driven against its two buckets and its stream until it answers, traps, or runs out of budget; what the stream let out is what its calls amount to |
| DryRuns.Deliver | crates/wm-host/src/dry_run.rs:405-453 | refinement link: a trap is reported alone, whatever was streamed before it; otherwise a streamed head and body, the accepted writes joined in order, take the place of the returned value |
| AuthService.Auth.FindUserByEmail | crates/wm-host/src/auth.rs:390-422 | refinement link: index first, then the scan loop with healing: result and new state are the specified lookup's |
| AuthService.Auth.WriteNewUser | crates/wm-host/src/auth.rs:497-551 | refinement link: check, record, claim, listing: result and new state as specified |
| AuthService.Auth.CreateUser | crates/wm-host/src/auth.rs:211-214 | refinement link: creation under the normalised e-mail; what that identifies is in `AccountSpelling` |
| AuthService.Auth.SyncAdmin | crates/wm-host/src/auth.rs:260-268 | refinement link: the role is rewritten only if it differs |
| AuthService.Auth.BackfillEmail | crates/wm-host/src/auth.rs:173-181 | refinement link: the e-mail is set on the record and indexed |
| AuthService.Auth.UpsertLocalUser | crates/wm-host/src/auth.rs:256-283 | refinement link: local login: find and sync, or create; the identity entry is refreshed |
| AuthService.Auth.UpsertLocalAs | crates/wm-host/src/auth.rs:258-283 | refinement link: the same for an already normalised e-mail |
| AuthService.Auth.UpsertOauthUser | crates/wm-host/src/auth.rs:299-381 | refinement link: provider login: returning, stale or first-seen identity |
| AuthService.Auth.UpsertOauthAs | crates/wm-host/src/auth.rs:306-381 | refinement link: the same for an already normalised e-mail |
| AuthService.Auth.ReturningUser | crates/wm-host/src/auth.rs:318-352 | refinement link: a known identity: sync the role, then heal the index or backfill a missing e-mail if it is free |
| AuthService.Auth.LinkFirstSeen | crates/wm-host/src/auth.rs:358-381 | refinement link: a first-seen identity is linked to the holder of its e-mail or gets a new user |
| AuthService.Auth.BootstrapAdmin | crates/wm-host/src/auth.rs:153-198 | refinement link: find, adopt a legacy record, or create the admin and its token |
| AuthService.Auth.BootstrapAdminAs | crates/wm-host/src/auth.rs:155-198 | refinement link: the same for an already normalised e-mail |
| AuthService.Auth.SetUserAdmin | crates/wm-host/src/auth.rs:426-438 | refinement link: sets the role of an existing user and changes nothing else |
| AuthService.Auth.BumpSessionEpoch | crates/wm-host/src/auth.rs:447-455 | refinement link: one more than the stored epoch, for an existing user only |
| AuthService.Auth.DeleteUser | crates/wm-host/src/auth.rs:460-487 | refinement link: cascade, unindex, unlist, clear the five named fields |
| AuthService.Auth.DeleteTokensOf | crates/wm-host/src/auth.rs:471-476 | refinement link: the loop over the owner's set deletes exactly those tokens with all their index entries |
| AuthService.Auth.DeleteToken | crates/wm-host/src/auth.rs:748-768 | refinement link: the four index edits and the field deletions are the removal of exactly that token |
| AuthService.Auth.WriteNewToken | crates/wm-host/src/auth.rs:580-625 | refinement link: the record and its three index entries |
| AuthService.Auth.CreateToken | crates/wm-host/src/auth.rs:557-578 | refinement link: owner must exist, name must be free for that owner |
| AuthService.Auth.RenameToken | crates/wm-host/src/auth.rs:664-710 | refinement link: errors and the three writes in order |
| AuthService.Auth.RevokeTokenByName | crates/wm-host/src/auth.rs:726-738 | refinement link: revokes what the name leads to and reports whether there was one |
| AuthService.Auth.Authenticate | crates/wm-host/src/auth.rs:789-822 | refinement link: unknown, expired and ownerless tokens give nothing; success stamps the token; what it shows is in `AccountEffects` |
| OAuthService.OAuth.SaveRefreshToken | crates/wm-host/src/mcp_oauth.rs:270-286 | refinement link: the record is stored and its hash added to its user's index |
| OAuthService.OAuth.ConsumePending | crates/wm-host/src/mcp_oauth.rs:214-224 | refinement link: one-shot read |
| OAuthService.OAuth.ConsumeAuthorizationCode | crates/wm-host/src/mcp_oauth.rs:252-266 | refinement link: a code is handed out once and marked used |
| OAuthService.OAuth.ConsumeRefreshToken | crates/wm-host/src/mcp_oauth.rs:301-315 | refinement link: a token is handed out once, and not if revoked |
| OAuthService.OAuth.ConsentSubmit | crates/wm-host/src/mcp_oauth.rs:1124-1195 | refinement link: the pending record is consumed whatever the answer; only approval mints a code, with the request's data, as `OAuthOutcomes.AnswerGives` says |
| OAuthService.OAuth.Mint | crates/wm-host/src/mcp_oauth.rs:1396-1440 | refinement link: an access and a refresh record with the same user, client and scope |
| OAuthService.OAuth.AuthorizationCodeGrant | crates/wm-host/src/mcp_oauth.rs:1243-1461 | refinement link: client check, consume, then the three comparisons, then the pair |
| OAuthService.OAuth.RefreshTokenGrant | crates/wm-host/src/mcp_oauth.rs:1464-1561 | refinement link: client check, consume, client comparison, then the pair |
| OAuthService.OAuth.RevokeToken | crates/wm-host/src/mcp_oauth.rs:1580-1652 | refinement link: access tokens first, then refresh tokens, each only for the client that holds it; always success once authenticated |
| Throttle.LoginThrottle.LockedOut | crates/wm-host/src/login_throttle.rs:69-91 | refinement link: compares the stored deadline with the clock |
| Throttle.LoginThrottle.Fail | crates/wm-host/src/login_throttle.rs:96-148 | refinement link: lease, count, refresh the counter's time to live, trip, clear |
| Throttle.LoginThrottle.Succeed | crates/wm-host/src/login_throttle.rs:153-159 | refinement link: clears counter and window and leaves a lockout in place |
| JournalLog.Journal.RecordEntry | crates/wm-host/src/journal.rs:689-719 | refinement link: the next number, the record under its id, the index entry |
| JournalLog.Journal.List | crates/wm-host/src/journal.rs:738-775 | refinement link: the descending loop returns the specified page |
| JournalLog.Journal.CountUnmatchedSince | crates/wm-host/src/journal.rs:790-835 | refinement link: the capped loop returns the specified count and flag |
| JournalLog.Journal.CountUpTo | crates/wm-host/src/journal.rs:807-829 | refinement link: the same walk for any cap |
| Streaming.StreamSink.Begin | crates/wm-host/src/host_state.rs:504-518 | refinement link: the first start wins, and its head is lost silently if the client is gone |
| Streaming.StreamSink.WriteChunk | crates/wm-host/src/host_state.rs:520-551 | refinement link: the guards in order, then send and count, or flag the disconnect |
| Streaming.StreamSink.End | crates/wm-host/src/host_state.rs:553-559 | refinement link: the chunk sender is dropped |
| Streaming.StreamSink.Stats | crates/wm-host/src/host_state.rs:206-211 | refinement link: totals and flag, only if streaming started |
| Duration.ParseUnits | crates/wm-core/src/spec.rs:226-261 | refinement link: the scan loop over the units |

## Left out

- Storage errors: every storage call succeeds, except that a publish and a reload read may fail where a property says so.
- Reads and writes inside one helper that are not atomic in the source (consuming a code or a refresh token, dropping a stale index entry, the throttle's counter reset) are one step.
- AccountClaim: the token a bootstrap writes after its claim is not interleaved with the other calls, and of a login only the creation inside it; `Accounts` covers both as one call.
- AccountClaim: no concurrent deletion, and no index entry is stale when the calls start, as the claim itself assumes.
- RouteBus.StaleOnlyForCause: compiled components and transpiled sources are one artifact cache, and the rate limit on read-through reloads is not modelled, so a reload may come at any time.
- RouteBus: the subscriber task of `bus.rs` is a set of steps there, and a loop in `Sessions`; the backoff between sessions is not modelled.
- DryRuns.DryRun: the safety time-to-live on the throw-away root is not modelled; a run is a bounded number of moves, which stands for the epoch deadline.
- DryRuns: a handler is any function from the answers seen so far to its next bucket operation, stream call or ending; a precompiled component is a handler without stream calls; wasm, logs, clock and callbacks are not modelled.
- KeyStore: key and member listings are sets, since the source gives them in no order; values are strings.
- Ids, secrets and tokens are numbers, except where their text matters.
- Accounts: token authentication covers the user-minted family; the OAuth access-token family is in the OAuth modules only as records.
- Accounts.RunsStayConsistent: covers runs whose bootstraps do not mint for a secret in use; `Accounts.BootstrapKeeps` has the exact condition and `AccountOrigins.ReusedSecretLocksOut` what happens otherwise.
- Accounts: password and session handling, and the role checks of the API layer.
- OAuthStore: a client's secret check and its redirect-URI match enter a request as booleans; the PKCE digest is any function.
- OAuthLineage: records may expire at any time, which covers every time-to-live; an in-memory store, where codes never expire, is a special case.
- OAuthService.OAuth.RevokeGrantsForClient: the 32-bit counter is unbounded here.
- Throttle.BackendsBisimilar: an expiring store drops a key at its deadline, to the instant; the clock does not run backwards.
- JournalLog.Journal.RecordEntry: the counter, the record and the index entry are written in one step, and the number is unbounded where the source truncates it to 32 bits per group.
- JournalLog: bodies, filters on a page and the group permission check are not modelled.
- Fanout: a slow tail that lags behind the broadcast capacity loses events at the tail, which is outside the replica's broadcast.
- SweepPass: a group hash that has an id but does not decode, and an unreadable listed route, are not modelled; the route-table refresh of a pass is in `RouteTables`.
- Streaming.StreamSink.WriteChunk: back-pressure only delays a write, and 64-bit totals are unbounded.
- HTTP rendering, templates, cookies, the CLI, the REST client, login providers, callouts, the pattern matcher, metrics and conformance lanes are not part of this model.
