# Model of the OpenDNSSEC enforcer

This project models the parts of OpenDNSSEC whose correctness rests on facts that no single function states,
and proves them for every input, every run or every interleaving.

1. **The key rollover engine** (`enforcer/ksm`). Once per interval the enforcer recomputes the estimated dates
   of a zone's keys, moves keys through generate, publish, ready, active, retire and dead (and standby KSKs
   through dssub, dspublish, dsready and keypublish), recomputes the dates, and issues the key list to the
   signer. `KeyStore.dfy` updates the tables in place, statement by statement, and ties each method to a
   function of the tables in `Update.dfy`, `Request.dfy`, `Supply.dfy`, `KeyRoll.dfy` or `Backup.dfy`. `Runs.dfy`
   interleaves requests with key creation, allocation, `ds-seen`, the operator's roll command, backups and purges in
   any order; `Theorems.dfy`, `Histories.dfy`, `ForcedRollovers.dfy`, `SupplyRuns.dfy`, `Standby.dfy` and
   `Timeliness.dfy` prove what holds in every run without shared pairs, `SharedRuns.dfy` and `BackupHistory.dfy` what
   holds with them as well. `Intervals.dfy` proves the waiting times, `KskSteps.dfy` the numbers and moves of KSKs,
   `Outcomes.dfy` the failures and `Signers.dfy` the number of signers of a single request, and `SharedPairs.dfy` shows
   what sharing breaks.
2. **Key supply and disposal** (`enforcer/enforcerd`): prediction, generation under the capacity of the
   security modules, allocation, two-phase backup, purge (`Availability.dfy`, `Stock.dfy`, `Keygen.dfy`, `Backup.dfy`).
3. **The Base64 codec** (`common`): the in-place decoder, its length-only twin and the encoder (`Base64.dfy`).
4. **The shared PIN store** (`libhsm`): any number of processes, interleaved at the level of single characters of
   shared memory (`Pin.dfy`).
5. **Durations** (`Duration.dfy`) and **the parameter cache** (`Parameters.dfy`).

Verify everything with `dafny verify dfyconfig.toml`.

## Assumptions

- The tables are a map of key pairs and a sequence of `dnsseckeys` rows in table order; NULL is `None`, and every
  comparison with NULL is false. `KEYDATA_VIEW` is `keypairs` left-joined with `dnsseckeys`. SQL statements succeed;
  where the source runs a query in a loop over its result, the result is the one at the start of the loop.
- Times are integers in seconds, the clock never goes back, policy parameters are not negative. Integer widths are
  unbounded except where the source's behaviour depends on them: the lifetime INT_MAX - 1 that stands for "for
  ever", the 16-bit run interval, the 16-bit warning counter and the 32- and 64-bit values of the duration parsers.
- Requests name a zone (zone_id is not -1). Except in `SharedRuns.dfy` and `BackupHistory.dfy` the run theorems assume
  that no key pair is shared between zones at the start, and that a pair is only given to a zone when it has no row.
- The rollover scheme of KSKs is a parameter of the model. The code always reads the default, DoubleDNSKEY
  (enforcer/ksm/ksm_parameter.c:478), so the theorems cover more than the code can reach.
- The roll command prints a list that was never written, a NULL pointer, into its statement
  (enforcer/utils/ksmutil.c:8800). That is undefined; the model takes the zones that the statement then lets through as
  an input, so that the run theorems hold whatever they are. Where NULL prints as "(null)" there are none.
- The HSM is a map from key location to repository that may run out of keys to make or refuse a removal.
- Characters of texts are unsigned bytes, and `isspace` is that of the C locale.

## Where the code does not do what is promised

- With shared key pairs a request that succeeds can leave a zone without a signer, or with two. From one active ZSK
  there is one again if and only if the switch does not come or exactly one of the old and the new key is due to retire:
  `Signers.RequestKeepsSignerIff`, told from the stored tables. `SharedPairs.SharedPairLosesSigner` gives tables for the
  first, which takes a request with the rollover option; the enforcer passes 0 (enforcer/enforcerd/enforcer.c:933).
  `SharedPairs.RolledPairSignsTwice` gives the second, which takes only the operator's roll command and ordinary requests:
  a rolled pair can still be given to another zone, where it signs without a retire date and keeps its flag.
- The roll command promotes standby KSKs to keypublish without stamping a publication date, so that one may become active
  before it has been published for the interval, or without having been published at all. In every run
  `Standby.StandbyActivation` says exactly when: the interval has passed since the DS record was seen, and not since the
  key was first listed. `Standby.ActiveUnlisted` gives tables and a request. Keys that the command has not promoted are
  never activated too early.
- The guard of that promotion names the zones to spare only when a whole policy is rolled: `Standby.GuardCanBeMet` gives
  tables that it lets through, and `Standby.ZoneRollPromotesNothing` shows that rolling one zone promotes nothing where
  NULL prints as "(null)". For the second and later KSKs of a command the lists of zones run together
  (`KeyRoll.GuardGrows`): `Standby.SecondKskForgetsZone` gives tables in which a standby key is promoted although its zone
  has a ready KSK.
- Rolling back a prepared backup for all repositories at once succeeds and changes nothing:
  `Backup.RollbackUndoesIff`.
- The two duration scanners differ in the sign of their status when the checker's 16-bit counter wraps:
  `Duration.CopiesAgree` has the exact condition, `Duration.CopiesDiffer` a family of texts.
- The short duration form stores a product that does not fit an `int` without an error:
  `Duration.ShortFormIsExactIff`.
- A parameter that is not set is remembered by the cache as whatever the first caller's memory held:
  `Parameters.UnsetIsRemembered`.
- The comment on the scanner counts a month as 30 days (enforcer/ksm/datetime.c:923); the code, and the model, as 31.

## Model

| member | source | states |
|---|---|---|
| KeyStore.KeyStore.CountWhere | enforcer/ksm/ksm_request.c:1615-1713 | the count queries return the number of rows that the clause selects, and change nothing |
| Tables.CountsMean | enforcer/ksm/ksm_request.c:1615-1713 | column by column, which rows the counts by state, by retire date and of lasting active keys are the number of |
| KeyStore.KeyStore.SelectPairs | enforcer/ksm/ksm_request.c:1097-1131 | the ids collected are exactly those of the first `limit` selected rows, as many as there are |
| KeyStore.KeyStore.UpdateKeyTime | enforcer/ksm/ksm_update.c:557-593 | writes destination = source + interval in exactly the rows of that pair and zone; NULL stays NULL |
| KeyStore.KeyStore.UpdateKey | enforcer/ksm/ksm_update.c:152-208 | dispatches on the state: exactly the key's own row gets the date of its state, and a fixed retire date is left alone |
| KeyStore.KeyStore.UpdateDates | enforcer/ksm/ksm_update.c:72-131 | the loop over the keys of a zone recomputes every row of the zone once, from the dates it had before, and no other row |
| Update.UpdateIdempotent | enforcer/ksm/ksm_update.c:72-131 | recomputing the dates a second time with the same parameters changes nothing |
| KeyStore.KeyStore.EnterState | enforcer/ksm/ksm_request.c:900-909 | state and date column of exactly the rows of the listed pairs in the zone change |
| KeyStore.KeyStore.ChangeState | enforcer/ksm/ksm_request.c:766-952 | although the update filters by pair and zone only, exactly the rows selected by type, state, zone and due date move |
| KeyStore.KeyStore.ChangeStateN | enforcer/ksm/ksm_request.c:1041-1229 | the first n rows of the source state move, or none when there are too few or one lacks a required backup |
| KeyStore.KeyStore.LackingBackup | enforcer/ksm/ksm_request.c:1134-1195 | positive if and only if some chosen key needs a backup and has none |
| KeyStore.KeyStore.MarkActive | enforcer/ksm/ksm_request.c:521-658 | the pairs of the zone's active keys are flagged, and every row of those pairs in any zone gets the retire date now |
| KeyStore.KeyStore.CheckCompromised | enforcer/ksm/ksm_request.c:1986-2019 | true if and only if the zone has an active key whose pair is flagged |
| KeyStore.KeyStore.SubmitStandby | enforcer/ksm/ksm_request.c:1260-1312 | exactly the missing standby KSKs go to dssub if the generate pool has them all, else none |
| KeyStore.KeyStore.Replenish | enforcer/ksm/ksm_request.c:1365-1443 | exactly the shortfall is published if the generate pool covers it, else nothing is; `KskSteps.PublishedExactly` and `Theorems.CoveredRequestKeepsStandby` say how many that is |
| KskSteps.SubmittedExactly | enforcer/ksm/ksm_request.c:1260-1312 | with s keys in dssub, dspublish and dsready, exactly standbyksks - s generated KSKs are submitted if that is positive and there are as many, and none otherwise |
| KskSteps.PublishedExactly | enforcer/ksm/ksm_request.c:1365-1443 | with a KSKs in publish, ready, active and keypublish and p active ones that retire within kskttl + kskpropdelay + pub_safety + interval, exactly 1 + p - a generated KSKs are published if that is positive and there are as many, and none otherwise |
| KskSteps.FirstKskRequest | enforcer/ksm/ksm_request.c:1260-1443 | a zone's first request for KSKs, told from the stored tables, submits the standby keys if there are enough and publishes exactly one of the others if there is one, pairs shared or not |
| KskSteps.RequestKskCounts | enforcer/ksm/ksm_request.c:97-166 | the KSKs in generate, dssub, publish, ready, active and retire after a request are as many as after step 3 of its KSK pass |
| KskSteps.ActiveKskRetiresIff | enforcer/ksm/ksm_request.c:274-300 | a successful request retires an active KSK if and only if its date, the end of its lifetime unless fixed or forced, is due, and the caller's flag is set or a standby key has waited for zskttl + propdelay + pub_safety |
| KskSteps.StandbyPublishedIff | enforcer/ksm/ksm_request.c:380-445 | a pass moves a standby key from dsready to keypublish if and only if its date is due, no KSK is ready, and a rollover is forced or no active KSK lasts beyond now |
| KskSteps.NewDsMeans | enforcer/ksm/ksm_request.c:274-372 | after a successful request the new-DS flag is set if and only if the zone had KSKs beyond generate and some KSK became ready, was submitted, or died while DS records are doubled |
| KskSteps.DsSeenThenRequest | enforcer/utils/ksmutil.c:7737-7838 | a ready key whose DS was seen is active from then on; a submitted one is found ready, or published, by a request if and only if kskttl + kskpropdelay + pub_safety have passed since |
| KskSteps.RetireOldThenRequest | enforcer/utils/ksmutil.c:7862-7952 | the old KSK that the command retires is dead after a request if and only if dsttl + kskpropdelay + ret_safety have passed since |
| KeyStore.KeyStore.Stage | enforcer/ksm/ksm_request.c:274-379 | the rows and the new-DS flag after steps 0a to 3, in that order |
| KeyStore.KeyStore.Switch | enforcer/ksm/ksm_request.c:380-485 | the rows and the status after steps 4 to 9, by first pass, manual rollover and backup refusal |
| KeyStore.KeyStore.IssueKeys | enforcer/ksm/ksm_request.c:2048-2104 | the issued keys are the zone's keys in publish, ready, active, retire and keypublish, in table order |
| KeyStore.KeyStore.RequestByType | enforcer/ksm/ksm_request.c:212-492 | one pass: rollover marks, steps 0a to 9, and the issued list only on success |
| KeyStore.KeyStore.RequestKeys | enforcer/ksm/ksm_request.c:97-166 | the whole request in its transaction; a failing pass leaves both tables exactly as before |
| Moves.RequestConservesKeys | enforcer/ksm/ksm_request.c:97-166 | no request creates, drops, moves between zones or retypes a key, every state stays or rises in rank, and the key pairs stay the same set |
| Outcomes.RequestStatus | enforcer/ksm/ksm_request.c:97-166 | a request fails if and only if it handles ZSKs, the zone's ZSKs are all still generated, and they are fewer than 1 + standby or the first lacks a required backup; which of the two is its status |
| Moves.AtMostSevenChanges | enforcer/ksm/include/ksm/ksm.h:362-381 | a state history that only rises in rank changes at most seven times |
| Moves.MovedNExact | enforcer/ksm/ksm_request.c:1204-1228 | a move of n keys changes exactly n distinct rows, or as many as there are |
| Moves.ChangeNAllOrNothing | enforcer/ksm/ksm_request.c:1097-1228 | the number of changed rows is n on success and zero on any failure |
| Invariant.RequestKeepsDates | enforcer/ksm/ksm_update.c:241-524 | every request keeps the rule which date columns are NULL in which state, in particular that a dead date exists only in retire and dead, and keeps pairs unshared |
| Zsk.ZskSwitched | enforcer/ksm/ksm_request.c:380-485 | if no ready key carries a retire date, a successful switch ends with exactly one active ZSK, and retires the old one only after a successor was activated |
| Zsk.ZskPass | enforcer/ksm/ksm_request.c:212-492 | a successful ZSK pass ends with exactly one active ZSK and tells for every row how it may have moved and with which dates |
| Ksk.KskPass | enforcer/ksm/ksm_request.c:212-492 | a KSK pass always succeeds, and tells for every KSK how it may have moved: an active one never dies in the pass, a published standby key becomes active only when its date is due |
| EventSteps.StepInv | enforcer/enforcerd/enforcer.c:563-826 | every event, requests, `ds-seen`, the roll command, backups and purges included, keeps the invariant of the zone |
| EventSteps.RunInv | enforcer/enforcerd/enforcer.c:563-826 | every state of every run satisfies the invariant |
| Theorems.EveryListHasOneSigner | enforcer/ksm/ksm_request.c:1328-1329 | in every run each ZSK list ever issued for the zone names exactly one signing key |
| Theorems.OneActiveZsk | enforcer/ksm/ksm_request.c:380-485 | in every run the zone has no active ZSK before its first list and exactly one ever after |
| Theorems.ZskLifeline | enforcer/ksm/ksm_update.c:241-426 | in every run each key is listed in one unbroken stretch and signs in one unbroken stretch inside it, with the publication interval before and the retire interval after |
| Theorems.SignerWasPublished | enforcer/ksm/ksm_update.c:241-305 | a signer other than the one of the first list had been in every list for at least zskttl + propdelay + pub_safety |
| Theorems.RetiredStayedListed | enforcer/ksm/ksm_update.c:375-426 | a key that has signed stays in every list, without signing, for at least zsksiglife + propdelay + ret_safety |
| Theorems.StandbyWasPublished | enforcer/ksm/ksm_update.c:493-524 | a standby KSK leaves keypublish only by becoming active, after being in every list since it was first listed, at least zskttl + propdelay + pub_safety after its publication date, which is the time of that first list unless a roll command promoted it |
| Theorems.ActiveNeverDiesAtOnce | enforcer/ksm/ksm_request.c:278-305 | no key goes from active to dead inside one request although step 0a precedes step 1 |
| Intervals.RequestIsOnTime | enforcer/ksm/ksm_update.c:241-524 | with the intervals written out: in a successful request a waiting key moves on if and only if its interval has passed, ZSKs from publish and retire, KSKs from publish (under double-DNSKEY, else never), dspublish, keypublish and retire |
| Intervals.SignerServesLifetime | enforcer/ksm/ksm_update.c:325-373 | an unforced request retires a ZSK without a fixed date only after its lifetime, INT_MAX - 1 seconds if that is zero |
| SignerConfig.ElementsMatchList | enforcer/enforcerd/enforcer.c:1154-1179 | every issued key is marked for publication, and the keys marked to sign the zone are the signers of the list |
| SignerConfig.ElementFlags | enforcer/enforcerd/enforcer.c:1154-1179 | which flags a key element has, by key type and state |
| SignerConfig.OneKeySigns | enforcer/enforcerd/enforcer.c:1154-1179 | in every run, once the zone has had a list its configuration tells exactly one key to sign |
| SharedRuns.RolledAllRises | enforcer/utils/ksmutil.c:8622-8843 | the roll command conserves the rows and only raises their states, whatever is shared |
| SharedRuns.EventRises | enforcer/ksm/ksm_request.c:900-906 | no event lowers the rank of a key's state, pairs shared or not |
| SharedRuns.RunTidy | enforcer/ksm/ksm_key.c:871-929 | in every run, sharing allowed, (zone, pair) stays unique |
| SharedRuns.AtMostSevenMoves | enforcer/ksm/ksm_request.c:1204-1214 | over any stretch of any run, sharing allowed, a key changes its state at most seven times |
| Histories.RetireDateStaysFixed | enforcer/ksm/ksm_update.c:363-370 | in every run no event moves the retire date of a marked active ZSK, short of forcing a rollover again |
| Histories.RollFixesDate | enforcer/utils/ksmutil.c:8656-8725 | the roll command marks every active ZSK that it selects and fixes its date at now |
| Histories.RequestFixesDate | enforcer/ksm/ksm_request.c:259-273 | a request with the rollover option succeeds and fixes the signing key's date at now, whether it finds a successor or not |
| Rollovers.MarkedKeyRetires | enforcer/ksm/ksm_request.c:447-482 | a pass that finds a ready key passing the backup rule retires the marked key at once, whatever the manual rollover setting |
| ForcedRollovers.ForcedRolloverCompletes | enforcer/ksm/ksm_request.c:259-273 | in every run the first request after a forced rollover whose successor passes the backup rule retires the marked key, and until then its date has not moved |
| Signers.SwitchSigners | enforcer/ksm/ksm_request.c:459-482 | over any tables, when steps 8 and 9 run there is one active ZSK more, less those that are due, the new one included |
| Signers.SwitchKeepsSignerIff | enforcer/ksm/ksm_request.c:380-482 | over any tables with one active ZSK, the switch leaves one if steps 8 and 9 do not run, and otherwise two less one for each of the old and the new key that is due |
| Signers.RequestKeepsSignerIff | enforcer/ksm/ksm_request.c:97-166 | the same for a whole request, for ZSKs or for both key types, over any tables with unique (zone, pair), told from the stored states, dates and flags; the signers in the issued list are as many |
| Signers.SwitchedKeys | enforcer/ksm/ksm_request.c:459-482 | when the switch comes, the old and the new key are each retired if due and active otherwise |
| Outcomes.FirstRequestOneSigner | enforcer/ksm/ksm_request.c:404-430 | a zone's first successful request ends with exactly one signer, pairs shared or not |
| SharedPairs.SharedPairLosesSigner | enforcer/ksm/ksm_request.c:639-645 | tables with a shared pair and two successful requests, one forced, after which a zone has no active ZSK and is issued a list without a signer |
| SharedPairs.RolledPairSignsTwice | enforcer/ksm/ksm_key.c:871-929 | tables, a roll command, two allocations that the query allows and two ordinary requests that succeed, after which a zone is issued a list with two signers |
| KeyStore.KeyStore.MarkPair | enforcer/utils/ksmutil.c:8678-8721 | a selected pair is flagged, its active rows get the retire date, its other rows are dead |
| KeyStore.KeyStore.RollKeys | enforcer/utils/ksmutil.c:8622-8843 | the whole command over the selected keys with the two zone lists that it carries along; `KeyRoll.RollExact` says which keys those are |
| RollSteps.KeyRolledRolls | enforcer/utils/ksmutil.c:8622-8843 | over unshared pairs the command dates and flags exactly the selected active keys, and apart from that only promotes standby keys from dsready |
| KeyRoll.RollExact | enforcer/utils/ksmutil.c:8656-8725 | pairs shared or not, a pair is rolled if and only if it has an active row in the named zone, of the named policy and of the named type: it is flagged, its active rows are dated now, its other rows are dead; no other pair changes, and no other row but by promotion from dsready |
| KeyRoll.OneKskPromotes | enforcer/utils/ksmutil.c:8726-8800 | a command that rolls a single KSK promotes a standby key if and only if that KSK retires now in its zone, the zone has no KSK of the policy in publish or ready, and another zone has one (or the unwritten list lets it through) |
| KeyRoll.GuardGrows | enforcer/utils/ksmutil.c:8738-8786 | what a further KSK adds to the two zone lists, and where the missing comma makes two ids one |
| KeyRoll.RunTogetherReads | enforcer/utils/ksmutil.c:8749-8754 | two ids printed without a comma read as the number with the digits of both |
| Standby.RushedMeans | enforcer/utils/ksmutil.c:8800 | in every run a key counts as promoted if and only if a roll command moved it from dsready to keypublish |
| Standby.StandbyActivation | enforcer/ksm/ksm_update.c:493-524 | in every run a successful request activates a standby KSK if and only if the interval has passed since its publication date, too early if and only if it has not passed since the first list (or there was none), and never too early for a key that no roll command promoted |
| Standby.ShortCutSkipsPublication | enforcer/utils/ksmutil.c:8800 | after the command the next request activates the promoted key unlisted if and only if the interval has passed since its DS was seen, and a later one if and only if it has passed by then, however short the key was listed |
| Standby.GuardCanBeMet | enforcer/utils/ksmutil.c:8732-8800 | tables in good order for which rolling a policy's KSKs promotes a standby key |
| Standby.SecondKskForgetsZone | enforcer/utils/ksmutil.c:8738-8800 | tables in good order for which rolling a policy's two KSKs promotes a standby key in a zone that has a ready KSK |
| Standby.ActiveUnlisted | enforcer/utils/ksmutil.c:8732-8800 | with those tables the next request makes the promoted key active although it has never been listed |
| Standby.ZoneRollPromotesNothing | enforcer/utils/ksmutil.c:1959 | without a policy the list of zones to spare is never written, and where NULL prints as "(null)" no key is promoted |
| Standby.ZskRollPromotesNothing | enforcer/utils/ksmutil.c:8732 | a command for ZSKs promotes no key, whatever an unwritten list lets through |
| KeyStore.KeyStore.CreatePair | enforcer/ksm/ksm_key.c:86-122 | a new pair with a new id, without flags and backup dates; no other pair changes |
| KeyStore.KeyStore.GetUnallocated | enforcer/ksm/ksm_key.c:871-929 | the least id of a fitting pair that the zone may be given, none if and only if there is none: without sharing one without a row, with sharing one without a row in this zone or a retired or dead row in any |
| KeyStore.KeyStore.AllocateKeys | enforcer/enforcerd/enforcer.c:1211-1329 | exactly the predicted demand is added as new generated rows of fitting pairs, (zone, pair) stays unique, and failure means that no pair is left |
| Supply.DemandIs | enforcer/enforcerd/enforcer.c:1237-1290 | the demand is what the zone needs, less its keys from generate to active or standing by, plus the active ones that retire within the interval, the publication (or parent) interval included |
| Supply.PredictionIsLeast | enforcer/ksm/ksm_key.c:564-628 | n is the prediction if and only if n less the standby keys, used one after the other, outlast the waiting time of the scheme and one fewer would not; one if the lifetime is endless |
| Availability.SupplyMeetsDemand | enforcer/enforcerd/enforcer.c:1249-1326 | once allocation has nothing to add and the retire dates of the active ZSKs are current, a request at that instant finds at least as many generated ZSKs as it must publish |
| SupplyRuns.RunKeepsCurrent | enforcer/ksm/ksm_update.c:325-373 | in every run those dates are current from the start, or from a successful request under a policy, as long as the requests for the zone are under that policy |
| SupplyRuns.SupplyMeetsDemandInRuns | enforcer/enforcerd/enforcer.c:1249-1326 | in every run, then, allocation without further demand followed by an unforced request at that instant is covered, and on success leaves 1 + standby ZSKs in place |
| Availability.RequestLeavesDates | enforcer/ksm/ksm_request.c:97-166 | a successful request leaves dates behind that a further update with the same parameters does not change |
| Availability.CoveredPassKeepsStandby | enforcer/ksm/ksm_request.c:1392-1440 | every ZSK pass whose pool covers the shortfall ends with at least 1 + standby ZSKs in publish, ready or active, forced rollovers included |
| Theorems.CoveredRequestKeepsStandby | enforcer/ksm/ksm_request.c:97-166 | the same for every successful request, forced or not |
| Timeliness.RolloverIsTimely | enforcer/ksm/ksm_request.c:1482-1579 | in every run, if requests for the zone come at most one interval apart, find enough generated keys and are under a policy whose lifetime leaves room for the publication interval and one run interval, the first request at or after the signer's retire date finds a ready successor, and switches to it unless it lacks a backup or rollovers are manual |
| Theorems.SuppliedRequest | enforcer/ksm/ksm_key.c:614-620 | after allocation has succeeded, the ZSK pass of an unforced request at that instant is covered, and a successful one ends with at least 1 + standby ZSKs in place |
| KeyStore.KeyStore.MarkPreBackup | enforcer/ksm/ksm_import.c:519-565 | exactly the unprepared pairs of the repository (or of all) get the preparation date |
| KeyStore.KeyStore.RollbackPreBackup | enforcer/ksm/ksm_import.c:582-632 | the rows that the statement names lose the date, which for all repositories are not the pending ones |
| KeyStore.KeyStore.MarkBackup | enforcer/ksm/ksm_import.c:652-702 | exactly the pending pairs get the backup date; `Backup.StatementsExact` says which those are |
| Backup.RollbackUndoesIff | enforcer/ksm/ksm_import.c:595-623 | a rollback leaves nothing pending if and only if it names a repository or nothing was pending |
| Backup.RollbackInvertsPrepare | enforcer/ksm/ksm_import.c:550-623 | rolling back a preparation restores the table when nothing was pending before it |
| Backup.StatementsExact | enforcer/ksm/ksm_import.c:519-702 | pair by pair what prepare, rollback and commit write, for one repository and for all; after a commit nothing is pending in its scope |
| Backup.PrepareThenCommit | enforcer/ksm/ksm_import.c:519-702 | after a prepare and a commit every pair in both scopes has a backup, dated by the commit unless it had one, and a pair outside gets none |
| BackupHistory.ActivatedIsBackedUp | enforcer/ksm/ksm_request.c:1134-1195 | a ZSK that a request makes active has a backup if its repository requires one |
| BackupHistory.SignerWasBackedUp | enforcer/ksm/ksm_import.c:550-698 | in every run, sharing allowed, such a ZSK was covered by a prepare and a later commit with no rollback of its repository between, and existed at the prepare |
| BackupHistory.BackedUpIff | enforcer/ksm/ksm_import.c:519-702 | in every run without backups at the start, sharing allowed, a pair has a backup if and only if it was there at a prepare of its repository or of all, and such a commit came later with no rollback of its repository between |
| BackupHistory.LateKeyNotCommitted | enforcer/ksm/ksm_import.c:685-698 | in every run, sharing allowed, a pair created only after the prepares of its repository has no backup, whatever was committed since |
| Keygen.Clamp | enforcer/enforcerd/enforcer.c:414-425 | exactly the keys wanted, or as many as there is room for in a limited repository |
| Keygen.MakeKeys | enforcer/enforcerd/enforcer.c:427-466 | each new pair has its key in the module, adds one still-good key of its own kind and no other, and fails exactly when the algorithm is unsupported or the module runs out |
| Stock.StillGoodAdd | enforcer/ksm/ksm_key.c:734-834 | an unallocated pair counts once as still good for its own specification at every horizon, and for no other |
| Stock.StillGoodMeans | enforcer/ksm/ksm_key.c:734-834 | the count is that of the fitting pairs without a row, and of the rows of fitting pairs in the seven states that do not retire by the horizon |
| Stock.PairsCoverLines | enforcer/enforcerd/enforcer.c:406-409 | the still-good lines divided by the number of zones are no more than the pairs that are good in some zone or free |
| Keygen.GenerateKind | enforcer/enforcerd/enforcer.c:394-466 | one key type: with room left exactly what is needed beyond the queue is made, and what is needed is there, in lines without sharing and in pairs with it |
| Keygen.GenerateKeys | enforcer/enforcerd/enforcer.c:331-561 | no limited repository grows past its capacity, every key made is one more good line of its own kind, and a failure means an unsupported algorithm or a module that makes no more. If each zone needs x KSKs and y ZSKs (y + x when the two look the same) and there is room left, exactly what is missing is made and there is enough: without sharing x and y still-good lines for every zone; with sharing x and y good pairs for all, if the pairs are in no more zones than the policy has |
| Keygen.PurgeKeys | enforcer/enforcerd/enforcer.c:1430-1599 | success if and only if the module gives up every purgeable key, and then exactly the purgeable pairs, their rows and their keys are gone; on failure a part of them |
| Keygen.PurgeExact | enforcer/enforcerd/enforcer.c:1462-1581 | a pair goes if and only if it is of the policy, has a row, and all its rows are dead since at least the interval; no row is left without a pair, and every zone is issued exactly the keys it was issued before |
| Keygen.TakeTurns | enforcer/enforcerd/enforcer.c:204-242 | over any number of turns of generation and purge no limited repository outgrows its capacity and no zone loses an issued key; only a failing generation ends them; after them every policy with unlimited repositories still has what its zones need, and no pair is left that a turn's purge would take, if the modules give up all keys |
| Keygen.GenerateInTurn | enforcer/enforcerd/enforcer.c:227-230 | after a policy's generation it has what its zones need, and no policy has less, or more to purge, than before |
| Keygen.PurgeInTurn | enforcer/enforcerd/enforcer.c:235-238 | the purge takes nothing that a zone is issued or a policy needs, and leaves nothing that it would take again |
| Base64.InitializeReverseMap | common/b64_pton.c:142-169 | the map inverts the alphabet and classifies every other byte as space, end or invalid |
| Base64.AlphabetWrittenOut | common/b64_pton.c:58-60 | the first half of the alphabet, the pad character and whitespace as numbers |
| Base64.AlphabetWrittenOn | common/b64_pton.c:58-60 | the second half of the alphabet as numbers |
| Base64.Encode | common/b64_ntop.c:124-181 | the text and its NUL if the target can hold them, else -1 |
| Base64.QuantumBits | common/b64_ntop.c:137-140 | the four digits of a quantum, side by side, are its 24 bits |
| Base64.EncodedGroup | common/b64_ntop.c:131-152 | every three bytes become the four letters of their quantum |
| Base64.EncodedEnd | common/b64_ntop.c:154-176 | one or two bytes that are left become two or three letters and pad characters up to four |
| Base64.PutDigit | common/b64_pton.c:196-230 | one digit merged in place: fails exactly when the target has no room, else complete bytes and left-over bits are those of the digits so far |
| Base64.Decode | common/b64_pton.c:171-285 | the result for the text without whitespace, and on success the decoded bytes in the target |
| Base64.DecodedLength | common/b64_pton.c:288-378 | the result of the length-only form |
| Base64.Decoder.Pton | common/b64_pton.c:381-391 | a text is accepted if and only if, without whitespace, it is the encoding of bytes that the target holds, and those bytes are then in the target; without a target the length form's result |
| Base64.RoundTrip | common/b64_ntop.c:124-181 | decoding the encoding of any byte string gives it back, and succeeds if and only if the target has n bytes, n + 1 if padded |
| Base64.Canonical | common/b64_pton.c:171-285 | a text is accepted if and only if it is, without whitespace, the encoding of some bytes that fit, and those are the result |
| Base64.AcceptsEncodings | common/b64_pton.c:238-282 | well padded and without stray bits if and only if it is an encoding |
| Base64.EncodingInjective | common/b64_ntop.c:124-181 | different byte strings have different encodings |
| Base64.LengthAgrees | common/b64_pton.c:266-378 | the length form returns what the full form returns, and with r + 1 bytes of room the full form fails only on stray bits |
| Pin.StepInv | libhsm/src/lib/pin.c:106-412 | every step of every process keeps the invariant |
| Pin.RunInv | libhsm/src/lib/pin.c:229-412 | every reachable state satisfies it, and no step reads or writes outside a slot or a PIN buffer |
| Pin.MutualExclusion | libhsm/src/lib/pin.c:106-178 | once initialised the semaphore's value plus its holders is one, whoever touches a slot is the only holder, and between calls a process has unlocked as often as it has locked |
| Pin.SavedPinIsRead | libhsm/src/lib/pin.c:270-324 | in every run a saved PIN is found and returned by later first reads of its slot until a save or removal there completes |
| Pin.CallOutcome | libhsm/src/lib/pin.c:229-412 | in every run, what a call returns: a found PIN is one that the slot held during a first call; an entered one is what the user typed, cut to 255 characters, when the slot was empty or emptied by a retry; a save puts the process's PIN in the slot and wipes its own copy; nothing is returned only on a refusal, or for a check when the slot was empty or emptied; a bad slot or no repository is refused at once |
| Pin.TypedPinIsReturned | libhsm/src/lib/pin.c:286-324 | in every run the text that the user types at a prompt is the PIN that the call returns, cut to 255 characters |
| Pin.TypedPinIsRead | libhsm/src/lib/pin.c:229-324 | in every run a text that is typed and then saved by that process is what later first reads of the slot return, whoever makes them, until a save or removal there completes |
| Pin.StrPadded | libhsm/src/lib/pin.c:299-303 | a zeroed buffer with the text copied into it holds the text, cut to 255 characters |
| Duration.ParseInLibrary | enforcer/ksm/datetime.c:928-1081 | the loop computes the result of the scan over the characters, with the status and sign rules of the library |
| Duration.ParseInChecker | enforcer/utils/kc_helper.c:868-1021 | the same for the checker's copy with its 16-bit warning |
| Duration.WellFormedDuration | enforcer/ksm/datetime.c:928-1081 | unless 64 bits overflow, the interval of a well-formed duration is the signed sum of its years of 365 days, months of 31 days, weeks, days, hours, minutes and seconds, with a warning if and only if it has a year or a month, given if and only if it fits and no number comes after the sum reached INT_MAX; below INT_MAX always |
| Duration.AcceptedIsShaped | enforcer/ksm/datetime.c:928-1081 | only texts of digits, units and T with a digit between units are given an interval, none of these is refused as malformed, and the others are, unless a number begins after the sum has left the range of an int |
| Duration.ScanCounts | enforcer/utils/kc_helper.c:905-960 | a scan that does not end early has counted two for every Y and one for every M before T in the text |
| Duration.CopiesAgree | enforcer/utils/kc_helper.c:868-1021 | same interval and same errors on all texts, and on accepted ones the same sign of the status if and only if the number of approximations in the text is zero or leaves 1 to 32768 modulo 65536 |
| Duration.CopiesAgreeOnShortTexts | enforcer/utils/kc_helper.c:868-1021 | texts of up to 32768 characters get the same status apart from the coding of the warning |
| Duration.CopiesDiffer | enforcer/utils/kc_helper.c:915-1011 | texts on which the library warns and the checker does not |
| Duration.PrintedIsParsed | enforcer/ksm/datetime.c:678-807 | printing any 32-bit interval into 13 characters or more and parsing it gives it back |
| Duration.ShortFormIsExactIff | enforcer/ksm/datetime.c:678-755 | a number and a suffix parse to their product if and only if the product fits an int, always with status 0 |
| Duration.ShortFormRefuses | enforcer/ksm/datetime.c:678-755 | which texts are refused with which status |
| Duration.NumberIsRead | enforcer/ksm/string_util2.c:508-528 | a number is read with a sign and whitespace around it if and only if it fits an int |
| Parameters.ParameterStore.EnableCache | enforcer/ksm/ksm_parameter.c:390-398 | after turning the cache on no read is answered from it before the table was read again, so that what it offers is current for every table; a call that asks for the setting there is changes nothing |
| Parameters.ParameterStore.Collect | enforcer/ksm/ksm_parameter.c:400-488 | a hit copies the cache; a miss fills field by field, leaves unset fields alone, stops at an error, and is cached only on success |
| Parameters.CollectedFields | enforcer/ksm/ksm_parameter.c:415-478 | without errors each field gets its own parameter's value, or keeps what the caller had |
| Parameters.ErrorStops | enforcer/ksm/ksm_parameter.c:415-488 | the first parameter that cannot be read ends the read with its status; the fields before it are filled, the others and the cache are as before |
| Parameters.ReadsAreDirect | enforcer/ksm/ksm_parameter.c:385-488 | in every sequence of calls with all parameters set and the table fixed while the cache is on, each read equals a direct read |
| Parameters.UnsetIsRemembered | enforcer/ksm/ksm_parameter.c:410-485 | a cached second read equals a direct read if and only if both callers' memory agrees on the parameters that are not set |

## Left out

- SQL text, database drivers, transactions that fail to commit, and locking of the database: only the effect of the statements on the tables is modelled.
- XML and zone list reading, writing and renaming of files, calling the signer, logging, daemonising.
- PKCS#11, ldns and the HSM tools: a repository is a set of keys.
- The signer adapters: their logic lives in the zone database.
- Parsing of dates with strptime, and the string helpers: library functions or simple.
- Requests for all zones (zone_id -1): selection and update conditions differ there.
- Removal of zones (`KsmMarkKeysAsDead`, `KsmKillKey`) and import of keys: after the first no statement about the zone is meant, and the second may bring in any state.
- The roll command: a statement too long for its buffer, and a selection that changes while the loop reads it.
- `ds-seen` and the retirement of the old KSK are events of the runs with the effect of enforcer/utils/ksmutil.c:7737-7952, without the search for the key and the user's confirmation.
- Liveness: that a run contains enough requests, or that a waiting process is ever scheduled.
- Failing `semop`, `logout` and processes killed while they hold the semaphore.
- KeyStore.KeyStore.UpdateKeyTime: INT_MAX - 1 for an endless lifetime is modelled, overflow of interval sums beyond 32 bits is not.
- Keygen.PurgeKeys: the pairs are visited in the order of their ids; the statement leaves the order open.
- Interval pointers that are NULL (status 4) in the duration parsers; an empty text is modelled.
