# Kirka, verified

A model in Dafny of the parts of Kirka, a mining calculator and farm monitor, whose correctness spans
several operations or whole runs: PRO entitlement, refresh-token rotation and QR login, the catalog
import, the energy reports, the farm charts, the filters and tables of the site, the history pages, the
alert throttle and the profit calculator.

`dafny verify dfyconfig.toml` checks all of it.

## How it is built

| files | what they hold |
|---|---|
| `Billing.dfy`, `BillingEffects.dfy`, `Ledger.dfy` | the users and subscriptions tables as values with one function per operation, and what each operation changes in the terms of the request; beside them a ledger that knows only the price list and the periods sold, without flags, expiry columns or rows |
| `Entitlement.dfy`, `EntitlementLaws.dfy`, `SweepLaws.dfy`, `Access.dfy` | every run keeps tables and ledger in step; what follows for entitlement, expiry, sweeps, retries and the manager's screen |
| `BillingService.dfy` | the operations as the program carries them out, in place, each equal to its function |
| `Auth.dfy`, `AuthSafety.dfy`, `PruneSafety.dfy`, `LiveTokens.dfy`, `QrSafety.dfy`, `AuthPromises.dfy`, `QrCompletion.dfy`, `AuthService.dfy` | tokens, blacklist, accounts and QR sessions in the same arrangement, with a log of what has happened: what never happens, and what does happen when it is asked for in time |
| `Numeric.dfy`, `CatalogRows.dfy`, `Catalog.dfy`, `CatalogSeed.dfy`, `CatalogLaws.dfy`, `CatalogCommit.dfy` | the NUMERIC check, the mapping of an entry and what its columns refuse, where each entry goes said without indexes, the loop with its two indexes, the laws of seeding, and when an import commits |
| `EnergyTree.dfy`, `EnergyHourly.dfy`, `Samples.dfy`, `ContainerChart.dfy`, `FarmHistory.dfy` | deletion of a subtree, hourly and daily energy, averages of samples, thinned charts |
| `FarmFilters.dfy`, `DataTable.dfy`, `TableOrder.dfy` | the repair of impossible filters, the options of a column, the order of the rows |
| `History.dfy`, `Alerts.dfy`, `Calc.dfy` | history pages, the alert throttle, the profit calculator |
| `Sequences.dfy`, `Sorting.dfy`, `Text.dfy`, `Floats.dfy`, `Wrappers.dfy` | filtered sequences, stable sorting, white space, double-precision rounding, `Option` and `Result` |

Conventions.

- Instants and durations are whole microseconds, the resolution of the program's timestamps; the `exp`
  claim of a token is in whole seconds (section 4.1.4 of RFC 7519).
- Each request is one atomic step on the tables, and a clock passed to it never goes back during a run.
  A run may contain any requests in any order.
- Row ids of tables without deletion are positions in a sequence.  Fresh values (session ids, `jti`
  claims, section 4.1.7 of RFC 7519) are counters; the random part of a grant's charge id is a parameter.
- Signatures, password hashes and the bot's shared secret are booleans or unforgeable records.
- A property of an operation is said twice: the operation equals its function on the tables, and the function has the
  effect that the request describes, in words that do not use the function.  Safety laws say what never happens, and
  completion laws what the program owes to a request that comes in time.
- Amounts are exact: decimals and floating-point numbers are `real`.  Rounding is modelled where it is the
  point: in the NUMERIC check, and in the chunk bounds of a container's chart, bit for bit as IEEE 754 has it.

## What the proofs found

- Somebody flagged PRO by hand without an expiry, who then buys a month, is left with that month: the promise that
  buying again never loses time holds exactly for users whose PRO has an end (`PaymentKeepsTimeIff`,
  `MonthEndsPerpetualPro`).
- A repeated payment is a no-op exactly when its payer already has an account: the account is created
  before the charge id is looked up (`RepeatIsNoOpIff`, `RepeatOpensAccount`).  All through a run retries leave
  the tables as if sent once exactly when every retry finds its payer's account (`RetriesChangeNothingIff`).
- Expired tokens are pruned from the blacklist by the microsecond, while a token is rejected by the whole second: a
  prune during a token's last second can let a spent token be used again (`PruneWithinTheSecond`).  Each `jti` is
  accepted at most once, however a run goes on from any point of it without another prune, exactly when every row
  that its prunes delete is of a token past its second or of an account whose version has moved on
  (`PruneIsHarmlessIff`, `EveryJtiOnceIff`), and the same decides whether two live tokens can come from one login
  (`OneLiveIff`, `AlwaysOneLiveIff`).  Prunes on whole seconds always qualify (`WholeSecondPrunesAreHarmless`).
- Two entries of one model in the catalog, one of which has no variant, overwrite each other when the row that the
  table has for the model without a variant is a starter row.  `EveryEntryInItsRowIff` gives the exact condition under
  which every entry keeps its row, and `ClashLosesAnEntry` a catalog that loses one.
- A figure that is not finite or too long for the decimal context, or an infinite whole number, aborts the import that the
  NUMERIC check is there to protect (`RowRaisesIff`, `LongFigureRaises`).  So does a power or a year beyond the range of
  an INTEGER column, which nothing clamps (`RowTakenIff`, `LongWholeRefused`).
- A table may hold the empty variant of a model and, in a later row, the model with no variant: the unique constraint
  tells them apart, the index does not.  An entry with the empty variant is then written to the later row and refused,
  and nothing is imported.  `CommitsIff` gives the exact condition under which an import commits, and
  `DoubledTableRefuses` a table on which it does not.
- Income per hash and income from the difficulty give the same money but, for a coin worth nothing, different
  numbers of coins (`BranchesAgreeIff`, `WorthlessCoinParts`).
- The chart of a container multiplies its chunk bounds in double precision: of 417 samples the newest is in no
  chunk (`NewestOf417IsMissed`).  The chunks are the whole series exactly when 300 steps come to its length as the
  machine multiplies them (`ProgramCoversIff`), and never miss more than that one sample (`NewestMissedAtMost`).
- A select of the shared table stores its option trimmed, so that an option with spaces around it, or an
  empty one beside others, does not list the rows it counts (`TrimmedChoiceIff`, `PaddedOptionListsNothing`).

## Model

| member | source | states |
|---|---|---|
| Entitlement.EntitledExactlyAsGranted | app/services/billing/entitlement.py:32-46 | after any run of payments, grants, revocations, reads and sweeps a user is PRO at the last step or later exactly when that instant lies in a period sold or given and not revoked; a user's periods never overlap |
| Entitlement.RunsStayInSync | app/services/billing/service.py:56-113 | every reachable store keeps the invariant behind the theorem: expiry in the future implies flag set, newest active row expiring exactly then and none later, and the same time left as in the ledger |
| Entitlement.StepKeepsSync | app/services/billing/entitlement.py:49-131 | each single request keeps that invariant at its own instant and until the next |
| Entitlement.ReachableStackingAgrees | app/services/support.py:309-312 | in every reachable store the two stacking rules, written differently, start the next period at the same instant |
| Entitlement.BasesAgree | app/services/billing/service.py:86-93 | the two rules agree on every coherent user |
| Entitlement.SweepSparesLive | app/services/billing/entitlement.py:102-111 | the sweep never clears the flag of a user whose time is not over |
| EntitlementLaws.LazyExpirationIsInvisible | app/services/billing/entitlement.py:49-66 | in every reachable store a lazy read or a sweep changes nobody's entitlement then or later, and marks expired only rows with no time left |
| EntitlementLaws.SweepIsInvisibleIff | app/services/billing/entitlement.py:84-114 | in any store at all, a sweep is invisible exactly when nobody it clears was PRO |
| BillingEffects.SweepEffect | app/services/billing/entitlement.py:84-114 | a sweep expires every active row whose time was over before and changes no other, and takes the flag from the owners of such rows who have no row with time left and from nobody else |
| SweepLaws.SweepClearsLapsed | app/services/billing/entitlement.py:84-114 | after any run a sweep leaves the flag to everybody with time left and to nobody whose time was over before, and no active row that was over before |
| SweepLaws.RunKeepsBacked | app/services/billing/service.py:95-108 | in every run whoever is flagged has an active row, the newest of which ends when the user's time does |
| BillingEffects.ReconcileEffect | app/services/billing/entitlement.py:49-66 | a read takes the flag exactly from a user whose time is over, expires that user's active rows, and changes nothing else |
| SweepLaws.ReadSettles | app/services/billing/entitlement.py:49-66 | after a read the flag is set exactly for a user who is PRO, and a user who has just lapsed has no active row |
| BillingEffects.PaymentEffect | app/services/billing/service.py:70-112 | a payment for a plan on sale under a new charge id adds one active row and moves the payer's expiry to the plan's days after the later of the old expiry and now; any other opens the account at most |
| BillingEffects.GrantEffect | app/services/support.py:302-320 | a gift, trial or manual grant of 1 to 3650 days under a free charge id does the same for a flagged user, from now for any other; anything else changes nothing |
| BillingEffects.RevokeEffect | app/services/support.py:323-330 | a revocation ends all active rows of the user and the user's PRO now, and nothing else |
| EntitlementLaws.PaymentKeepsTimeIff | app/services/billing/service.py:13-15 | paying again loses no time exactly for users whose PRO is not perpetual |
| EntitlementLaws.GrantKeepsTimeIff | app/services/support.py:302-312 | the same for a manager's grant |
| EntitlementLaws.MonthEndsPerpetualPro | app/services/billing/service.py:86-107 | a concrete user whose perpetual PRO ends a month after buying a month |
| EntitlementLaws.GrantedTimeIsSoldTime | app/services/billing/service.py:13-15 | the lengths of a user's periods sum to the days that the price list gives for what was bought and the days given, less only what revocations cut |
| Entitlement.BuysListedDays | app/services/billing/service.py:79-93 | a payment buys exactly the days that the price list gives for an active plan, and nothing of any other |
| EntitlementLaws.ChargesStayDistinct | app/services/billing/service.py:8-11 | no run ever leaves two rows with one charge id |
| EntitlementLaws.RepeatIsNoOpIff | app/api/v1/internal.py:659-682 | a payment with a recorded charge id changes nothing exactly when its payer has an account |
| EntitlementLaws.RepeatIsOnRecord | app/services/billing/service.py:70-77 | once a purchasable payment was processed, its charge id stays on record through any later requests, whoever relays it again |
| EntitlementLaws.RetriesChangeNothing | app/services/billing/service.py:8-11 | a run with repeated payments, delivered at any later times, ends in the same tables as the run without the repeats, if each repeat finds its payer's account |
| EntitlementLaws.RetriesChangeNothingIff | app/api/v1/internal.py:659-682 | all through a run the tables are as if every payment were sent once, exactly when each repeat finds its payer's account |
| EntitlementLaws.OnePayerIsEnough | app/services/billing/service.py:8-11 | so it is whenever a charge id comes from one payer only |
| EntitlementLaws.RepeatOpensAccount | app/api/v1/internal.py:659-682 | a recorded charge relayed for somebody without an account leaves an account behind |
| Access.ScreenTellsTheTruth | app/services/support.py:282-299 | in every reachable store the screen says PRO exactly when the user is PRO, with the expiry and the kind of one and the same row, and otherwise shows neither |
| Access.GrantShowsItsKind | app/services/support.py:277-279 | an accepted grant is what the screen shows next, under its own kind and expiry |
| Access.TrialUsedIff | app/services/support.py:289-299 | the screen says that the trial was used exactly if one of the user's twenty newest rows is a trial |
| Access.DaysLeftRoundsUp | app/services/support.py:291 | the days shown are the whole seconds left, rounded up |
| Access.BeforeColon | app/services/support.py:278 | the part before the first colon, or the whole text |
| Billing.FindCharge | app/services/billing/service.py:70-77 | finds a row with the charge id exactly when there is one |
| BillingService.Database.ActivateSubscription | app/services/billing/service.py:56-113 | the new tables are the specified ones and have the effect of a payment; succeeds exactly for a recorded charge or a plan on sale, and says which refusal it was |
| BillingService.Database.BillingActivate | app/api/v1/internal.py:650-697 | one payment request, account creation first; reports a repeat exactly when the charge was on record |
| BillingService.Database.GrantAccess | app/services/support.py:302-320 | the new tables are the specified ones and have the effect of a grant; refuses exactly bad kinds, bad periods and taken charge ids |
| BillingService.Database.RevokeAccess | app/services/support.py:323-330 | row by row, all active rows of the user and no others end now |
| BillingService.Database.ReconcileUser | app/services/billing/entitlement.py:49-81 | writes only when the stored flag has lapsed, and then the flag and the user's active rows; afterwards the flag is set exactly for a user who is PRO |
| BillingService.Database.ExpireSubscriptions | app/services/billing/entitlement.py:84-131 | the loop, which looks for other active rows while it marks rows, has the effect of a sweep at once, and answers the number of rows whose status changed |
| BillingService.SweepIsComplete | app/services/billing/entitlement.py:102-111 | marking due rows one by one ends in the all-at-once sweep, whatever rows one user has |
| BillingService.Database.Handle | app/services/billing/entitlement.py:49-114 | every request is the step that the run theorems speak of |
| AuthSafety.RefreshOnlyOnce | app/api/v1/auth.py:117-146 | in every run with harmless prunes `/refresh` accepts each `jti` at most once, and an accepted one is never acceptable again |
| AuthSafety.LiveTokensBounded | app/api/v1/auth.py:124-146 | never more live refresh tokens than logins and QR redemptions, and never two descending from the same one |
| AuthSafety.RunKeepsSafe | app/crud/users.py:127-160 | every run keeps spent tokens blacklisted, out of time or at an outdated version, token counts equal to logins, redemptions and refreshes, and one unspent token a family |
| PruneSafety.PruneIsHarmlessIff | app/crud/users.py:148-160 | however a run goes on after a prune, no `jti` is accepted twice, exactly when every row the prune deletes is of a token the clock rejects or of an account at another version |
| PruneSafety.PruneKeepsSafeIff | app/crud/users.py:148-160 | the invariant of every run survives a prune exactly when the prune is harmless |
| PruneSafety.EveryJtiOnceIff | app/crud/users.py:127-160 | for a whole run: from any point of it, however it goes on without another prune, each `jti` is accepted at most once, exactly when all its prunes are harmless |
| LiveTokens.OneLiveIff | app/crud/users.py:148-160 | however a run goes on after a prune, no two live refresh tokens come from one login or redemption, exactly when the prune is harmless |
| LiveTokens.AlwaysOneLiveIff | app/crud/users.py:127-160 | for a whole run that begins with nothing: from any point of it, however it goes on without another prune, no two live refresh tokens come from one login or redemption, exactly when all its prunes are harmless |
| LiveTokens.RunKeepsFamilies | app/api/v1/auth.py:137-146 | in every run, whatever its prunes, each login or redemption has an unspent refresh token that outlives its others |
| PruneSafety.RevokedStaysRefused | app/crud/users.py:127-145 | a blacklisted `jti` keeps its row and first expiry through any requests until a prune after that expiry, and so long no token that carries it is accepted |
| PruneSafety.PruneWithinTheSecond | app/crud/users.py:148-160 | a run in which a prune lets one token be accepted twice |
| AuthSafety.WholeSecondPrunesAreHarmless | app/crud/users.py:154-158 | prunes on whole seconds are always harmless |
| AuthSafety.PasswordChangeEndsFamilies | app/crud/users.py:89-93 | after a password change no refresh token issued before, nor any rotated from one, is acceptable in any later state |
| AuthPromises.NewPasswordEndsFamilies | app/api/v1/auth.py:201-218 | the same after a password change or a confirmed reset, as requests |
| AuthPromises.RunIsRightlyIssued | app/api/v1/auth.py:80-107 | in every run each access token names an account in whose name somebody logged in or redeemed a session, at the version the account had then, and each reset token an account at a version it has had |
| AuthPromises.ReachableIsRightlyIssued | app/core/security.py:29-46 | so it is in every run that begins with nothing, and only issued tokens are blacklisted |
| AuthPromises.TokenLasts | app/api/v1/auth.py:117-146 | after any login, rotation or redemption `/refresh` accepts the refresh token handed out for fourteen days, whatever else happens, unless it is presented before or the account changes its password or is suspended |
| AuthPromises.ResetWorks | app/api/v1/auth.py:184-218 | for thirty minutes, whatever else happens, a requested reset token changes the password of that account and nothing else |
| AuthSafety.RunKeepsTokens | app/core/security.py:29-46 | every issued token carries its own `jti` and the version of its family, and versions never go down |
| AuthSafety.AcceptedIsUnspent | app/api/v1/auth.py:120-135 | whatever `/refresh` accepts was issued by the program and has not been spent |
| QrSafety.RedeemedOnceInTimeByApprovedUser | app/api/v1/qr_auth.py:71-117 | in every run a QR session hands out tokens at most once, before its deadline, and to the user bound at approval |
| QrSafety.FinalSessionsNeverRedeem | app/api/v1/qr_auth.py:85-95 | consumed and expired sessions keep their status and never hand out tokens again |
| QrSafety.RunMovesForward | app/api/v1/qr_auth.py:170-189 | in every run the status of a session only moves forward, and its deadline and bound user do not change afterwards |
| QrSafety.RunKeepsSessions | app/api/v1/qr_auth.py:97-115 | the invariant of sessions, approvals and redemptions over every run |
| QrSafety.ApprovalBindsTelegramUser | app/api/v1/qr_auth.py:181-189 | approval binds the account of the Telegram user that the bot named, and creates it only if there was none |
| QrCompletion.QrLoginCompletes | app/api/v1/qr_auth.py:50-189 | a session approved by the bot and polled within 120 seconds of its start hands its tokens to the Telegram user's account, whatever requests come between, unless they approve it for somebody else, poll it first or suspend the account |
| QrCompletion.BotLinkCompletes | app/api/v1/qr_auth.py:192-223 | a link from the bot does the same for thirty minutes |
| AuthService.Endpoints.Login | app/api/v1/auth.py:89-107 | hands out a pair of that account, at its version and for the documented times, exactly for a right password and an active account; an inactive account is told apart only behind a right password |
| AuthService.Endpoints.Refresh | app/api/v1/auth.py:117-146 | accepts exactly what the specification accepts, blacklists the presented `jti` and no other, and hands out a pair of the token's own account |
| AuthService.Endpoints.Issue | app/core/security.py:36-46 | an access token for an hour and a refresh token for fourteen days with a `jti` of its own, both of the account and at its version |
| AuthService.Endpoints.UpdatePassword | app/crud/users.py:87-99 | bumps the version of that account and nothing else |
| AuthService.Endpoints.Register | app/crud/users.py:66-77 | a new active account at version nought, and no change to any other |
| AuthService.Endpoints.SetActive | app/crud/users.py:87-99 | the account is active or suspended as asked, at the same version |
| AuthService.Endpoints.ConfirmPasswordReset | app/api/v1/auth.py:201-218 | bumps the account's version exactly for a genuine reset token in time of an existing account |
| AuthService.Endpoints.RequestPasswordReset | app/api/v1/auth.py:184-198 | a reset token at the account's version, exactly if there is the account, and no other change |
| AuthService.Endpoints.PruneRevokedTokens | app/crud/users.py:148-160 | deletes exactly the rows past their expiry, keeps the others as they are, and counts |
| AuthService.Endpoints.GetOrCreateTelegramUser | app/crud/users.py:26-54 | the account of the Telegram user, created active at the first call and unchanged at later ones |
| AuthService.Endpoints.StartQrSession | app/api/v1/qr_auth.py:50-68 | a fresh pending session with a deadline 120 seconds ahead, and no other change to the sessions |
| AuthService.Endpoints.QrSessionStatus | app/api/v1/qr_auth.py:71-117 | tokens of the bound account exactly for an approved session in time of an active account, expired exactly when the deadline is reached, and the status otherwise |
| AuthService.Endpoints.ApproveQrSession | app/api/v1/qr_auth.py:120-189 | exactly a pending session in time is approved, for the account of the named Telegram user; every refusal leaves the tables as specified |
| AuthService.Endpoints.BotLoginLink | app/api/v1/qr_auth.py:192-223 | a session approved from the start for the bot's user, good for thirty minutes |
| AuthService.Endpoints.Handle | app/api/v1/auth.py:89-218 | every request, of any kind, is the step that the run theorems speak of |
| CatalogCommit.CommitsIff | app/db/seed_catalog.py:176-233 | on any table that keeps the unique constraint, the import commits exactly when every entry is storable and no entry with an empty variant meets an earlier row like it that a row without a variant comes after |
| CatalogCommit.UniqueThroughoutIff | app/db/models.py:182-189 | the unique constraint holds after every single write exactly under the second of these conditions |
| CatalogCommit.DistinctRowsNeverDoubled | app/db/models.py:182-189 | which every table that holds no key twice meets |
| CatalogCommit.DoubledTableRefuses | app/db/seed_catalog.py:189-222 | a table and an entry that clash in nothing, and an import that the unique constraint refuses |
| CatalogCommit.CommittedEntriesPlacedIff | app/db/seed_catalog.py:206-229 | after an import that committed, with distinct catalog keys, every entry is in the row it went to exactly when the catalog does not clash with the table |
| CatalogCommit.CommittedEntriesHoldFields | app/db/seed_catalog.py:127-229 | after an import that committed without a clash, the row that each entry went to holds in every column the entry's own field |
| CatalogCommit.WrittenRowsHoldFields | app/db/seed_catalog.py:204-229 | after any import that committed, every row written holds the fields of the last entry that went there |
| CatalogCommit.SameKeyIff | app/db/seed_catalog.py:206-212 | entries are told apart exactly by brand, model and variant, a missing variant counting as an empty one |
| CatalogCommit.SecondImportChangesNothing | app/db/seed_catalog.py:1-17 | after an import that committed without a clash the same import commits again, inserts nothing and leaves the table identical |
| CatalogLaws.EveryEntryPlacedIff | app/db/seed_catalog.py:206-229 | in a table that holds no key twice, the same decides whether every entry is anywhere in it |
| CatalogLaws.ClashLosesAnEntry | app/db/seed_catalog.py:212-217 | a table with a starter row and a catalog of two entries of which only one survives |
| CatalogLaws.UnmixedCatalogNeverClashes | app/db/seed_catalog.py:197-217 | a catalog that never lists a model both with and without a variant cannot clash with any table |
| CatalogLaws.IndexFindsRowIff | app/db/seed_catalog.py:197-229 | all through the loop, for any table, the in-memory index has the key of every row and points to that very row exactly if an entry wrote it or it was the last with its key |
| CatalogLaws.IndexFindsEveryRow | app/db/seed_catalog.py:197-229 | so in a table that holds no key twice it finds every row |
| CatalogLaws.RowsStayDistinct | app/db/seed_catalog.py:206-229 | no two rows ever come to hold one key |
| CatalogLaws.OtherRowsUnchanged | app/db/seed_catalog.py:212-222 | rows neither matched nor adopted stay as they were |
| CatalogLaws.OtherColumnsUnchanged | app/db/seed_catalog.py:220-222 | columns that seeding does not write survive |
| CatalogSeed.DeviceModels.SeedCatalog | app/db/seed_catalog.py:176-233 | commits the specified table, whose rows hold the entries' fields by `CommittedEntriesHoldFields`, exactly when every entry can be mapped and every write is taken, and otherwise changes nothing; inserted and updated add up to the entries, and the table grows by inserted |
| CatalogSeed.UpsertAll | app/db/seed_catalog.py:204-229 | the loop with its two indexes, entry by entry, equals the table said without indexes, and stops exactly at an entry that cannot be mapped or written |
| CatalogSeed.Upsert | app/db/seed_catalog.py:212-229 | one turn of the loop: table, indexes and counters, or a refusal exactly when the row would repeat another |
| CatalogSeed.Snapshot | app/db/seed_catalog.py:189-202 | the two indexes of the table as it stands, the later row winning |
| CatalogSeed.ChosenTarget | app/db/seed_catalog.py:212-217 | the two lookups find the row that the index-free description assigns to the entry |
| CatalogRows.RowFitsColumns | app/db/seed_catalog.py:127-173 | no NUMERIC column refuses a mapped figure, and no figure that fits is lost |
| CatalogRows.ColumnsHoldFields | app/db/seed_catalog.py:127-173 | when mapping succeeds every column holds its own field: brand, model, variant, power, year, passport, the texts with their defaults, and each figure its column takes, the efficiency for terahashes only |
| CatalogRows.IsThsIff | app/db/seed_catalog.py:98-99 | a unit is terahashes exactly if it reads TH/s in upper or lower case with white space around it |
| CatalogRows.RowRaisesIff | app/db/seed_catalog.py:127-173 | mapping an entry raises exactly when a figure that reaches the check is not finite or too long for the decimal context, or a whole number is infinite |
| CatalogRows.RowTakenIff | app/db/models.py:190-222 | the columns take a mapped row exactly when its power and year are in the range of an INTEGER and its texts are storable, whatever its figures |
| CatalogRows.StorableIff | app/db/seed_catalog.py:127-173 | an entry can be mapped and its values stored exactly under conditions on its figures, whole numbers and texts alone |
| CatalogRows.LongWholeRefused | app/db/models.py:199 | an entry of three billion watts is mapped as it is and refused |
| CatalogRows.LongFigureRaises | app/db/seed_catalog.py:163-172 | an entry with a figure too long for 28 digits, and one with a figure that is not a number, both abort the import |
| CatalogRows.SanitizedKeepsWhatFits | app/db/seed_catalog.py:102-124 | what the column takes is kept unchanged and nothing else is kept |
| Numeric.FitsNumericMirrorsColumn | app/db/seed_catalog.py:88-95 | rounding half to even and comparing passes exactly the values the column takes: those less than half a unit below the limit |
| Numeric.FitsNumericRaisesIff | app/db/seed_catalog.py:94-95 | the check raises exactly for values that are not finite or whose rounding needs more digits than the context has |
| Numeric.RoundingsPassTheSame | app/db/seed_catalog.py:88-95 | rounding half to even and half away from zero differ on values but never on whether the limit is reached |
| EnergyTree.NodeTable.Subtree | app/api/v1/energy.py:243-247 | ends on any parent graph, cycles included, with exactly the nodes that can be reached downward |
| EnergyTree.NodeTable.DeleteNode | app/api/v1/energy.py:238-251 | deletes exactly those nodes, keeps the others as they are, and counts them |
| EnergyTree.NoOrphans | app/api/v1/energy.py:243-249 | no surviving node has a deleted parent |
| EnergyTree.CyclesGoTogether | app/api/v1/energy.py:243-247 | deleting any node of a cycle deletes the same set |
| EnergyHourly.HourlyReport | app/api/v1/energy.py:111-141 | a point for every hour or day with a selected reading and no other, in order; each bucket and each meter's part is the sum of its readings; total, average and first peak; refused exactly when the period ends before it begins |
| EnergyHourly.SelectsIff | app/api/v1/energy.py:117-126 | a report takes exactly the readings of its meters whose Moscow day lies within the period, both ends included |
| EnergyHourly.KeyIff | app/api/v1/energy.py:129-130 | a bucket is exactly one day of Moscow, or one hour of its clock |
| EnergyHourly.SeriesConserves | app/api/v1/energy.py:127-134 | the points of a report add up to the selected readings |
| EnergyHourly.BucketsAddUp | app/api/v1/energy.py:127-132 | buckets over distinct keys add up to the selected readings |
| EnergyHourly.PartsAddUp | app/api/v1/energy.py:131-132 | a bucket is the sum of its meters' parts |
| EnergyHourly.DayIsItsHours | app/api/v1/energy.py:129-130 | a day's bucket is its twenty-four hours' buckets regrouped by Moscow day |
| EnergyHourly.PeriodsAddUp | app/api/v1/energy.py:118-121 | adjacent periods add up to the period they make together |
| EnergyHourly.Accumulate | app/api/v1/energy.py:127-132 | the accumulating loop holds a bucket and its parts exactly for the keys and meters seen |
| EnergyHourly.TotalAndPeak | app/api/v1/energy.py:135-136 | the sum of the series and the first of its highest points |
| ContainerChart.ChunksCoverIff | app/api/v1/farm.py:352-355 | for any growing bounds the 300 chunks put end to end are the series exactly when the last bound reaches its end |
| ContainerChart.ProgramBoundsGrow | app/api/v1/farm.py:352-355 | the bounds, multiplied in double precision, grow for every length over 400, so that no chunk is empty |
| ContainerChart.ProgramCoversIff | app/api/v1/farm.py:352-355 | for those bounds the chunks are the series exactly when 300 machine steps come to its length |
| ContainerChart.NewestMissedAtMost | app/api/v1/farm.py:352-355 | the last machine bound is the length or one less |
| ContainerChart.NewestOf417IsMissed | app/api/v1/farm.py:352-355 | for 417 samples it is 416 |
| ContainerChart.ExactChunksCoverSeries | app/api/v1/farm.py:352-355 | in exact fractions the chunks of any series of more than 400 points are the series |
| Floats.DoubleIsNear | app/api/v1/farm.py:352-355 | a double is off by one part in two to the fifty-third at most |
| ContainerChart.ChunkAt | app/api/v1/farm.py:354-355 | for any growing bounds every chunk is a non-empty slice, so that the stand-in for an empty one is never used |
| ContainerChart.ThinningConserves | app/api/v1/farm.py:356-358 | the averages, counted as often as they stand for, add up to the series up to the last bound, and to all of it when that reaches the end |
| ContainerChart.ThinnedInOrder | app/api/v1/farm.py:357 | the thinned points are strictly in order of time |
| ContainerChart.ThinnedIsMedian | app/api/v1/farm.py:357 | a thinned point is at the time of the middle sample of its chunk |
| ContainerChart.ThinnedOfOne | app/api/v1/farm.py:357-358 | a chunk of one sample shows that sample's own figures, nought for a missing one |
| ContainerChart.ContainerHistory | app/api/v1/farm.py:344-359 | up to 400 points as they are, otherwise the averages of the 300 chunks at the machine's bounds, in order |
| Samples.MeanBetween | app/api/v1/farm.py:397-401 | an average lies between the least and the greatest of its samples |
| FarmHistory.History | app/api/v1/farm.py:362-402 | one point in the middle of every slot that holds a sample, averaging exactly the samples of the slot; refused exactly for the periods that are refused |
| FarmHistory.DaysSelect | app/api/v1/farm.py:368-374 | calendar days take in exactly the samples whose Moscow day is among them |
| FarmHistory.HoursSelect | app/api/v1/farm.py:375-380 | hours counted back from now take in exactly the samples since, between one hour and four hundred days |
| FarmHistory.RefusedIff | app/api/v1/farm.py:371-372 | a period is refused exactly if it is none or more than four hundred days |
| FarmHistory.WidthOfPeriod | app/api/v1/farm.py:387 | five hours and more are cut into 300 slots, a shorter period into minutes |
| FarmHistory.PointIsNear | app/api/v1/farm.py:391-400 | no sample is more than half a slot away from the point that averages it |
| FarmHistory.PointOfOne | app/api/v1/farm.py:391-401 | a slot with one sample shows that sample's own figures |
| FarmHistory.FillSlots | app/api/v1/farm.py:388-396 | the accumulating loop holds count and sums of exactly the samples of each slot |
| FarmHistory.PointsUpToLatest | app/api/v1/farm.py:387-402 | for any samples, never more points than there are slots from the start of the period to the latest sample |
| FarmHistory.AtMost301Points | app/api/v1/farm.py:387-402 | whatever the samples, every point after the 301st is of a slot that begins after the end of the period, so that there are at most 301 unless a period counted back from now has samples from the future |
| FarmHistory.PointsInOrder | app/api/v1/farm.py:398-401 | the points are at strictly increasing times |
| FarmHistory.ChartConserves | app/api/v1/farm.py:391-399 | every sample is counted in exactly one point, and counts times averages add up to the samples |
| FarmFilters.Filters.Repair | frontend/farm.js:541-547 | one pass leaves the first of the whole choice, the choice without its container, and nothing that some device satisfies; both counts are those of the repaired filter |
| FarmFilters.Filters.RepairErrors | frontend/farm.js:631-639 | the class is kept exactly when some device has it, then the same repair among the devices with such problems |
| FarmFilters.PassesIff | frontend/farm.js:541-542 | a device is listed exactly if it passes the other filters, its container reads as chosen and it is of the chosen model |
| FarmFilters.BesideIff | frontend/farm.js:544 | the devices counted beside an option are those listed once it is chosen, except devices outside any container |
| FarmFilters.HasProblemIff | frontend/farm.js:633-646 | a device is counted exactly when the problem list has a line about it |
| FarmFilters.RepairIsFixpoint | frontend/farm.js:546-547 | a second pass changes nothing |
| FarmFilters.KeptChoiceHasDevices | frontend/farm.js:543-548 | whatever choice is left, the list is not empty and the chosen options have a positive count |
| FarmFilters.UnchangedIff | frontend/farm.js:546-547 | the pass changes nothing exactly when nothing is chosen or some device satisfies the whole choice |
| FarmFilters.NothingDroppedInVain | frontend/farm.js:546-547 | the container is dropped only for an impossible choice, the model only if it stays impossible without the container |
| FarmFilters.Tally | frontend/farm.js:544 | an option for every non-empty key of a counted device, with the number of such devices |
| FarmFilters.ClassCounts | frontend/farm.js:630-631 | for every class the devices with a problem of it, each counted once however many problems it has |
| FarmFilters.KeptClassHasDevices | frontend/farm.js:632 | a class that stays chosen has a positive count, and a second pass keeps it |
| DataTable.CountIsLengthAfterChoosing | frontend/farm.js:899-917 | the count beside a non-empty option is the length of the list after choosing it, whatever other filters are set |
| DataTable.ChoosingNarrows | frontend/farm.js:899-907 | choosing an option lists exactly the rows that were counted and read so |
| DataTable.TypingNarrows | frontend/farm.js:899-907 | typing above a column lists exactly the rows that pass the other filters and match what was typed |
| DataTable.NoFilterListsAll | frontend/farm.js:899-907 | without filters every row is listed |
| DataTable.RowReads | frontend/farm.js:904 | a row is found under its own text, and without a value under the dash |
| DataTable.TrimmedChoiceIff | frontend/farm.js:949 | with the option trimmed before it is stored, the list is the counted rows exactly when trimming changes nothing, or empties the only option |
| DataTable.PaddedOptionListsNothing | frontend/farm.js:949 | a table whose option counts one row and lists none |
| Text.TrimmedIff | frontend/farm.js:949 | trimming changes nothing exactly when the text neither begins nor ends with white space |
| Text.TrimBares | frontend/farm.js:949 | trimming takes off exactly the white space at both ends |
| DataTable.OptionsAddUp | frontend/farm.js:917 | the counts of all options add up to the rows that pass every other filter |
| DataTable.SelectOptions | frontend/farm.js:917 | an option for every value among those rows, with their number |
| TableOrder.EveryRowOnce | frontend/farm.js:908-911 | every row is shown once, whatever the comparison of values |
| TableOrder.RowsInOrder | frontend/farm.js:908-911 | by a consistent comparison the rows are in order of the column, ties in their original order |
| TableOrder.ValuesInOrder | frontend/farm.js:910 | the smaller of two values is above, in descending order the greater, and of rows that tie the one that was above |
| TableOrder.AnySortAgrees | frontend/farm.js:910 | any stable sort by that comparison gives this order |
| TableOrder.MissingLastBothWays | frontend/farm.js:910 | rows without a value come last and in the same order whether ascending or descending |
| History.PagesAreTheHistory | app/api/v1/internal.py:326-338 | for every page size, the pages from the first to the last are the runs in view, newest first, each once |
| History.VisibleInOrder | app/crud/calc.py:119-127 | the runs in view are strictly in descending order of time and number |
| History.InViewIff | app/crud/calc.py:14-26 | in view are exactly the user's own runs, all of them on PRO or without a limit, otherwise those of the last days |
| History.ServerAndBotAgree | bot/history_format.py:103-118 | for every page size, server and bot agree on the page shown and on the last page, and a page is empty only if the history is |
| History.PageIsSlice | app/crud/calc.py:106-127 | for every page size, a page is the slice of the visible list at its place, and the total is the list's length |
| History.NumbersArePlaces | bot/history_format.py:156-161 | for every page size, the number beside an item is its place in the whole list, so that numbers run from 1 to the total once each |
| History.ListScreen | bot/history_format.py:156-162 | every item of the page in order, with its number for the given page size |
| History.TruncatedIff | app/api/v1/internal.py:340-343 | the hint about hidden runs appears exactly when the window hides a run of this user |
| History.WindowLosesTheEnd | app/crud/calc.py:14-26 | as time passes the window only loses the end of the list, so that pages keep their place |
| History.OpensIffListed | app/crud/calc.py:130-148 | for every page size, a run can be opened exactly when it is on some page |
| Alerts.AlertThrottle.Allow | bot/alerts.py:96-103 | with a clock that does not go back, lets an alert through exactly when every alert of its key since the last reset is at least the interval away, and remembers it |
| Alerts.AlertThrottle.Reset | bot/alerts.py:105-110 | the alerts of the named key, or of all, are forgotten and those of every other key kept |
| Alerts.SentAreSpaced | bot/alerts.py:84-86 | in every run, alerts of one key not parted by a reset are at least the interval apart |
| Alerts.PermittedIff | bot/alerts.py:98-103 | an alert goes out exactly when every alert of its key since the last reset is at least the interval away |
| Alerts.WindowIsBounded | bot/alerts.py:84-86 | a window of any length holds at most the length over the interval, rounded down, and one more alerts of a key |
| Alerts.KeysAreIndependent | bot/alerts.py:99-102 | the alerts of a key are those of its own calls alone |
| Calc.WholeNetworkEarnsAllBlocks | app/services/calc/core.py:163-177 | a device with the hashrate of a whole network, at ten minutes a block, earns the reward of 144 blocks a day |
| Calc.FeeIsDeducted | app/services/calc/core.py:178-180 | what is paid out and the fee make up the income, and for a fee of 0 to 100 per cent neither is negative |
| Calc.EnergyScales | app/services/calc/core.py:182-184 | the energy of a day is 24 hours of each device's power for its share of the time |
| Calc.OutcomeAddsUp | app/services/calc/core.py:185-193 | profit and power cost make up what is paid out, a month is thirty days and a year 365, and pay-back days are given exactly for a known cost and a positive profit |
| Calc.ProfitableBelowBreakEven | app/services/calc/core.py:183-197 | profit is positive exactly below the break-even price and nought exactly at it |
| Calc.BreakEvenIgnoresFleet | app/services/calc/core.py:178-197 | the break-even price depends neither on the number of devices nor on their uptime |
| Calc.BreakEvenOfOneDevice | app/services/calc/core.py:195-197 | it is the income of one device at full uptime over its energy |
| Calc.BranchesAgreeIff | app/services/calc/core.py:159-177 | income per hash and income from the difficulty, when the one is what the other implies, give the same result in everything but coins, and in coins too exactly when the coin has a price or there are no coins |
| Calc.WorthlessCoinParts | app/services/calc/core.py:159-175 | a coin of price nought that is counted by the one and not by the other |
| Calc.DeltasAddUp | app/services/calc/core.py:90-127 | differences between scenarios add up along a chain and change sign backwards, that of the rounded efficiency where all devices have one |
| Calc.DeltasLeadThere | app/services/calc/core.py:90-109 | the first scenario and the differences together are the second |
| Calc.DeltaOfEfficiency | app/services/calc/core.py:84-127 | the efficiency difference is given exactly if both devices hash, and rounding moves it by one last decimal at most |
| Calc.PaysBackFrom | app/services/calc/core.py:187-193 | the profit of a number of days covers the cost exactly from the pay-back days on, and never when none are given |

## Left out

- BillingService.Database.GrantAccess: the charge id is the kind and a given text; the database's refusal of a taken one is modelled, the making of a random one is not.
- AuthService.Endpoints.Refresh: rate limits, headers and status codes are not modelled; expiry follows the token library's check, which lets a token live through the whole second named by its `exp` claim.
- AuthSafety.RefreshOnlyOnce: asks that every prune be harmless, because without that the statement is false; `EveryJtiOnceIff` shows that nothing less will do.
- AuthSafety.LiveTokensBounded: asks the same; `OneLiveIff` shows that nothing less will do for one live token a login. The bound on their number alone can outlast a harmful prune when other logins have run out.
- AuthService.Endpoints.GetOrCreateTelegramUser: the administrator flag of owners, the placeholder address and the random password are not modelled.
- CatalogRows.RowFitsColumns: reading numbers out of JSON text is not modelled; a figure arrives as a number, infinite, not a number, or missing, and the texts of an entry as texts or missing.  Every entry has a brand and a model name.
- CatalogSeed.DeviceModels.SeedCatalog: the timestamp of an updated row is not modelled; a failed import is rolled back, as the callers' transactions do.
- CatalogSeed.Snapshot: the rows arrive in the order of their ids, which the query does not ask for.
- CatalogRows.RowTakenIff: the columns are those of PostgreSQL, which production runs on; SQLite refuses less.  Its limit on the size of an indexed text is not modelled, nor are values of an unexpected JSON type.
- EnergyHourly.HourlyReport: sums are taken before the display rounds them to three decimals, and dates and meter lists arrive parsed.
- ContainerChart.ContainerHistory: the averages are exact and not rounded; only the bounds of the chunks follow double precision.
- ContainerChart.NewestMissedAtMost: for lengths below two to the fifty-first, beyond which doubles no longer count single samples.
- FarmHistory.History: its rows are the farm's totals, one for each moment; adding up the containers of a site at one moment is the query's work.
- FarmFilters.Filters.Repair: the search text, the quick filters, the class and the chosen devices are one predicate that the repair does not change; option counts are kept in a dictionary without inherited names.
- DataTable.CountIsLengthAfterChoosing: typed filters are an arbitrary predicate, and no other column shares the select's key.
- TableOrder.RowsInOrder: asks for a consistent comparison, as the language does of one; a column that mixes numbers with text, or holds what is not a number, may not have one, and then the language fixes no order.
- History.PagesAreTheHistory: all pages are taken at one instant; between instants `WindowLosesTheEnd` applies.
- Calc.DeltasAddUp: the note in words is not modelled, and the quotient behind the efficiency is exact before it is rounded to four decimals.
- The test mode that makes everybody PRO is off, and deleting an account, which deletes its rows, is not modelled.
- A payer's Telegram id and account number are one in the billing model; the auth model keeps them apart.
- `app/db/seed_firmware.py` repeats the catalog's pattern on simpler keys and would add only easier members; so would `send_out`, `summary`, `pickId`, `enModel` and the meter and reading endpoints.
- Telegram handlers, keyboards, rendering, spreadsheets, HTTP clients, migrations and the database engine.
