# Internal transfers: a verified model of the transfer protocol

This project models the core of an internal money-transfer service written in Go over
PostgreSQL. The service opens accounts, reads them back and moves money between two
accounts in one unit of work. A transfer is validated, then tried up to three times.

Each attempt does the following:
- begins a unit of work;
- locks the account with the lower id first and the higher id second;
- works out which locked row is the source;
- checks funds;
- writes both balances and appends one ledger row;
- commits.

A deferred rollback covers every other exit. Only a serialization failure is retried: the
store reports SQLSTATE 40001 somewhere on the error chain. The model also covers the
error kinds and how the HTTP layer maps them to a status, a code and a message.

Modules, one per component:

- `Money` (money.dfy): shopspring decimals as `(coef, exp)` with value `coef · 10^exp`.
  - The exponent is kept as stored, so `10.500` has exponent −3.
  - Comparison, `Add` and `Sub` rescale to the smaller exponent and are exact.
  - `IntString` spells integral amounts for messages.
- `AppErrors` (apperror.dfy): the four AppError kinds with `Code()` and `Error()`. It also
  models a Go error chain: errors wrapped with `%w`, `errors.As` for an AppError or a
  `PgError`, and `errors.Is(pgx.ErrNoRows)`.
- `Handler` (handler.dfy): `httpStatusForError`, and `mapErrorToResponse` as a (status, code,
  message) triple.
- `Store` (store.dfy): the database as a class `Database` and a unit of work as a class `Tx`.
  - `Database` holds the accounts table (`map`), the ledger (`seq`) and a fault schedule.
  - `Tx` works on its own snapshot, which `Commit` installs and `Rollback` drops.
  - Each round trip, except the deferred Rollback whose error the code ignores, takes the next
    fault off the schedule: none, a serialization failure (SQLSTATE 40001) or a failure
    without SQLSTATE.
  - A ghost log records the order of lock requests.
- `Repository` (repository.dfy): `AccountRepository` and `TransactionRepository` as classes.
  Pure functions state what each call answers for the fault it meets.
- `Transfers` (transfer_service.dfy): `TransferService` with `Transfer` (the guards and a
  `for` retry loop) and `ExecuteTransfer` (one attempt).
  - Each method is proved equal to a pure function of the store state:
    `TransferRun`/`RetryLoop` and `ExecuteAttempt` respectively.
  - The contracts of those functions carry atomicity, the single move, lock order and the
    retry rules.
- `TransferProperties` (transfer_properties.dfy):
  - conservation of the sum of all balances, and non-negativity;
  - the reference outcome with no faults;
  - exhausted retries, and retry after a conflict at commit;
  - guard order on sample amounts.
- `Accounts` (account_service.dfy): `AccountService.Create` and `GetByID` with their guards,
  as methods proved equal to pure functions.

Exhausted retries are not a separate error kind. `Transfer` ends with a plain error made
without `%w` (internal/service/transfer_service.go:76), which carries no AppError, so the
caller sees 500 with code `INTERNAL_ERROR` (`ExhaustedRetries`, `HighLoadIsInternal`).

## Model

| member | source | states |
|---|---|---|
| Money.LessThan | internal/service/transfer_service.go:106 | true exactly when the first decimal's value is below the second's, whatever their exponents |
| Money.GreaterThan | internal/service/transfer_service.go:53 | true exactly when the first value is above the second |
| Money.IsNegative | internal/service/account_service.go:29 | true exactly when the value is below zero |
| Money.Sub | internal/service/transfer_service.go:110 | the exact difference of the values, at the smaller exponent |
| Money.Add | internal/service/transfer_service.go:111 | the exact sum of the values, at the smaller exponent |
| Money.NewFromInt | internal/service/transfer_service.go:23 | a decimal of exponent 0 whose value is the integer |
| Money.IntString | internal/service/transfer_service.go:51-54 | the canonical spelling of an integer: its decimal digits with no leading zero (except for zero itself), which read back as the integer, preceded by a minus sign when it is negative |
| Money.NatStringRoundTrip | internal/service/transfer_service.go:54 | the digits printed for an amount read back as that amount |
| AppErrors.AppError.Code | internal/apperror/errors.go:27-58 | each kind's code; no AppError kind returns INTERNAL_ERROR |
| AppErrors.CodesDistinct | internal/apperror/errors.go:5-11 | the five code constants are pairwise distinct |
| AppErrors.CodeIdentifiesKind | internal/apperror/errors.go:27-58 | two AppErrors have the same code exactly when they are the same kind |
| AppErrors.AppError.Error | internal/apperror/errors.go:23-56 | not-found: the entity's name then the fixed not-found text; conflict: the fixed opening, the entity's name, the fixed closing; insufficient funds: one constant text; validation: exactly the message |
| AppErrors.Error.IsNoRows | internal/repository/account_repository.go:44 | true exactly when pgx's no-rows error is on the Unwrap chain, as errors.Is |
| AppErrors.ValidationErrorText | internal/apperror/errors.go:54-58 | a validation error's text is exactly its message, and its code is VALIDATION_ERROR |
| AppErrors.MessagesOmitIDs | internal/apperror/errors.go:23-46 | the not-found and conflict texts depend on the entity only, and the insufficient-funds text on nothing |
| AppErrors.Error.AsAppError | internal/handler/helpers.go:37-38 | errors.As finds an AppError that is on the chain, and finds none only when the chain holds none |
| AppErrors.Error.PgCode | internal/service/transfer_service.go:67-68 | the SQLSTATE found is that of a PgError on the chain, and none is found only when the chain holds no PgError |
| AppErrors.WrapKeepsKind | internal/service/account_service.go:36-38 | wrapping with %w keeps the AppError, the SQLSTATE and no-rows discoverable and prefixes the text with the context |
| AppErrors.AsAppErrorFindsFirst | internal/handler/helpers.go:37-38 | with an AppError anywhere on the chain, errors.As succeeds and returns the first one |
| Handler.HttpStatusForError | internal/handler/helpers.go:21-34 | the status is one of 400, 404, 409, 422, 500, with 400/404/409/422 exactly for VALIDATION_ERROR/NOT_FOUND/CONFLICT/INSUFFICIENT_BALANCE |
| Handler.MapErrorToResponse | internal/handler/helpers.go:36-46 | an AppError found on the chain gives its code and its own text; status 500 and code INTERNAL_ERROR each happen exactly when the chain holds no AppError, and then the text is the fixed "internal server error" |
| Handler.AppErrorResponse | internal/handler/helpers.go:37-42 | an error with an AppError on its chain is answered with that AppError's code and text and a status other than 500 |
| Handler.InternalResponse | internal/handler/helpers.go:44-45 | any other error is answered 500, INTERNAL_ERROR, "internal server error", never with its own text |
| Handler.StatusOfKind | internal/handler/helpers.go:21-42 | validation, not-found, conflict and insufficient-balance errors give 400, 404, 409 and 422 however deeply wrapped |
| Store.TotalUpdate | internal/service/transfer_service.go:113-118 | overwriting one listed balance changes the sum of balances by exactly the difference |
| Store.Database.InsertAccount | internal/repository/account_repository.go:26 | the insert fails with the drawn fault, with SQLSTATE 23505 on a duplicate id, and otherwise adds exactly that row |
| Store.Database.QueryAccount | internal/repository/account_repository.go:39-42 | the read returns the row or no-rows, or fails with the drawn fault, and changes no table |
| Store.Database.BeginTx | internal/database/txmanager.go:19-25 | a begin failure is wrapped with "beginning transaction"; otherwise a fresh open handle over a snapshot of both tables |
| Store.Tx.QueryForUpdate | internal/repository/account_repository.go:54-57 | the locking read answers from the snapshot and appends the id to the lock log whatever the answer |
| Store.Tx.ExecUpdateBalance | internal/repository/account_repository.go:68 | one affected row when the id is in the snapshot, which then holds the new balance; zero rows otherwise |
| Store.Tx.ExecInsertEntry | internal/repository/transaction_repository.go:21 | the snapshot's ledger gains exactly the entry at its end, unless the round trip fails |
| Store.Tx.Commit | internal/service/transfer_service.go:124 | the snapshot becomes the committed tables unless the commit fails, and then nothing is installed |
| Store.Tx.Rollback | internal/service/transfer_service.go:84 | the handle is closed and nothing is installed |
| Repository.CreateResult | internal/repository/account_repository.go:25-35 | success exactly for a new id without fault; a duplicate id gives ErrConflict("account", id); a store failure gives a non-AppError error wrapped with "inserting account" |
| Repository.ReadResult | internal/repository/account_repository.go:37-65 | the row exactly when it exists and nothing fails; a missing row gives ErrNotFound("account", id); a store failure gives a non-AppError error wrapped with the query's context |
| Repository.UpdateResult | internal/repository/account_repository.go:67-76 | success exactly when the row exists: that balance replaced, every other row and the key set kept; zero rows gives ErrNotFound; a store failure gives a non-AppError error wrapped with "updating balance" |
| Repository.AppendResult | internal/repository/transaction_repository.go:20-26 | success appends exactly the entry and keeps every earlier entry; a failure gives a non-AppError error wrapped with "inserting transaction" |
| Repository.CreateThenRead | internal/repository/account_repository.go:25-50 | a row created is read back with its balance, and creating it again conflicts |
| Repository.UpdateThenRead | internal/repository/account_repository.go:67-76 | a row updated is read back with the new balance, and every other row reads as before |
| Repository.AccountRepository.Create | internal/repository/account_repository.go:25-35 | returns CreateResult for the drawn fault and adds the row only on success |
| Repository.AccountRepository.GetByID | internal/repository/account_repository.go:37-50 | returns ReadResult with context "querying account" and changes no table |
| Repository.AccountRepository.GetByIDForUpdate | internal/repository/account_repository.go:52-65 | returns ReadResult on the snapshot with context "locking account", and logs the lock request |
| Repository.AccountRepository.UpdateBalance | internal/repository/account_repository.go:67-76 | returns UpdateResult's error and leaves UpdateResult's table in the snapshot, the ledger untouched |
| Repository.TransactionRepository.Create | internal/repository/transaction_repository.go:20-26 | returns AppendResult's error and leaves AppendResult's ledger in the snapshot, the balances untouched |
| Transfers.ValidateTransfer | internal/service/transfer_service.go:44-58 | refuses exactly ids ≤ 0, equal ids, amounts below 1 or above the ceiling, or more than 2 stored decimals, in that order, each with its message |
| Transfers.ExecuteAttempt | internal/service/transfer_service.go:79-130 | a failure leaves both tables unchanged; success moves the amount once and appends one entry; lock requests are a prefix of [lower id, higher id]; insufficient funds is reported only for the source when its balance is below the amount |
| Transfers.RetryLoop | internal/service/transfer_service.go:60-76 | at most n attempts, and at least one when n > 0; a serialization failure never reaches the caller; a failure changes no table; success is exactly one move of the amount and one ledger entry |
| Transfers.RetryStep | internal/service/transfer_service.go:67-70 | unfolding helper for the retry branch: after a serialization failure the loop starts over on the state the attempt left, with that failure recorded as an attempt |
| Transfers.RetryStop | internal/service/transfer_service.go:62-73 | unfolding helper for the stopping branches: success, or an error other than a serialization failure, ends the loop after that attempt with its answer |
| TransferProperties.RetriedAttemptFirst | internal/service/transfer_service.go:67-70 | a serialization failure put in front of a run keeps every earlier attempt retryable and keeps the answer decided by the last attempt, for one more allowed attempt |
| TransferProperties.RetryOutcome | internal/service/transfer_service.go:61-76 | every attempt but the last ended in a serialization failure; the run succeeds exactly when its last attempt does; a last error other than a serialization failure is returned as produced; otherwise all n attempts were made and the plain high-load error is returned |
| Transfers.TransferRun | internal/service/transfer_service.go:43-77 | no attempt exactly when the guards refuse; at most 3 attempts; never a serialization failure to the caller; a failure changes no table; success is one move and one ledger entry |
| Repository.AccountRepository.constructor | internal/repository/account_repository.go:21-23 | the repository holds the database it is given |
| Repository.TransactionRepository.constructor | internal/repository/transaction_repository.go:16-18 | the repository holds the database it is given |
| Accounts.AccountService.constructor | internal/service/account_service.go:18-23 | the service holds the account repository it is given |
| Transfers.TransferService.constructor | internal/service/transfer_service.go:27-41 | the service holds the repositories, the unit-of-work provider and the ceiling it is given |
| Transfers.TransferService.Transfer | internal/service/transfer_service.go:43-77 | returns TransferRun's error and leaves TransferRun's store state |
| Transfers.TransferService.ExecuteTransfer | internal/service/transfer_service.go:79-130 | returns ExecuteAttempt's error and leaves ExecuteAttempt's store state, rolling back on every path |
| TransferProperties.MovedEffect | internal/service/transfer_service.go:110-118 | the source's value drops by the amount, the destination's rises by it, every other account and the key set are kept |
| TransferProperties.MovedConserves | internal/service/transfer_service.go:110-118 | moving money between two accounts keeps the sum of all balances |
| TransferProperties.MovedNonNegative | internal/service/transfer_service.go:106-118 | a move that passed the funds check keeps every balance non-negative |
| TransferProperties.WholeBalanceLeavesZero | internal/service/transfer_service.go:106-113 | a successful transfer of exactly the source's balance leaves it at zero |
| TransferProperties.WholeBalanceTransferSucceeds | internal/service/transfer_service.go:44-126 | with no store failure, a valid transfer of exactly the source's balance between two existing accounts succeeds at the first attempt and leaves the source at zero |
| TransferProperties.TransferConserves | internal/service/transfer_service.go:43-130 | Transfer keeps the sum of all balances and the set of accounts, whatever the outcome and the number of attempts |
| TransferProperties.TransferKeepsNonNegative | internal/service/transfer_service.go:106-118 | Transfer never makes a balance negative |
| TransferProperties.LastAttemptFundsChecked | internal/service/transfer_service.go:60-74 | a successful run passed the funds check against the balance it started from |
| TransferProperties.FaultFreeAttempt | internal/service/transfer_service.go:86-126 | with no store failure: a missing account is reported for the lower then the higher id, then insufficient funds, otherwise success |
| TransferProperties.HighLoadIsInternal | internal/service/transfer_service.go:76 | the high-load error is answered 500, INTERNAL_ERROR, "internal server error" |
| TransferProperties.ExhaustedRetries | internal/service/transfer_service.go:60-76 | three serialization failures give the high-load error after 3 attempts, change no table and are answered 500 |
| TransferProperties.OtherFailureNotRetried | internal/service/transfer_service.go:60-83 | a begin failure without SQLSTATE ends the run after one attempt with the doubly wrapped error, answered as internal |
| TransferProperties.CommitFailureAttempt | internal/service/transfer_service.go:84-126 | an attempt that passes every step and then fails at commit reports the commit failure wrapped with "committing transfer" and leaves both tables as they were, with both locks requested in order |
| TransferProperties.CommitConflictFirstAttempt | internal/service/transfer_service.go:124-126 | a serialization failure at commit is wrapped with "committing transfer" and leaves the tables as they were |
| TransferProperties.CommitConflictSecondAttempt | internal/service/transfer_service.go:86-126 | the retried attempt moves 40.00 from 100.00 to 50.00, giving 60.00 and 90.00 |
| TransferProperties.CommitConflictLoop | internal/service/transfer_service.go:60-70 | on the sample state, a commit conflict followed by a clean attempt ends the loop in success after two attempts, with one move and one ledger entry |
| TransferProperties.CommitConflictRetried | internal/service/transfer_service.go:60-70 | a commit conflict is retried and the transfer then happens exactly once, with locks requested as 1, 2, 1, 2 |
| TransferProperties.LockOrderAndMissingAccount | internal/service/transfer_service.go:86-99 | a 2 to 1 transfer locks 1 first; a transfer to absent account 999 reports ErrNotFound for 999 and writes nothing |
| TransferProperties.InsufficientSample | internal/service/transfer_service.go:106-108 | 50.01 out of 50.00 is refused for the source account and writes nothing |
| TransferProperties.DrainTwice | internal/service/transfer_service.go:106-118 | two 50.00 transfers out of 50.00 in turn: the first empties the account, the second is refused and changes nothing |
| TransferProperties.TransferGuardExamples | internal/service/transfer_service.go:44-58 | 0 and 0.999 fail the minimum, 1.005 and 10.500 fail precision, 10.50 and exactly 200000 pass, 200000.01 and 1000000.00 exceed the ceiling |
| Accounts.ValidateCreate | internal/service/account_service.go:26-34 | refuses exactly ids ≤ 0, negative balances, then balances with more than 2 stored decimals, in that order, each with its message |
| Accounts.CreateRun | internal/service/account_service.go:25-42 | a refused request never reaches the store; success adds exactly the one row; a duplicate id gives a conflict still found through the wrapping; a store failure gives a non-AppError error |
| Accounts.GetRun | internal/service/account_service.go:44-55 | ids ≤ 0 are refused without a lookup; the row is returned unchanged when present; a missing row gives a wrapped ErrNotFound; no table changes |
| Accounts.AccountService.Create | internal/service/account_service.go:25-42 | returns CreateRun's error and leaves CreateRun's store state |
| Accounts.AccountService.GetByID | internal/service/account_service.go:44-55 | returns GetRun's answer and leaves GetRun's store state |
| Accounts.CreateThenGet | internal/service/account_service.go:25-55 | an account opened is read back with the balance it was opened with |
| Accounts.CreateKeepsNonNegative | internal/service/account_service.go:29-31 | opening an account never brings a negative balance into the table |
| Accounts.DuplicateCreateResponse | internal/service/account_service.go:36-38 | opening an existing account is answered 409 CONFLICT "This account already exists in the system" |
| Accounts.MissingAccountResponse | internal/service/account_service.go:49-54 | reading an absent account is answered 404 NOT_FOUND with the not-found text for "account" |
| Accounts.CreateGuardExamples | internal/service/account_service.go:26-34 | zero balances and 100.50 are accepted; a negative 3-decimal balance fails negativity first; 100.500 fails precision |

## Left out

- Concurrency: `FOR UPDATE` row locks, isolation and deadlock-freedom under concurrent transfers are not modelled. The model is sequential. It records only the order in which an attempt requests its locks.
- Context cancellation and deadlines (`ctx`) are not modelled. The closest thing modelled is a store round trip failing through the fault schedule.
- Store failures are reduced to two kinds: a serialization failure (SQLSTATE 40001) or a failure without SQLSTATE. Which round trip fails is an input, the fault schedule, not a behaviour of PostgreSQL.
- `Store.Tx.QueryForUpdate`, `ExecUpdateBalance`, `ExecInsertEntry` and `Commit` require an open handle. The core never queries, executes or commits on a handle after commit; the deferred Rollback runs on the closed handle, as in the model. pgx's error for a closed handle is not modelled.
- Logging through `slog` is not modelled, including the warning on each retry and the info lines on success. Neither are the `created_at`/`updated_at` timestamps and the serial id of a ledger row.
- The HTTP routing, request decoding, JSON writing (`writeJSON`), server wiring and environment reads are left out. Of the configuration, only `DefaultMaxTransferAmount` is used.
- The scale of the `NUMERIC` balance column is not modelled. The store keeps a decimal exactly as written, and the table schema is not part of this model.
- shopspring/decimal internals are not modelled, only the operations the core calls. `String()` is modelled only for integral amounts, the only ones the core prints.
- Account ids and the ceiling are unbounded integers. int64 range checks and overflow are not modelled.
- The interfaces of internal/service/interfaces.go are not modelled as traits. The services hold the concrete repository and database classes.
- TransferProperties.TransferConserves: the sum of balances is stated over a sequence listing every account id exactly once, not over the map directly.
- Transfers.ExecuteAttempt: lock order is stated per attempt. Over a whole run, the log is the attempts' requests one after another, which `CommitConflictRetried` shows on a sample.
- AppErrors.Error.Text: the texts of driver errors are placeholders. pgconn's "<severity>: <message> (SQLSTATE <code>)" and the connection-failure texts are not reproduced. Only AppError, plain and `%w`-wrapped texts follow the code. The function has no contract of its own; `WrapKeepsKind` states how wrapping builds the text.
