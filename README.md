# gophermart: loyalty ledger, order intake and accrual polling

This project is a Dafny model of the core of gophermart, a loyalty-points
service written in Go. Users upload purchase order numbers. A number is
accepted only if it passes the Luhn check, and each number belongs to
exactly one user. A background agent asks an external accrual service about
every pending order (status NEW or PROCESSING). It stores the status the
service reports and credits the reported points to the order's owner. Users
read their balance and spend points through withdrawals.

Modules, one per Go package or store:

- `Base`: shared values. Go strings are byte sequences (`GoString`).
  Timestamps are opaque strings passed in by the caller. `Error` collects the
  sentinel errors and driver failures. `Outcome` is an `error` result, and
  `Result` is a value-or-error result.
- `Luhn`: the checksum, in two forms. The first is the right-to-left loop
  with its flipping "double" flag. The second is a positional reference
  definition. The module proves that they agree and proves the checksum's
  error-detecting property.
- `Orders` (`internal/orders`): order records and `LuhnCheck` as a method
  with its loop. It also holds the ownership invariant shared by the
  in-memory stores.
- `Helpers` (`internal/helpers`): the second copy of `LuhnCheck`, proved to
  agree with the first on every input.
- `Balance` (`internal/balance`): ledger operations. Both stores derive
  these views from one ledger: the current balance, the withdrawn total,
  the credited total and the list of debits.
- `Storage` (`internal/storage`) and `DatabaseMem` (`internal/database/storage.go`):
  the two in-memory stores. Each is a class whose four maps its methods
  update in place.
- `Database` (`internal/database/database.go` with `queries.go` and the
  balance queries): the PostgreSQL-backed store.
  - The tables are a value (`Tables`). The class `SQLdb` holds them in its
    fields.
  - Any statement may fail in the driver. Each method takes a `Faults` map
    from statement index to error, and its doc comment gives the
    numbering.
  - `UpdateAccrual` and `AddAccrualOperation` commit each write on its
    own. They are specified by the run functions `UpdateAccrualRun` and
    `AddAccrualRun`, so a failure keeps the writes made before it.
- `AccrualWorker` (`internal/accrualworker`):
  - The HTTP exchange is an oracle `fetch` from URL to response.
  - `Classify` states how `makeGetRequest` reads a response.
  - The `Agent` class asks about the pending orders (`AskAccrual`), polls
    once (`PingAccrual`) and polls repeatedly (`CheckAccrual`).

Behaviour of the Go code that its identifiers and comments do not suggest,
which the model follows as written:

- The SQL `Withdraw` inserts the withdrawal's order number into `orders`
  with status NEW. So a withdrawn-against number becomes a pending order,
  which the agent then asks the service about (`Database.WithdrawSucceeds`).
- Both in-memory `Withdraw`s record the sum with a positive sign, so a
  withdrawal raises the balance (`Storage.WithdrawalAsWrittenIsCredit`).
- The SQL `GetOrders` shows a PROCESSED order's accrual from its ledger
  row. A PROCESSED order without a ledger row makes the whole call fail
  with `sql.ErrNoRows`.
- `ErrNoNewOrders` only arises when the store reports `sql.ErrNoRows`. The
  SQL query reports an empty result as an empty slice instead.

## Model

| member | source | states |
|---|---|---|
| Luhn.DigitValue | internal/orders/orders.go:34 | A byte minus '0' wraps modulo 256. The value is at most 9 exactly for the digits '0'..'9', and is the digit's own value there. |
| Luhn.Contribution | internal/orders/orders.go:35-41 | A position's contribution is never negative. For a digit it is at most 9, doubled or not (doubling subtracts 9 above 9). |
| Luhn.LoopSumIsWeightedSum | internal/orders/orders.go:28-46 | The right-to-left loop with the flipping flag computes the positional sum, which doubles the positions at odd distance from the right end. |
| Luhn.Accepts | internal/orders/orders.go:26-48 | Definition of the verdict: the loop's sum is divisible by 10. `LoopSumIsWeightedSum` and `AcceptsIffWeightedSum` tie it to the positional weighted sum, and `SingleDigitErrorDetected` shows that replacing one digit of an accepted string by a different digit makes it rejected. |
| Luhn.AcceptsIffWeightedSum | internal/orders/orders.go:47 | A string is accepted exactly when its positional weighted sum is divisible by 10. |
| Luhn.WeightedSumUpdate | internal/orders/orders.go:30-43 | Replacing one character changes the weighted sum by exactly the difference of the two contributions at that position. |
| Luhn.ContributionInjective | internal/orders/orders.go:35-41 | At a fixed position, two different digits contribute differently. |
| Luhn.SingleDigitErrorDetected | internal/orders/orders.go:26-48 | Changing one digit of an accepted number to a different digit makes it rejected. |
| Luhn.EmptyAccepted | internal/orders/orders.go:26-48 | The empty string passes the check (the sum is 0). |
| Luhn.NonDigitAccepted | internal/orders/orders.go:34 | Non-digits are not refused: ':' contributes 10, so the string ":" passes. |
| Luhn.FixtureNumbersAccepted | internal/accrualworker/accrualworker_test.go:23 | The fixture numbers 1234567897, 1234532313 and 1234532339 pass, with sums 50, 30 and 40. |
| Orders.LuhnCheck | internal/orders/orders.go:26-48 | The loop's verdict is exactly `Luhn.Accepts`, the reference checksum. |
| Helpers.LuhnCheck | internal/helpers/helpers.go:3-25 | The helpers copy's verdict is exactly `Luhn.Accepts`. |
| Helpers.SameVerdict | internal/helpers/helpers.go:3-25 | Each copy's verdict is `Luhn.Accepts` of the string, so the two copies return the same verdict on every string. |
| Orders.PendingNumbers | internal/storage/storage.go:124-128 | A number is collected from one list exactly when some order of that list has it with status NEW or PROCESSING. |
| Orders.PendingOfPick | internal/storage/storage.go:123-130 | The multiset of pending numbers does not depend on which owner the map iteration visits first. |
| Orders.PendingOfMembers | internal/storage/storage.go:120-131 | A number is pending exactly when some owner's list holds it with status NEW or PROCESSING. |
| Orders.NumberListedOnce | internal/storage/storage.go:84-113 | Under the ownership invariant, a number appears in at most one owner's list, at one position. |
| Orders.ClaimKeepsOwnership | internal/storage/storage.go:96-103 | Recording a new owner and appending one NEW order to the owner's list keeps the ownership invariant. |
| Balance.Current | internal/balance/balance.go:30-38 | Definition of `SUM(accrual)` over a ledger, 0 when empty. `CurrentIsCreditedMinusWithdrawn` splits it into credits minus withdrawals, and `CurrentAppend` and `AppendOperation` give its effect on appended rows. |
| Balance.Withdrawn | internal/balance/balance.go:40-49 | The withdrawn total (the negated sum of negative amounts) is never negative. |
| Balance.Credited | internal/balance/balance.go:30-38 | The sum of the positive amounts is never negative. |
| Balance.NegativeTotal | internal/balance/balance.go:40-49 | The SUM over negative amounts is the negation of the withdrawn total. |
| Balance.Debits | internal/balance/balance.go:51-60 | The withdrawal rows: each has a negative amount and comes from the ledger, and there are no more of them than ledger rows. |
| Balance.CurrentIsCreditedMinusWithdrawn | internal/database/database.go:586-604 | The current balance equals credits minus the withdrawn total. |
| Balance.AppendOperation | internal/balance/balance.go:62-72 | Appending one operation moves the current balance by its amount. The withdrawn total grows by the amount's magnitude only when the amount is negative. |
| Balance.CurrentAppend | internal/balance/balance.go:30-38 | The current balance of a concatenation is the sum of the two balances. |
| Balance.DebitsTotal | internal/balance/balance.go:51-60 | The amounts listed as withdrawals add up to minus the withdrawn total, so the list and the balance agree. |
| Storage.MemStorage.NewStorage | internal/storage/storage.go:52-60 | All four maps start empty and the ownership invariant holds. |
| Storage.MemStorage.Register | internal/storage/storage.go:65-73 | A taken login is refused with `ErrUsernameIsTaken` and is not overwritten. A new one is stored, after which its credentials verify. |
| Storage.MemStorage.VerifyCredentials | internal/storage/storage.go:75-82 | Passes exactly for a registered login with its own password. Otherwise it fails with `ErrWrongCredentials`. |
| Storage.MemStorage.SetOrder | internal/storage/storage.go:84-113 | A number already held by this user gives `ErrOrderLoadedThisUser`, and one held by another user gives `ErrOrderLoadedAnotherUser`; both leave the store unchanged. An unclaimed number is claimed with one NEW order. The invariant is kept. |
| Storage.MemStorage.GetOrders | internal/storage/storage.go:115-118 | Returns the user's list, or an empty list for an unknown user, and never fails. |
| Storage.MemStorage.GetOrdersForAccrual | internal/storage/storage.go:120-131 | As a multiset, the result is exactly the pending numbers of all lists. |
| Storage.MemStorage.UpdateAccrual | internal/storage/storage.go:133-135 | Does nothing and reports success. |
| Storage.MemStorage.AddAccrualOperation | internal/storage/storage.go:136-138 | Does nothing and reports success. |
| Storage.MemStorage.GetBalance | internal/storage/storage.go:140-156 | The loop's current and withdrawn totals are `BalanceOf` the user's ledger (zero for an unknown user). |
| Storage.MemStorage.GetWithdrawals | internal/storage/storage.go:158-161 | Returns the whole ledger of the user, or empty for an unknown user. |
| Storage.MemStorage.Withdraw | internal/storage/storage.go:163-191 | Succeeds exactly when the balance covers the sum. It then appends the operation with the sum's sign as written; otherwise `ErrInsufficientFunds` and nothing changes. |
| Storage.WithdrawalAsWrittenIsCredit | internal/storage/storage.go:182 | As written, a withdrawal of a positive sum raises the balance by the sum and leaves the withdrawn total unchanged. |
| DatabaseMem.MemStorage.NewStorage | internal/database/storage.go:33-41 | All four maps start empty and the ownership invariant holds. |
| DatabaseMem.MemStorage.Register | internal/database/storage.go:56-64 | A taken login is refused and not overwritten. A new one is stored, after which `GetPass` returns its password and its credentials verify. |
| DatabaseMem.MemStorage.GetPass | internal/database/storage.go:47-54 | Returns the stored password of a registered login, otherwise `ErrUserNotFound`. |
| DatabaseMem.MemStorage.VerifyCredentials | internal/database/storage.go:66-73 | Passes exactly for a registered login with its own password. Otherwise it fails with `ErrWrongPassword`. |
| DatabaseMem.MemStorage.SetOrder | internal/database/storage.go:75-104 | Same three outcomes and invariant as the other in-memory store. |
| DatabaseMem.MemStorage.GetOrders | internal/database/storage.go:106-109 | Returns the user's list, or an empty list for an unknown user. |
| DatabaseMem.MemStorage.GetOrdersForAccrual | internal/database/storage.go:111-122 | As a multiset, the result is exactly the pending numbers of all lists. |
| DatabaseMem.MemStorage.UpdateAccrual | internal/database/storage.go:124-126 | Does nothing and reports success. |
| DatabaseMem.MemStorage.AddAccrualOperation | internal/database/storage.go:127-129 | Does nothing and reports success. |
| DatabaseMem.MemStorage.GetBalance | internal/database/storage.go:131-147 | The loop's totals are `BalanceOf` the user's ledger. |
| DatabaseMem.MemStorage.GetWithdrawals | internal/database/storage.go:149-152 | Returns the whole ledger of the user. |
| DatabaseMem.MemStorage.Withdraw | internal/database/storage.go:154-180 | Succeeds exactly when the balance covers the sum. It then appends the positive-sign operation as written; otherwise `ErrInsufficientFunds` and nothing changes. |
| Auth.AuthMemStorage.NewMemStorage | internal/auth/auth.go:267-271 | The login map starts empty. |
| Auth.AuthMemStorage.Register | internal/auth/auth.go:250-257 | A taken login is refused and not overwritten. A new one is stored, after which `GetPass` returns the password and verification passes. |
| Auth.AuthMemStorage.VerifyCredentials | internal/auth/auth.go:259-265 | Passes exactly for a registered login with its own password, otherwise `ErrWrongPassword`. |
| Auth.AuthMemStorage.GetPass | internal/auth/auth.go:273-280 | Returns the stored password, or `ErrUserNotFound` for an unknown login. |
| Auth.RegisterTwice | internal/handlers/handlers_test.go:82-89 | After registering two different logins, each `GetPass` returns its own password, and registering the first login again is refused. |
| Database.OwnerOf | internal/database/queries.go:73-78 | The owner found by joining `orders` with `users` on the user id is a registered user whose id is the order's. |
| Database.FirstAccrual | internal/database/queries.go:68-71 | Finds an accrual exactly when some ledger row names the order number. |
| Database.Normalize | internal/database/database.go:523-537 | Accepts exactly REGISTERED and the four order statuses, and always yields an order status. The four order statuses are stored unchanged and REGISTERED becomes PROCESSING. |
| Database.NormalizeIdempotent | internal/database/database.go:523-537 | Normalising a normalised status changes nothing. |
| Database.ApplyResult | internal/database/database.go:521-551 | Definition of one result: an unacceptable status fails with `unexpected order status`. A driver fault fails that statement. With an accrual, the order must exist (otherwise the NOT NULL owner is refused); its status is set and one operation is appended for its owner. Without one, the status of a matching row is set, and no row leaves the tables unchanged. `ApplyResultGrows` and `ApplyResultSuccess` state its properties. |
| Database.UpdateAccrualRun | internal/database/database.go:499-555 | Definition of `UpdateAccrual`: the two `Prepare`s and `Begin` may fail first. The results are then applied in order, the first failure stops the run and earlier writes stay, and `Commit` may fail last. `UpdateFromGrows`, `UpdateFromFailure`, `UpdateFromSuccess`, `UpdateFromStatuses` and `SettledNotPending` characterise it. |
| Database.CreditResult | internal/database/database.go:572-581 | Definition of one entry of `AddAccrualOperation`: a zero amount is skipped, a driver fault fails the insert, an unknown order is refused by the constraint, and otherwise one operation is appended for the order's owner. `CreditFromSuccess` states its effect over a run. |
| Database.AddAccrualRun | internal/database/database.go:557-584 | Definition of `AddAccrualOperation`: `Begin` may fail first. The entries are then credited in order, the first failure stops the run and earlier inserts stay, and `Commit` may fail last. `CreditFromSuccess` characterises a successful run. |
| Database.ApplyResultGrows | internal/database/database.go:521-551 | Storing one result only changes a status and appends to the ledger. It keeps users, order owners and upload times, and keeps the tables consistent. |
| Database.UpdateFromGrows | internal/database/database.go:521-553 | The same holds for the whole run of results, whatever fails. |
| Database.UpdateFromFailure | internal/database/database.go:521-553 | A failed run leaves exactly the tables produced by the results before the first failing one. Those writes stay committed. |
| Database.ResultCreditsOwners | internal/database/queries.go:88-101 | The credit rows a run of results inserts depend only on which order numbers exist and on each order's owner id. Two order tables that agree on those give the same credits, so status updates earlier in the run do not change later credits. |
| Database.UpdateFromSuccess | internal/database/database.go:521-553 | A successful run had only acceptable statuses and only stored order numbers for results with an accrual. It appends exactly one credit per such result, in order, to the owner of the order. |
| Database.UpdateFromStatuses | internal/database/queries.go:102-106 | After a successful run, each order's status is the normalised status of the last result naming it, or unchanged if none did. |
| Database.SettledNotPending | internal/database/database.go:499-555 | An order whose last result was PROCESSED or INVALID is no longer pending after a successful `UpdateAccrual`. |
| Database.CreditFromSuccess | internal/database/database.go:572-581 | A successful run skips zero accruals and appends one row per non-zero accrual, each for a stored order. Nothing else changes. |
| Database.NegatedCurrent | internal/database/database.go:621 | Negating every amount negates the ledger total. |
| Database.AfterWithdrawalConsistent | internal/balance/balance.go:74-92 | Inserting the NEW order and its negative ledger row keeps the tables consistent. The withdrawal's number becomes a pending order. |
| Database.AfterWithdrawalLedgers | internal/balance/balance.go:74-92 | The withdrawing user's ledger gains exactly one row of amount minus the sum, so the balance drops by the sum. Every other user's ledger is unchanged. |
| Database.WithdrawVerdict | internal/database/database.go:631-650 | The verdict follows the code's checks in order: driver faults, the Luhn check (`ErrWrongOrder`), the balance (`ErrInsufficientFunds`), then the insert, which a constraint refuses for an unknown user or a number already stored. |
| Database.WithdrawSucceeds | internal/database/database.go:631-650 | A successful withdrawal had a Luhn-valid new number and enough funds. The balance drops by exactly the sum and stays non-negative, and the number becomes a pending order. |
| Database.ClaimTwice | internal/database/database.go:405-431 | Claiming an unseen number for one user succeeds. The same number then fails with `ErrOrderLoadedAnotherUser` for a second user, and the first user still owns it. |
| Database.SQLdb.SetOrder | internal/database/database.go:405-431 | An unknown user fails with the lookup's `sql.ErrNoRows`. A number owned by this user or another gives the matching error, and an unseen number is inserted as NEW. A failed owner lookup (other than no rows) is reported as this user's or another user's number, depending on the empty owner name. The tables change only on success and stay consistent. |
| Database.SQLdb.GetOrders | internal/database/database.go:433-468 | On success, each of the user's orders appears exactly once, with its status and upload time. A PROCESSED order shows its ledger accrual. No orders gives `ErrNoOrders`. Without driver faults, a PROCESSED order of the user without a ledger row fails the whole call with `sql.ErrNoRows`, and that is the only other error. A success therefore shows an accrual for every PROCESSED order. |
| Database.SQLdb.GetOrdersForAccrual | internal/database/database.go:470-497 | Without faults, it returns each NEW or PROCESSING number exactly once, and only those. |
| Database.SQLdb.UpdateAccrual | internal/database/database.go:499-555 | The resulting tables and error are those of the run function `UpdateAccrualRun` (see the lemmas above), and consistency is kept. |
| Database.SQLdb.AddAccrualOperation | internal/database/database.go:557-584 | The resulting tables and error are those of `AddAccrualRun` (see `CreditFromSuccess`). |
| Database.SQLdb.GetBalance | internal/database/database.go:586-604 | Without faults, returns `BalanceOf` the user's ledger: the current balance and the withdrawn total. |
| Database.SQLdb.GetWithdrawals | internal/database/database.go:606-629 | Without faults, it returns the user's withdrawal rows with amounts negated, all positive. Their total equals the withdrawn total reported by `GetBalance`. |
| Database.SQLdb.Withdraw | internal/database/database.go:631-650 | The outcome is `WithdrawVerdict`. On failure nothing changes. On success the tables become exactly those with the new order and the negative ledger row. |
| AccrualWorker.WithScheme | internal/accrualworker/accrualworker.go:98-100 | The URL always starts with "http://". The scheme is added only when missing. |
| AccrualWorker.WithSchemeIdempotent | internal/accrualworker/accrualworker.go:98-100 | Adding the scheme twice is the same as adding it once. |
| AccrualWorker.OrderURL | internal/accrualworker/accrualworker.go:97-100 | The request URL starts with "http://" and ends with "/api/orders/" and the number. It is the server address unchanged when the server already has the scheme. |
| AccrualWorker.Classify | internal/accrualworker/accrualworker.go:102-137 | Succeeds exactly for a 200 with a readable body or a 204. A decoded body is returned as is. An undecodable one marks the order INVALID, and 204 keeps it NEW. 429 gives `ErrTooManyReqs` with the number; every other failure gives the zero value. |
| AccrualWorker.SynthesisedResultStorable | internal/accrualworker/accrualworker.go:123-131 | A result the worker makes up names the order asked about, carries no accrual, and has a status `UpdateAccrual` accepts. |
| AccrualWorker.Agent.NewAgent | internal/accrualworker/accrualworker.go:52-59 | The agent keeps the configured server and the given store. |
| AccrualWorker.Agent.MakeGetRequest | internal/accrualworker/accrualworker.go:95-138 | Definition of one request: `Classify` of the oracle's response to `OrderURL` of the agent's server and the number. `Classify`, `OrderURL` and `SynthesisedResultStorable` state what the reply is. |
| AccrualWorker.Agent.AskAccrual | internal/accrualworker/accrualworker.go:61-81 | The outcome satisfies `Asked`. A failed read returns its error, with `sql.ErrNoRows` becoming `ErrNoNewOrders`. Otherwise each pending order is asked about once. Success means every answer was usable, and the results are those answers in order; otherwise the first failing answer's error is returned. |
| AccrualWorker.Agent.PingAccrual | internal/accrualworker/accrualworker.go:140-153 | The ask satisfies `Asked`. `Written` then holds: a failed ask returns exactly its error and changes nothing, so `UpdateAccrual` runs only after a successful ask. After a successful ask, the store's new tables and error are those of `UpdateAccrual` on the answers. |
| AccrualWorker.Agent.CheckAccrual | internal/accrualworker/accrualworker.go:40-51 | The loop polls tick by tick, and the tables before each poll are returned as a ghost sequence. Every poll before the last succeeded (`Polled` with no error). The loop stops at the first failing poll and returns that poll's error, with the store as that poll left it; otherwise every tick was polled. |
| AccrualWorker.SettleOneOrder | internal/accrualworker/accrualworker.go:140-153 | End to end: a claimed order answered PROCESSED with an amount is credited once. A second poll finds nothing pending and returns no error, and the owner's balance is exactly that amount. |

## Left out

- Hashing: the SQL store's `Register` and `VerifyCredentials` hash
  passwords and query the users table; they are not modelled. The model's
  users table is the `users` map, given to `SQLdb`'s constructor. The Go
  code's `VerifyCredentials` also passes an unknown login when the lookup
  returns `sql.ErrNoRows`; this is recorded here, not modelled.
- Schema creation, connection checks and `NewSQLdb`: these talk to the
  server only. The `SQLdb` constructor starts from given users with no
  orders or ledger rows.
- `GetStorage` in both in-memory stores: a plain accessor.
- The HTTP handlers, JWT cookies, gzip middleware and configuration
  parsing: outside the core.
- The `worker` goroutine, the mutex and the ticker: concurrency and time
  are not modelled.
- AccrualWorker.Agent.CheckAccrual: the Go loop never ends without an
  error. The model runs over a finite sequence of ticks and returns `Pass`
  when the ticks run out, which stands for "still polling".
- Floating point: amounts are unbounded integers. Go's `float64` rounding
  in sums and comparisons is not modelled.
- The clock: `time.Now` and its RFC 3339 round trip are a `now`
  parameter, so time-parsing errors are left out.
- JSON and body reading: a response body is `Unreadable`, `Undecodable`
  or a decoded `ProcessedOrder`; the decoder itself is not modelled.
- Row scan errors: the model reads every row as stored, except for the
  one case below.
- Database.SQLdb.GetOrders: the `double precision` accrual column is
  scanned into an `*int`. The driver formats the float as text and parses
  it as an integer. That fails for a non-integral amount, and also for any
  amount of magnitude 10^6 or more, which is formatted in exponent form
  ("1e+06"). Go's `GetOrders` then returns the scan error for a user with
  such a PROCESSED order. The model does not produce that error: without
  driver faults it reports only `ErrNoOrders` and `sql.ErrNoRows`.
- SQL row order: the queries have no ORDER BY. `GetOrders` and
  `GetOrdersForAccrual` are specified as sets, through `Distinct`, so any
  row order satisfies them. Two members below read rows in table
  (insertion) order instead.
- Database.SQLdb.GetWithdrawals: the withdrawals are returned in table
  order. The database may return them in any order; the model fixes one.
- Database.SQLdb.GetOrders: a PROCESSED order's accrual is taken from the
  first ledger row with its number in table order (`Database.FirstAccrual`).
  A number can have two rows: a withdrawal's NEW order that the service
  later answers PROCESSED with an accrual. The database may return either
  row; the model picks the first.
- Database.SQLdb.AddAccrualOperation: a failing `Prepare` (its error is
  discarded) leaves a nil statement whose `Exec` panics, and an entry
  without an accrual panics on the dereference; the model requires every
  entry to carry an accrual and lets no statement but `Begin`, the inserts
  and `Commit` fail. The agent does not call this method.
- AccrualWorker.Agent: the Go `Agent` holds any `storage.Storage`; the model
  fixes it to the SQL store. With either in-memory store, `UpdateAccrual`
  returns nil without writing, so a poll asks the service and stores
  nothing. That pairing is not modelled.
