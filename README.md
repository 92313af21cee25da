# Wallet ledger and idempotency guard

A model of the transaction core of a wallet service. Wallets hold no balance field: the
ledger is an append-only sequence of entries (wallet id, signed integer amount, type
`TOPUP`/`BONUS`/`SPEND`, reference id, optional description), and a wallet's balance is the
sum of its entries' amounts. `processTransaction` checks the sign rules, then that the
wallet exists, then (for a `SPEND` only) that the balance covers it, and appends exactly one
entry when all pass. In front of the `POST /transact` handler sits an idempotency middleware:
a request without an `Idempotency-Key` runs unguarded; a request whose key is already in the
log gets the stored body back with status 200 and the handler is skipped; a request with a
new key runs the handler, and the first body the handler emits is recorded under the key by
a create whose failure is swallowed (insert-if-absent).

The database is replaced by plain state: a set of wallet ids, a `seq<Entry>` and a
`map<Key, Body>`. Calls are sequential and atomic.

- `wrappers.dfy` — `Option`.
- `ledger.dfy` (module `Ledger`) — `src/services/ledger.ts`: the balance as a recursive
  function, `Process` as the specification of one call, the store invariant, and the class
  `LedgerService` whose `ProcessTransaction` appends to its `entries` field.
- `idempotency.dfy` (module `Idempotency`) — `src/middleware/idempotency.ts`: the guard's
  decision, insert-if-absent, and the classes `Reply` (the response object, whose `hook`
  field stands for `res.json` being replaced by the recording wrapper) and
  `IdempotencyGuard` (the log).
- `wallet_routes.dfy` (module `WalletRoutes`) — the `POST /transact` route of
  `src/routes/wallet.ts`: how an outcome becomes a response, `Serve` (one request against the
  whole store), runs of requests, and `WalletApi.PostTransact`, which drives the middleware,
  the handler and the ledger service imperatively and is proved equal to `Serve`.

Modelling choices:
- The store-assigned entry id is the entry's position in the ledger; `createdAt` is not modelled.
- Error messages are modelled by the values they report (`InvalidAmountSign(type, provided)`,
  `InsufficientFunds(balance, required)`), not as text.
- The route sends sign and insufficient-funds failures as 400 with the message; a missing
  wallet raises the store's not-found error, whose message matches neither test, so it is a
  500 with `Internal Server Error`. The model follows this rather than a distinct
  "wallet not found" response.
- `key` is falsy for an empty header as well as an absent one, so `if (!key)` holds and an
  empty key is unguarded (`HasKey`).
- A replay is sent with status 200 whatever status the recorded response had, so a recorded
  400 body comes back as a 200 (`RetryReplaysFirstResponse`).
- `JSON.stringify` followed by `JSON.parse` is taken to give back the same body; the log stores
  bodies as values.

## Model

| member | source | states |
|---|---|---|
| `Ledger.Balance` | src/services/ledger.ts:59-65 | a wallet with no entries has balance 0 (the empty aggregate read as 0) |
| `Ledger.BalanceIsSumOfMatching` | src/services/ledger.ts:59-65 | the balance equals the sum of the amounts of exactly the rows whose walletId matches |
| `Ledger.BalanceAppend` | src/services/ledger.ts:45-55 | appending one row changes a wallet's balance by that row's amount if it is the wallet's, else not at all |
| `Ledger.Process` | src/services/ledger.ts:21-56 | sign errors win over a missing wallet and any balance; a missing wallet is rejected; a SPEND with balance + amount < 0 is rejected with the balance and the required amount; success exactly when all rules pass, where only a SPEND consults the balance; a rejection leaves the ledger unchanged; a success appends exactly one row carrying the input's fields and leaves earlier rows untouched |
| `Ledger.ProcessBalances` | src/services/ledger.ts:45-55 | after a call the target wallet's balance has risen by exactly `amount` if it committed, and every other wallet's balance is unchanged |
| `Ledger.ProcessKeepsBalanceNonNegative` | src/services/ledger.ts:21-43 | a balance that is non-negative before any call is non-negative after it |
| `Ledger.ProcessPreservesInvariant` | src/services/ledger.ts:21-56 | every row keeps id = position, an existing wallet and a sign fitting its type, and no wallet's balance is negative after any prefix of the history |
| `Ledger.LedgerService.ProcessTransaction` | src/services/ledger.ts:18-57 | the outcome and the new ledger are those of `Process` on the old store; the wallet table is not touched; the store invariant is kept |
| `Ledger.LedgerService.GetBalance` | src/services/ledger.ts:59-65 | returns the wallet's balance, which is the sum of its rows' amounts, for any wallet id, known or not |
| `Idempotency.Decide` | src/middleware/idempotency.ts:10-26 | no key (absent or empty) passes through; a logged key replays its stored body with status 200; any other key is intercepted |
| `Idempotency.InsertIfAbsent` | src/middleware/idempotency.ts:31-36 | the key is present afterwards; every existing record keeps its body (the first write wins); a new key gets the given body |
| `Idempotency.IdempotencyGuard.Handle` | src/middleware/idempotency.ts:9-41 | the handler runs exactly when there is no replay; a replay sends the stored body with status 200; only a new key wraps `res.json`; the log is only read |
| `Idempotency.IdempotencyGuard.Json` | src/middleware/idempotency.ts:28-39 | the body is sent; the wrapper is removed before recording, so later calls only send; the wrapped call records insert-if-absent; no existing record changes |
| `Idempotency.FirstEmittedBodyWins` | src/middleware/idempotency.ts:28-38 | when a handler emits twice on a new key, the first body (a 400 here) is the one recorded |
| `WalletRoutes.TransactResponse` | src/routes/wallet.ts:57-67 | status 200 with the transaction exactly on success; 400 with the error exactly for sign and insufficient-funds rejections; 500 with a generic error for a missing wallet |
| `WalletRoutes.Serve` | src/middleware/idempotency.ts:9-41 | wallets unchanged and the ledger grows by at most one row at its end; whenever the handler runs the new ledger is exactly the one `Process` gives (no row on a rejection, the committed row on success); no key: the handler's response and an unchanged log; logged key: status 200 with the stored body and nothing changed; new key: the handler's response, also recorded under the key |
| `WalletRoutes.ServePreservesInvariant` | src/routes/wallet.ts:44-68 | the ledger invariant is kept, and every recorded success body names a row actually committed at its id |
| `WalletRoutes.RetryReplaysFirstResponse` | src/middleware/idempotency.ts:17-24 | a second request with the same key, whatever its payload, changes nothing and gets the first body (the same transaction, same id) with status 200; the pair adds at most one row |
| `WalletRoutes.ServeAll` | src/routes/wallet.ts:44-68 | a run of requests answers each one, never changes the wallet table, never alters earlier rows, and never loses or overwrites a record of the log |
| `WalletRoutes.ServeAllPreservesInvariant` | src/services/ledger.ts:21-56 | no run of requests ever drives a balance negative or breaks the invariant |
| `WalletRoutes.RecordedKeyOnlyReplays` | src/middleware/idempotency.ts:17-24 | once a key is logged, any run of requests bearing it changes nothing and each gets the stored body with status 200 |
| `WalletRoutes.RecordedKeyReplaysAnywhere` | src/middleware/idempotency.ts:17-36 | in any run, a request bearing a recorded key gets the recorded body with status 200, whatever requests (other keys or none) come before it |
| `WalletRoutes.RetriesApplyAtMostOnce` | verification_script.ts:77-97 | any number of requests under one key add at most one row; the first response is recorded and every later one repeats its body with status 200 |
| `WalletRoutes.SpendsStopAtZero` | src/services/ledger.ts:33-43 | spends of 10 against a balance of 10·m succeed exactly min(n, m) times, namely the first min(n, m); every later one is a 400 insufficient-funds rejection (balance 0, 10 required); the balance ends at 10·(m − min(n, m)) |
| `WalletRoutes.FundedRequestsAllCommit` | verification_script.ts:27-75 | well-signed keyless requests whose spends the balance covers all commit in any order, add one row each, and move the balance by exactly their net amount |
| `WalletRoutes.WalletApi.PostTransact` | src/routes/wallet.ts:44-68 | running the middleware, the handler and the ledger service leaves the store and returns the response that `Serve` gives, and keeps the store invariant |

## Left out

- Concurrency and isolation: the `prisma.$transaction` unit of work (src/services/ledger.ts:28), the check-then-insert race between the log lookup and the log create, and the unawaited log write are not modelled; every call is sequential and atomic, and the log write happens before the next request.
- A crash between the ledger append and the log write (which would leave an effect without a record) is not modelled.
- The middleware's catch-all fallback (src/middleware/idempotency.ts:42-45) reacts only to store failures, which this model does not have.
- Schema validation of the request body (src/routes/wallet.ts:12-18) and its 400 response: inputs are taken as already validated, with an integer amount.
- Express routing, `/setup`, `GET /wallet/:id`, `/wallet/:id/details`, server start-up, and the demo, seed and test scripts: they drive the HTTP server and database; the outcomes they check appear as `RetriesApplyAtMostOnce`, `SpendsStopAtZero` and `FundedRequestsAllCommit`. Wallet creation is reduced to the initial wallet set given to the constructors.
- `createdAt` timestamps, the store's id generator (ids are positions) and JSON serialisation of stored bodies.
- Amounts and balances are unbounded `int`: the precision of JavaScript numbers (exact only up to 2^53, as in `currentBalance + amount < 0`) and the range of the stored amount column are not modelled.
- `Reply` records every body passed to `res.json`; Express's rule that a response is sent at most once (a second send throws) is not modelled, so only what is recorded in the log, not what `sent` holds after a second call, reflects the source.
- The `idempotencyKey` field passed to `processTransaction` is ignored by it and is not modelled.
