# Wallet gateway ledger (fake-api), modelled in Dafny

The gateway keeps a ledger in memory. It is one object that maps account and wallet
identifiers to balances. It serves two money-movement requests against it:

- `/debin` pulls funds from a bank account. It rejects a missing field (400), an unknown
  bank account (404) and insufficient funds (400), in that order. It then calls the external
  settlement service. Only when that call returns does it debit the bank account's balance.
  A failing call gives 500 and changes nothing.
- `/transfer` runs the same pipeline on `fromAccountId`. On success, though, it debits
  `toWalletId`, which is created at 0 if absent. It then writes the whole ledger to the
  snapshot file and replies with the new balance. If that write throws, the same `catch`
  answers 500 as for a failed settlement, but the debit stays in memory. The model takes
  such a write to fail before the file is touched, so the file keeps its old content.

The model has four modules:

- `Wrappers` (`wrappers.dfy`): the `Option` type. It is used for a lookup that may give
  `undefined` and for a snapshot file that may be unusable.
- `Ledger` (`ledger.dfy`): the state (ledger plus snapshot) and the outcomes with their
  status codes. It also has `doesAccountExist`, the guard sequence both handlers share,
  the startup load, and the two handlers as functions from the state before a request to
  a `Reply`. A `Reply` holds the outcome, the state afterwards, and whether the
  settlement call was issued.
- `Server` (`server.dfy`): the class `Gateway`. Its fields are `balances` and `persisted`.
  Its two handler methods mutate these fields in place, step by step, as the handlers do.
  Each method is proved equal to the matching `Ledger` function.
- `Lifetime` (`lifetime.dfy`): the process over a sequence of requests, each handled
  atomically. It holds the lemmas about every such sequence.

How request fields are modelled:

- A field is "missing" under JavaScript falsiness. For an identifier that is the empty
  string; for an amount (an integer here) it is 0.
- The settlement call is an input boolean: true if the awaited call returns, false if it
  throws. The snapshot write of `/transfer` is a second input boolean of the same kind.

What the handlers check:

- `/debin` checks the bank account's existence and funds, and then debits that account
  locally. That is its only authorisation: any non-empty `walletId` is accepted.
- `/transfer` checks the existence and funds of `fromAccountId`, and rejects insufficient
  funds with 400.

Quirks of the code, modelled as written and stated by lemmas over all inputs:

- The transfer's funds check reads `fromAccountId`, but the debit lands on `toWalletId`
  (`TransferDebitsTheWallet`).
- A negative amount passes the funds check against any balance at least as large, every
  non-negative balance included, and then raises the balance (`NegativeDebinCredits`).
- A DEBIN is never written to the snapshot, so a restart before the next successful
  transfer loses it (`DebinIsNotDurable`).
- A transfer whose snapshot write throws is answered 500, yet the debit has already been
  made in memory. If the write failed before touching the file, a restart undoes the
  debit (`FailedWriteIsLostOnRestart`). From then on
  the ledger may hold a key the snapshot lacks (`SnapshotKeysStayInLedger`).

## Model

| member | source | states |
|---|---|---|
| Ledger.Status | index.js:31-131 | every outcome has status 200, 400, 404 or 500; 200 exactly for success, 400 exactly for a missing field or insufficient funds, 404 exactly for an unknown account, 500 exactly for a failed settlement call or a failed snapshot write |
| Ledger.DoesAccountExist | index.js:78-80 | an account exists exactly when its id is a key of the ledger, whatever the balance; the lookup is then defined |
| Ledger.Validate | index.js:31-44 | the shared guards: missing field iff a field is falsy, then unknown account iff it is not a key, then insufficient funds iff its balance is below the amount; the request may proceed iff none applies |
| Ledger.Startup | index.js:14-22 | the ledger is the parsed snapshot, or empty when the file is absent or cannot be read and parsed; the snapshot and ledger then have the same keys |
| Ledger.Debin | index.js:28-76 | missing field, then unknown bank account, then insufficient funds, each iff its condition and with no settlement call and no change; the call is issued iff all guards pass; 500 with no change iff it fails; on success only the bank account's balance drops by amount, to a value >= 0; keys and snapshot never change |
| Ledger.Transfer | index.js:82-132 | same guard order on fromAccountId, each with no call and no change; 500 with nothing changed iff the call throws; once it returns, toWalletId becomes its old value (0 if absent) minus amount, the key is created and every other key (fromAccountId included) is unchanged; then either the snapshot equals the whole ledger and newBalance is the stored value, or the write failed, the snapshot is unchanged and the answer is 500 |
| Server.Gateway.constructor | index.js:14-22 | the in-place state after startup is the startup state, with snapshot and ledger having the same keys |
| Server.Gateway.Debin | index.js:28-76 | the in-place handler returns the outcome and settlement-call flag, and leaves the state, that Ledger.Debin gives; the snapshot is untouched |
| Server.Gateway.Transfer | index.js:82-132 | the in-place handler returns the outcome and settlement-call flag, and leaves the state, that Ledger.Transfer gives; on success the snapshot is the ledger, on a failed write it is unchanged |
| Lifetime.Handle | index.js:28-132 | a request whose settlement call throws, or that is rejected, leaves the state unchanged; only a success or a failed write changes it, and a failed write leaves the snapshot; a DEBIN never changes the snapshot or the keys |
| Lifetime.KeysNeverRemoved | index.js:65-115 | over any sequence of requests no ledger key is ever deleted |
| Lifetime.NewKeysAreTransferTargets | index.js:115 | every key created over a sequence of requests is the toWalletId of some transfer in it |
| Lifetime.OnlyConfirmedRequestsMatter | index.js:46-131 | removing every request whose settlement call fails leaves the final ledger and snapshot exactly the same |
| Lifetime.SnapshotKeysStayInLedger | index.js:114-116 | over any sequence of requests the snapshot never holds a key the ledger lacks |
| Lifetime.SnapshotKeysMatchWhileWritesSucceed | index.js:114-116 | if the snapshot has the ledger's keys at the start and no snapshot write fails, it still has exactly them after any sequence of requests |
| Lifetime.DebinsKeepBalancesNonNegative | index.js:42-65 | a sequence of DEBINs keeps a non-negative ledger non-negative and never writes the snapshot |
| Lifetime.TransferIsDurable | index.js:115-116 | after a transfer that succeeds and is written, a restart reloads exactly the in-memory ledger |
| Lifetime.FailedWriteIsLostOnRestart | index.js:115-131 | a transfer whose write throws answers 500 yet changes the ledger in memory, and a restart reloads what a restart before it would have |
| Lifetime.DebinIsNotDurable | index.js:65-69 | from a state whose snapshot is its ledger, a successful DEBIN changes the ledger while a restart restores the ledger as it was |
| Lifetime.TransferDebitsTheWallet | index.js:95-115 | when fromAccountId and toWalletId differ, a successful transfer leaves the checked account's balance as it was, and a new wallet ends at minus the amount |
| Lifetime.NegativeDebinCredits | index.js:31-65 | a negative amount against a balance at least as large passes every guard of DEBIN and raises the balance by its size |

## Left out

- Express and body-parser wiring, routing, the JSON response bodies and `app.listen` (index.js:1-12, 134-136). These are framework plumbing. Only the outcome and its status code are modelled.
- The axios calls, their URLs, payloads, auth headers and the echoed `response.data` or `err.message`. These are network calls. Each call is reduced to whether it returned or threw.
- Reading and parsing `balances.json` at startup, and the serialisation in `writeFileSync`. These are file I/O. A parsed file is a map; a write that returns stores a copy of the whole map; a write that throws stores nothing.
- Ledger.Startup: `None` stands for a file that is absent or fails to be read or parsed. A file holding valid JSON that is not an object is not modelled. With `null`, a request with a falsy field still gets its 400; any request that passes the field check throws in `doesAccountExist`, outside the `try`, and gets no response. With a string or an array, index ids such as `"0"`, and `length`, are defined. Such an id passes the existence check, and it passes the funds check too when its value does not compare as smaller than the amount. With a number or a boolean, only inherited names are defined.
- Lifetime.FailedWriteIsLostOnRestart: a failed snapshot write is modelled as failing before the file is opened and truncated, so the old snapshot survives. `writeFileSync` truncates the file on opening. A write that fails after that (a full disk, an I/O error) leaves an empty or partial file, which the next startup reads as unusable (`None`) and so starts from an empty ledger. That case is not modelled.
- Ledger.DoesAccountExist: identifiers are the ledger's own keys only. A name that the source's plain object inherits from `Object.prototype` (such as `toString` or `constructor`) passes the source's `!== undefined` test without being a key. Such a name is not modelled. With one, a DEBIN would pass both guards and store `NaN` under a new key. The claims that DEBIN keeps the keys (Ledger.Debin, Lifetime.Handle) and Lifetime.NewKeysAreTransferTargets rely on this restriction.
- Logging, which has no behaviour.
- Concurrent requests interleaving at the `await` of the settlement call. Each request is modelled as one atomic step. In the source the balance is read again after the `await`, and the write follows in the same synchronous step, so no update is lost. The funds check, however, can go stale at the `await`. For example, two DEBINs of 300 against `{"a": 500}` can both pass the check before either resumes, and the ledger then ends at -100. That race is not modelled.
- Ledger.Debin: the `>= 0` clause for the debited balance holds only because each request is modelled as atomic; concurrent DEBINs with a stale funds check can break it.
- Lifetime.DebinsKeepBalancesNonNegative: holds only for requests handled one at a time, for the same reason.
- JavaScript number semantics. Amounts and balances are unbounded integers: there are no floating-point amounts, no NaN, no string amounts, and no type coercion in `<`. Identifiers are strings, so a numeric identifier is not modelled.
