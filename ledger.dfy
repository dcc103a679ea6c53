/**
  The balance ledger of the wallet gateway and the two money-movement
  handlers, `/debin` and `/transfer`, as functions from the ledger state
  before a request to the reply and the ledger state after it.

  The HTTP request body is reduced to its three fields; a field is
  "missing" under JavaScript falsiness: the empty string for an
  identifier and 0 for an amount. The awaited settlement call is reduced
  to whether it returned (true) or threw (false), and so is the snapshot
  write of `/transfer`.
 */
module Ledger {
  import opened Wrappers

  /** Bank accounts and wallets share one namespace: the keys of one object. */
  type Id = string

  /** The module-level `balances` object: identifier to balance. */
  type Balances = map<Id, int>

  /**
    The gateway's state: the in-memory ledger and the content of the
    snapshot file, `None` when the file is absent or cannot be read and
    parsed.
   */
  datatype State = State(balances: Balances, persisted: Option<Balances>)

  /** The reply to one request; its status code is given by `Status`. */
  datatype Outcome =
    | Debited
    | Transferred(newBalance: int)
    | MissingField
    | AccountNotFound
    | InsufficientFunds
    | SettlementFailed
      /**
        The snapshot write threw after the ledger was updated. The same
        `catch` answers it, so the client sees the very reply of a failed
        settlement call.
       */
    | WriteFailed
  {
    predicate IsSuccess() {
      Debited? || Transferred?
    }
  }

  /**
    What a handler does: the outcome it responds with, the state it
    leaves, and whether it issued the external settlement call.
   */
  datatype Reply = Reply(outcome: Outcome, next: State, settlementCalled: bool)

  /** The HTTP status code each outcome is sent with. */
  function Status(o: Outcome): (code: int)
    ensures code in {200, 400, 404, 500}
    ensures code == 200 <==> o.IsSuccess()
    ensures code == 500 <==> o == SettlementFailed || o == WriteFailed
    ensures code == 400 <==> o == MissingField || o == InsufficientFunds
    ensures code == 404 <==> o == AccountNotFound
  {
    match o
    case Debited => 200
    case Transferred(_) => 200
    case MissingField => 400
    case AccountNotFound => 404
    case InsufficientFunds => 400
    case SettlementFailed => 500
    case WriteFailed => 500
  }

  /** `balances[id]`: the stored balance, or `undefined` for an unknown key. */
  function Lookup(b: Balances, id: Id): Option<int> {
    if id in b then Some(b[id]) else None
  }

  /**
    `doesAccountExist`: the lookup is not `undefined`. An account exists
    exactly when it is a key, whatever its balance (zero and negative
    balances included).
   */
  function DoesAccountExist(b: Balances, id: Id): (r: bool)
    ensures r <==> id in b
    ensures r ==> Lookup(b, id) == Some(b[id])
  {
    Lookup(b, id) != None
  }

  /** JavaScript falsiness of an identifier field: absent or the empty string. */
  predicate MissingId(id: Id) {
    id == ""
  }

  /** JavaScript falsiness of an integer amount field: absent or 0. */
  predicate MissingAmount(amount: int) {
    amount == 0
  }

  /** One of the three body fields of a request is missing. */
  predicate AnyMissing(first: Id, second: Id, amount: int) {
    MissingId(first) || MissingId(second) || MissingAmount(amount)
  }

  /**
    The guards both handlers run before the settlement call, in their
    order: the three body fields, then the existence of `account`, then
    its funds. The rejection, or `None` when the request may proceed.
   */
  function Validate(b: Balances, first: Id, second: Id, amount: int, account: Id): (r: Option<Outcome>)
    ensures r == Some(MissingField) <==> AnyMissing(first, second, amount)
    ensures r == Some(AccountNotFound) <==> !AnyMissing(first, second, amount) && account !in b
    ensures r == Some(InsufficientFunds) <==>
      !AnyMissing(first, second, amount) && account in b && b[account] < amount
    ensures r == None <==> !AnyMissing(first, second, amount) && account in b && b[account] >= amount
  {
    if AnyMissing(first, second, amount) then Some(MissingField)
    else if !DoesAccountExist(b, account) then Some(AccountNotFound)
    else if b[account] < amount then Some(InsufficientFunds)
    else None
  }

  /** Every key of the snapshot is a key of the ledger. */
  predicate SnapshotKeysInLedger(s: State) {
    s.persisted.Some? ==> s.persisted.value.Keys <= s.balances.Keys
  }

  /** The snapshot has exactly the ledger's keys. */
  predicate SnapshotKeysMatch(s: State) {
    s.persisted.Some? ==> s.persisted.value.Keys == s.balances.Keys
  }

  /**
    Process start: the ledger is the stored snapshot, or empty when the
    file is absent or cannot be read and parsed (the error is only logged).
   */
  function Startup(stored: Option<Balances>): (s: State)
    ensures s.persisted == stored
    ensures stored.None? ==> s.balances == map[]
    ensures stored.Some? ==> s.balances == stored.value
    ensures SnapshotKeysMatch(s) && SnapshotKeysInLedger(s)
  {
    State(stored.GetOr(map[]), stored)
  }

  /** A rejection made before the settlement call: nothing changes. */
  function Reject(s: State, o: Outcome): Reply {
    Reply(o, s, false)
  }

  /**
    `/debin`: reject a missing field, an unknown bank account or
    insufficient funds, in that order, before the settlement call; once
    the call returns, debit the bank account's balance. There is no
    snapshot write and the wallet's balance is not touched.
   */
  function Debin(s: State, walletId: Id, bankAccountId: Id, amount: int, settlementOk: bool): (r: Reply)
    // the guards, in the order the handler checks them
    ensures r.outcome == MissingField <==> AnyMissing(walletId, bankAccountId, amount)
    ensures r.outcome == AccountNotFound <==>
      !AnyMissing(walletId, bankAccountId, amount) && bankAccountId !in s.balances
    ensures r.outcome == InsufficientFunds <==>
      !AnyMissing(walletId, bankAccountId, amount) &&
      bankAccountId in s.balances && s.balances[bankAccountId] < amount
    // the settlement call is issued exactly when every guard passes
    ensures r.settlementCalled <==>
      !AnyMissing(walletId, bankAccountId, amount) &&
      bankAccountId in s.balances && s.balances[bankAccountId] >= amount
    ensures r.outcome == SettlementFailed <==> r.settlementCalled && !settlementOk
    ensures r.outcome == Debited <==> r.settlementCalled && settlementOk
    // only a confirmed settlement changes the ledger; the snapshot never changes
    ensures r.outcome != Debited ==> r.next == s
    ensures r.next.persisted == s.persisted
    ensures r.next.balances.Keys == s.balances.Keys
    ensures r.outcome == Debited ==>
      r.next.balances[bankAccountId] == s.balances[bankAccountId] - amount &&
      r.next.balances[bankAccountId] >= 0
    ensures forall k :: k in s.balances && k != bankAccountId ==> r.next.balances[k] == s.balances[k]
  {
    match Validate(s.balances, walletId, bankAccountId, amount, bankAccountId)
    case Some(rejection) => Reject(s, rejection)
    case None =>
      if !settlementOk then
        Reply(SettlementFailed, s, true)
      else
        var b := s.balances[bankAccountId := s.balances[bankAccountId] - amount];
        Reply(Debited, s.(balances := b), true)
  }

  /**
    `/transfer`: reject a missing field, an unknown `fromAccountId` or
    insufficient funds in `fromAccountId`, in that order, before the
    settlement call; once the call returns, debit `toWalletId` (created
    at 0 when absent), write the whole ledger to the snapshot and reply
    with the stored new balance. The funds check and the debit concern
    different keys, as in the handler. When the write throws, the debit
    stays in memory, the snapshot keeps its old content and the reply is
    the 500 of a failed settlement.
   */
  function Transfer(s: State, fromAccountId: Id, toWalletId: Id, amount: int, settlementOk: bool, writeOk: bool): (r: Reply)
    // the guards, in the order the handler checks them
    ensures r.outcome == MissingField <==> AnyMissing(fromAccountId, toWalletId, amount)
    ensures r.outcome == AccountNotFound <==>
      !AnyMissing(fromAccountId, toWalletId, amount) && fromAccountId !in s.balances
    ensures r.outcome == InsufficientFunds <==>
      !AnyMissing(fromAccountId, toWalletId, amount) &&
      fromAccountId in s.balances && s.balances[fromAccountId] < amount
    // the settlement call is issued exactly when every guard passes
    ensures r.settlementCalled <==>
      !AnyMissing(fromAccountId, toWalletId, amount) &&
      fromAccountId in s.balances && s.balances[fromAccountId] >= amount
    ensures r.outcome == SettlementFailed <==> r.settlementCalled && !settlementOk
    ensures r.outcome == WriteFailed <==> r.settlementCalled && settlementOk && !writeOk
    ensures r.outcome.Transferred? <==> r.settlementCalled && settlementOk && writeOk
    // nothing changes unless the settlement call returned
    ensures !(r.settlementCalled && settlementOk) ==> r.next == s
    // once it returned, toWalletId is debited in memory whatever the write does
    ensures r.settlementCalled && settlementOk ==>
      && r.next.balances.Keys == s.balances.Keys + {toWalletId}
      && r.next.balances[toWalletId] == (if toWalletId in s.balances then s.balances[toWalletId] else 0) - amount
    ensures r.outcome.Transferred? ==>
      r.outcome.newBalance == r.next.balances[toWalletId] && r.next.persisted == Some(r.next.balances)
    ensures r.outcome == WriteFailed ==> r.next.persisted == s.persisted
    ensures forall k :: k in s.balances && k != toWalletId ==> r.next.balances[k] == s.balances[k]
  {
    match Validate(s.balances, fromAccountId, toWalletId, amount, fromAccountId)
    case Some(rejection) => Reject(s, rejection)
    case None =>
      if !settlementOk then
        Reply(SettlementFailed, s, true)
      else
        var b := s.balances[toWalletId := Lookup(s.balances, toWalletId).GetOr(0) - amount];
        if !writeOk then
          Reply(WriteFailed, s.(balances := b), true)
        else
          Reply(Transferred(b[toWalletId]), State(b, Some(b)), true)
  }
}
