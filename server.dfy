/**
  The gateway process: the `balances` object it mutates in place and the
  snapshot file it overwrites, with the two request handlers written as
  the straight-line guard-then-mutate sequences they are. Each handler is
  proved to do what the corresponding function of `Ledger` specifies.
 */
module Server {
  import opened Wrappers
  import opened Ledger

  class Gateway {
    /** The in-memory ledger. */
    var balances: Balances
    /** The content of the snapshot file, `None` when it is unusable. */
    var persisted: Option<Balances>

    /** The abstract state the `Ledger` functions speak of. */
    function Current(): State
      reads this
    {
      State(balances, persisted)
    }

    /** Process start: load the snapshot, or start empty when it is unusable. */
    constructor (stored: Option<Balances>)
      ensures Current() == Startup(stored)
      ensures SnapshotKeysMatch(Current())
    {
      balances := map[];
      persisted := stored;
      if stored.Some? {
        balances := stored.value;
      }
    }

    /** The `/debin` handler. */
    method Debin(walletId: Id, bankAccountId: Id, amount: int, settlementOk: bool)
      returns (outcome: Outcome, settlementCalled: bool)
      modifies this
      ensures Reply(outcome, Current(), settlementCalled) ==
              Ledger.Debin(old(Current()), walletId, bankAccountId, amount, settlementOk)
      ensures persisted == old(persisted)
      ensures outcome != Debited ==> balances == old(balances)
    {
      settlementCalled := false;
      var rejection := Validate(balances, walletId, bankAccountId, amount, bankAccountId);
      if rejection.Some? {
        outcome := rejection.value;
        return;
      }
      settlementCalled := true;
      if !settlementOk {
        outcome := SettlementFailed;
        return;
      }
      balances := balances[bankAccountId := balances[bankAccountId] - amount];
      outcome := Debited;
    }

    /** The `/transfer` handler; the snapshot write comes after the debit. */
    method Transfer(fromAccountId: Id, toWalletId: Id, amount: int, settlementOk: bool, writeOk: bool)
      returns (outcome: Outcome, settlementCalled: bool)
      modifies this
      ensures Reply(outcome, Current(), settlementCalled) ==
              Ledger.Transfer(old(Current()), fromAccountId, toWalletId, amount, settlementOk, writeOk)
      ensures !(settlementCalled && settlementOk) ==> balances == old(balances) && persisted == old(persisted)
      ensures outcome.Transferred? ==> persisted == Some(balances)
      ensures outcome == WriteFailed ==> persisted == old(persisted)
    {
      settlementCalled := false;
      var rejection := Validate(balances, fromAccountId, toWalletId, amount, fromAccountId);
      if rejection.Some? {
        outcome := rejection.value;
        return;
      }
      settlementCalled := true;
      if !settlementOk {
        outcome := SettlementFailed;
        return;
      }
      balances := balances[toWalletId := Lookup(balances, toWalletId).GetOr(0) - amount];
      if !writeOk {
        outcome := WriteFailed;
        return;
      }
      persisted := Some(balances);
      outcome := Transferred(balances[toWalletId]);
    }
  }
}
