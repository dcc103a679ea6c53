/**
  The gateway over its lifetime: the ledger is process-wide state that
  every request reads and may change, and each request is handled as one
  atomic step. `Serve` replays a sequence of requests; the lemmas state
  what holds of every such sequence, and what a restart keeps.
 */
module Lifetime {
  import opened Wrappers
  import opened Ledger

  /**
    One request with the fields of its body, how its settlement call ends
    and, for a transfer, how its snapshot write ends.
   */
  datatype Request =
    | DebinRequest(walletId: Id, bankAccountId: Id, amount: int, settlementOk: bool)
    | TransferRequest(fromAccountId: Id, toWalletId: Id, amount: int, settlementOk: bool, writeOk: bool)

  /** Dispatch one request to its handler. */
  function Handle(s: State, q: Request): (r: Reply)
    // a request whose settlement call throws, or that is rejected, changes nothing
    ensures !q.settlementOk ==> r.next == s
    ensures !r.settlementCalled ==> r.next == s
    // only a success or a failed write leaves a different state
    ensures r.next != s ==> r.outcome.IsSuccess() || r.outcome == WriteFailed
    ensures r.outcome == WriteFailed ==> r.next.persisted == s.persisted
    ensures q.DebinRequest? ==> r.next.persisted == s.persisted && r.next.balances.Keys == s.balances.Keys
  {
    match q
    case DebinRequest(w, b, a, ok) => Debin(s, w, b, a, ok)
    case TransferRequest(f, t, a, ok, wok) => Transfer(s, f, t, a, ok, wok)
  }

  /** The state after handling `qs` one after another, starting from `s`. */
  function Serve(s: State, qs: seq<Request>): State
    decreases |qs|
  {
    if qs == [] then s else Serve(Handle(s, qs[0]).next, qs[1..])
  }

  /** The requests of `qs` whose settlement call would return, in order. */
  function Confirmed(qs: seq<Request>): seq<Request>
    decreases |qs|
  {
    if qs == [] then []
    else if qs[0].settlementOk then [qs[0]] + Confirmed(qs[1..])
    else Confirmed(qs[1..])
  }

  /** Every `toWalletId` named by a transfer in `qs`. */
  function TransferTargets(qs: seq<Request>): set<Id>
    decreases |qs|
  {
    if qs == [] then {}
    else (if qs[0].TransferRequest? then {qs[0].toWalletId} else {}) + TransferTargets(qs[1..])
  }

  /** No balance is negative. */
  predicate NonNegative(b: Balances) {
    forall k :: k in b ==> b[k] >= 0
  }

  /** Restart the process: the ledger is reloaded from the snapshot file. */
  function Restart(s: State): State {
    Startup(s.persisted)
  }

  /** Records are never deleted: every key survives every sequence of requests. */
  lemma {:induction false} KeysNeverRemoved(s: State, qs: seq<Request>)
    ensures s.balances.Keys <= Serve(s, qs).balances.Keys
    decreases |qs|
  {
    if qs != [] {
      KeysNeverRemoved(Handle(s, qs[0]).next, qs[1..]);
    }
  }

  /** A key the ledger did not have can only have been created as a transfer's target. */
  lemma {:induction false} NewKeysAreTransferTargets(s: State, qs: seq<Request>)
    ensures Serve(s, qs).balances.Keys <= s.balances.Keys + TransferTargets(qs)
    decreases |qs|
  {
    if qs != [] {
      NewKeysAreTransferTargets(Handle(s, qs[0]).next, qs[1..]);
    }
  }

  /**
    The ledger never reflects a settlement the external system did not
    confirm: dropping every request whose settlement call fails leaves the
    final state, ledger and snapshot, exactly as it was.
   */
  lemma {:induction false} OnlyConfirmedRequestsMatter(s: State, qs: seq<Request>)
    ensures Serve(s, qs) == Serve(s, Confirmed(qs))
    decreases |qs|
  {
    if qs != [] {
      OnlyConfirmedRequestsMatter(Handle(s, qs[0]).next, qs[1..]);
      if qs[0].settlementOk {
        assert Confirmed(qs)[0] == qs[0];
        assert Confirmed(qs)[1..] == Confirmed(qs[1..]);
      }
    }
  }

  /** The snapshot, when there is one, never holds a key the ledger lacks. */
  lemma {:induction false} SnapshotKeysStayInLedger(s: State, qs: seq<Request>)
    requires SnapshotKeysInLedger(s)
    ensures SnapshotKeysInLedger(Serve(s, qs))
    decreases |qs|
  {
    if qs != [] {
      SnapshotKeysStayInLedger(Handle(s, qs[0]).next, qs[1..]);
    }
  }

  /**
    As long as no snapshot write fails, the snapshot, when there is one,
    has exactly the ledger's keys.
   */
  lemma {:induction false} SnapshotKeysMatchWhileWritesSucceed(s: State, qs: seq<Request>)
    requires SnapshotKeysMatch(s)
    requires forall i :: 0 <= i < |qs| && qs[i].TransferRequest? ==> qs[i].writeOk
    ensures SnapshotKeysMatch(Serve(s, qs))
    decreases |qs|
  {
    if qs != [] {
      SnapshotKeysMatchWhileWritesSucceed(Handle(s, qs[0]).next, qs[1..]);
    }
  }

  /**
    DEBIN alone keeps every balance non-negative and never writes the
    snapshot: its funds check guards the key it debits.
   */
  lemma {:induction false} DebinsKeepBalancesNonNegative(s: State, qs: seq<Request>)
    requires NonNegative(s.balances)
    requires forall i :: 0 <= i < |qs| ==> qs[i].DebinRequest?
    ensures NonNegative(Serve(s, qs).balances)
    ensures Serve(s, qs).persisted == s.persisted
    decreases |qs|
  {
    if qs != [] {
      var q := qs[0];
      var next := Handle(s, q).next;
      assert NonNegative(next.balances) by {
        forall k | k in next.balances ensures next.balances[k] >= 0 {
          if k == q.bankAccountId && Handle(s, q).outcome == Debited {
          } else {
            assert k in s.balances;
          }
        }
      }
      DebinsKeepBalancesNonNegative(next, qs[1..]);
    }
  }

  /** A confirmed and written transfer is durable: a restart reloads the same ledger. */
  lemma TransferIsDurable(s: State, fromAccountId: Id, toWalletId: Id, amount: int)
    requires Transfer(s, fromAccountId, toWalletId, amount, true, true).outcome.Transferred?
    ensures Restart(Transfer(s, fromAccountId, toWalletId, amount, true, true).next).balances ==
            Transfer(s, fromAccountId, toWalletId, amount, true, true).next.balances
  {
  }

  /**
    A transfer whose write fails has moved the money in memory yet answers
    500. When the write fails before the file is touched, a restart undoes
    the debit: the reloaded ledger is what a restart before the request
    would have given.
   */
  lemma FailedWriteIsLostOnRestart(s: State, fromAccountId: Id, toWalletId: Id, amount: int)
    requires Transfer(s, fromAccountId, toWalletId, amount, true, false).outcome == WriteFailed
    ensures Status(Transfer(s, fromAccountId, toWalletId, amount, true, false).outcome) == 500
    ensures Transfer(s, fromAccountId, toWalletId, amount, true, false).next.balances != s.balances
    ensures Restart(Transfer(s, fromAccountId, toWalletId, amount, true, false).next) == Restart(s)
  {
  }

  /**
    A confirmed DEBIN is not durable: from a state whose snapshot is its
    ledger, the DEBIN changes the ledger but a restart before any transfer
    brings back the ledger as it was.
   */
  lemma DebinIsNotDurable(s: State, walletId: Id, bankAccountId: Id, amount: int)
    requires s.persisted == Some(s.balances)
    requires Debin(s, walletId, bankAccountId, amount, true).outcome == Debited
    ensures Debin(s, walletId, bankAccountId, amount, true).next.balances != s.balances
    ensures Restart(Debin(s, walletId, bankAccountId, amount, true).next).balances == s.balances
  {
  }

  /**
    The funds check of a transfer reads `fromAccountId` but the debit
    lands on `toWalletId`: when they differ, the checked account keeps
    its balance and a new wallet starts negative.
   */
  lemma TransferDebitsTheWallet(s: State, fromAccountId: Id, toWalletId: Id, amount: int)
    requires fromAccountId != toWalletId
    requires Transfer(s, fromAccountId, toWalletId, amount, true, true).outcome.Transferred?
    ensures Transfer(s, fromAccountId, toWalletId, amount, true, true).next.balances[fromAccountId] ==
            s.balances[fromAccountId]
    ensures toWalletId !in s.balances ==>
            Transfer(s, fromAccountId, toWalletId, amount, true, true).next.balances[toWalletId] == -amount
  {
  }

  /**
    A negative amount is truthy, so against any balance at least as large
    it passes every guard of DEBIN and raises the balance by its size.
    Every non-negative balance is such a balance.
   */
  lemma NegativeDebinCredits(s: State, walletId: Id, bankAccountId: Id, amount: int)
    requires walletId != "" && bankAccountId != "" && amount < 0
    requires bankAccountId in s.balances && s.balances[bankAccountId] >= amount
    ensures Debin(s, walletId, bankAccountId, amount, true).outcome == Debited
    ensures Debin(s, walletId, bankAccountId, amount, true).next.balances[bankAccountId] ==
            s.balances[bankAccountId] + (-amount) > s.balances[bankAccountId]
  {
  }
}
