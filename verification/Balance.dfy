/** Balances per (exchange, asset): total and locked funds. */
module Balances {
  import opened Prelude

  datatype Account = Account(total: real, locked: real) {
    function Available(): real {
      total - locked
    }
  }

  type Key = (Exchange, string)

  type Ledger = map<Key, Account>

  /** The account a lookup sees: a missing one reads as empty. */
  function At(ledger: Ledger, key: Key): Account {
    if key in ledger then ledger[key] else Account(0.0, 0.0)
  }

  /** Every lookup goes through `setdefault`, so it leaves an entry behind. */
  function Touched(ledger: Ledger, key: Key): Ledger {
    ledger[key := At(ledger, key)]
  }

  predicate Covers(ledger: Ledger, key: Key, amount: real) {
    At(ledger, key).total - At(ledger, key).locked >= amount
  }

  function Reserved(ledger: Ledger, key: Key, amount: real): Ledger {
    var account := At(ledger, key);
    if !Covers(ledger, key, amount) then Touched(ledger, key)
    else ledger[key := account.(locked := account.locked + amount)]
  }

  function Released(ledger: Ledger, key: Key, amount: real): Ledger {
    var account := At(ledger, key);
    ledger[key := account.(locked := Max(0.0, account.locked - amount))]
  }

  function Settled(ledger: Ledger, key: Key, reserved: real, actual: real): Ledger {
    var account := At(ledger, key);
    ledger[key := Account(account.total - actual, Max(0.0, account.locked - reserved))]
  }

  function Credited(ledger: Ledger, key: Key, amount: real): Ledger {
    var account := At(ledger, key);
    ledger[key := account.(total := account.total + amount)]
  }

  function Debited(ledger: Ledger, key: Key, amount: real): Ledger {
    var account := At(ledger, key);
    if !Covers(ledger, key, amount) then Touched(ledger, key)
    else ledger[key := account.(total := account.total - amount)]
  }

  /** A transfer the operator has made by hand: a debit, then a credit if the debit succeeded. */
  function Transferred(ledger: Ledger, asset: string, from: Exchange, to: Exchange, amount: real): Ledger {
    var debited := Debited(ledger, (from, asset), amount);
    if Covers(ledger, (from, asset), amount) then Credited(debited, (to, asset), amount) else debited
  }

  // ---- what the operations mean -------------------------------------------

  /** What is reserved cannot be reserved again: after it, exactly as much is covered as was left over. */
  lemma ReservationHolds(ledger: Ledger, key: Key, amount: real, more: real)
    ensures Covers(ledger, key, amount) ==>
              (Covers(Reserved(ledger, key, amount), key, more) <==> Covers(ledger, key, amount + more))
    ensures !Covers(ledger, key, amount) ==> At(Reserved(ledger, key, amount), key) == At(ledger, key)
    ensures At(Reserved(ledger, key, amount), key).total == At(ledger, key).total
  {
  }

  /** Releasing or settling frees what was locked of the amount and no more, so nothing is ever locked below zero. */
  lemma UnlockingStopsAtZero(ledger: Ledger, key: Key, amount: real, paid: real)
    ensures At(Released(ledger, key, amount), key).locked == At(Settled(ledger, key, amount, paid), key).locked >= 0.0
    ensures At(Released(ledger, key, amount), key).locked
            == if At(ledger, key).locked >= amount then At(ledger, key).locked - amount else 0.0
    ensures At(Released(ledger, key, amount), key).total == At(ledger, key).total
    ensures At(Settled(ledger, key, amount, paid), key).total == At(ledger, key).total - paid
  {
  }

  /** A credit can always be debited again, which leaves the account as it was; what is not covered changes nothing. */
  lemma DebitUndoesCredit(ledger: Ledger, key: Key, amount: real)
    ensures Covers(Credited(ledger, key, amount), key, amount) <==> Covers(ledger, key, 0.0)
    ensures Covers(ledger, key, 0.0) ==> At(Debited(Credited(ledger, key, amount), key, amount), key) == At(ledger, key)
    ensures Covers(ledger, key, amount) ==>
              At(Credited(Debited(ledger, key, amount), key, amount), key) == At(ledger, key)
    ensures !Covers(ledger, key, amount) ==> At(Debited(ledger, key, amount), key) == At(ledger, key)
  {
  }

  /** Every operation is about one account: all the others, and what is in the book at all, stay. */
  lemma OthersStay(ledger: Ledger, key: Key, amount: real, paid: real, k: Key)
    requires k != key
    ensures At(Touched(ledger, key), k) == At(ledger, k)
    ensures At(Reserved(ledger, key, amount), k) == At(ledger, k)
    ensures At(Released(ledger, key, amount), k) == At(ledger, k)
    ensures At(Settled(ledger, key, amount, paid), k) == At(ledger, k)
    ensures At(Credited(ledger, key, amount), k) == At(ledger, k)
    ensures At(Debited(ledger, key, amount), k) == At(ledger, k)
  {
  }

  /** A lookup shows the account and leaves an entry behind; an account never looked up reads as empty. */
  lemma LookupsRemain(ledger: Ledger, key: Key, amount: real, paid: real)
    ensures key !in ledger ==> At(ledger, key) == Account(0.0, 0.0)
    ensures At(Touched(ledger, key), key) == At(ledger, key)
    ensures Touched(ledger, key).Keys == Reserved(ledger, key, amount).Keys == Released(ledger, key, amount).Keys
            == Settled(ledger, key, amount, paid).Keys == Credited(ledger, key, amount).Keys
            == Debited(ledger, key, amount).Keys == ledger.Keys + {key}
  {
  }

  class BalanceManager {
    var ledger: Ledger

    constructor ()
      ensures ledger == map[]
    {
      ledger := map[];
    }

    method SetBalance(exchange: Exchange, asset: string, total: real)
      modifies this
      ensures ledger == old(ledger)[(exchange, asset) := Account(total, 0.0)]
    {
      ledger := ledger[(exchange, asset) := Account(total, 0.0)];
    }

    method Get(exchange: Exchange, asset: string) returns (account: Account)
      modifies this
      ensures account == At(old(ledger), (exchange, asset))
      ensures ledger == Touched(old(ledger), (exchange, asset))
    {
      if (exchange, asset) !in ledger {
        ledger := ledger[(exchange, asset) := Account(0.0, 0.0)];
      }
      account := ledger[(exchange, asset)];
    }

    method Available(exchange: Exchange, asset: string) returns (amount: real)
      modifies this
      ensures amount == At(old(ledger), (exchange, asset)).Available()
      ensures ledger == Touched(old(ledger), (exchange, asset))
    {
      var account := Get(exchange, asset);
      amount := account.Available();
    }

    method Reserve(exchange: Exchange, asset: string, amount: real) returns (ok: bool)
      modifies this
      ensures ledger == Reserved(old(ledger), (exchange, asset), amount)
      ensures ok == Covers(old(ledger), (exchange, asset), amount)
    {
      var account := Get(exchange, asset);
      if account.total - account.locked < amount {
        return false;
      }
      ledger := ledger[(exchange, asset) := account.(locked := account.locked + amount)];
      return true;
    }

    method Release(exchange: Exchange, asset: string, amount: real)
      modifies this
      ensures ledger == Released(old(ledger), (exchange, asset), amount)
    {
      var account := Get(exchange, asset);
      ledger := ledger[(exchange, asset) := account.(locked := Max(0.0, account.locked - amount))];
    }

    method Settle(exchange: Exchange, asset: string, reserved: real, actual: real)
      modifies this
      ensures ledger == Settled(old(ledger), (exchange, asset), reserved, actual)
    {
      var account := Get(exchange, asset);
      account := account.(locked := Max(0.0, account.locked - reserved));
      account := account.(total := account.total - actual);
      ledger := ledger[(exchange, asset) := account];
    }

    method Credit(exchange: Exchange, asset: string, amount: real)
      modifies this
      ensures ledger == Credited(old(ledger), (exchange, asset), amount)
    {
      var account := Get(exchange, asset);
      ledger := ledger[(exchange, asset) := account.(total := account.total + amount)];
    }

    method Debit(exchange: Exchange, asset: string, amount: real) returns (ok: bool)
      modifies this
      ensures ledger == Debited(old(ledger), (exchange, asset), amount)
      ensures ok == Covers(old(ledger), (exchange, asset), amount)
    {
      var account := Get(exchange, asset);
      if account.total - account.locked < amount {
        return false;
      }
      ledger := ledger[(exchange, asset) := account.(total := account.total - amount)];
      return true;
    }
  }

  method RecordManualTransfer(balances: BalanceManager, asset: string, from: Exchange, to: Exchange, amount: real)
    returns (ok: bool)
    modifies balances
    ensures balances.ledger == Transferred(old(balances.ledger), asset, from, to, amount)
    ensures ok == Covers(old(balances.ledger), (from, asset), amount)
  {
    ok := balances.Debit(from, asset, amount);
    if !ok {
      return false;
    }
    balances.Credit(to, asset, amount);
    return true;
  }
}
