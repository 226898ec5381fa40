/**
 An account and a transfer that takes both accounts' locks with one scoped
 lock. Taking the same account's mutex twice is undefined, so the two
 accounts must be distinct. The lock itself is not modelled.
 */
module DeadlockAvoidanceUsingScopedLock {
  import Funds

  /** An account: a balance (its mutex is not modelled). */
  class Account {
    var balance: int

    constructor (initialAmount: int)
      ensures balance == initialAmount
    {
      balance := initialAmount;
    }
  }

  /**
   Moves `amount` from `from` to `to` when `from` holds at least that much,
   and otherwise changes nothing. Only the two `balance` fields may change.
   */
  method TransferScopedLock(from: Account, to: Account, amount: int)
    requires from != to
    modifies from`balance, to`balance
    ensures Funds.Pair(from.balance, to.balance)
            == Funds.Transfer(Funds.Pair(old(from.balance), old(to.balance)), amount)
    ensures from.balance + to.balance == old(from.balance) + old(to.balance)
    ensures old(from.balance) >= amount ==>
              from.balance == old(from.balance) - amount && to.balance == old(to.balance) + amount
    ensures old(from.balance) < amount ==>
              from.balance == old(from.balance) && to.balance == old(to.balance)
    ensures old(from.balance) >= amount ==> from.balance >= 0
  {
    if from.balance >= amount {
      from.balance := from.balance - amount;
      to.balance := to.balance + amount;
    }
  }
}
