/**
 An account and a transfer that locks both accounts at once and tolerates
 being given the same account twice. The locks (`std::lock` and the adopting
 `lock_guard`s) are not modelled: only what happens to the balances while
 they are held.
 */
module DeadlockAvoidanceUsingLock {
  import Funds

  /** An account: a balance (its mutex is not modelled). */
  class Account {
    var balance: int

    constructor (initialAmount: int)
      ensures balance == initialAmount
    {
      balance := initialAmount;
    }
  }

  /**
   Moves `amount` from `from` to `to` when `from` holds at least that much.
   Given the same account twice it returns at once and changes nothing.
   Only the two `balance` fields may change.
   */
  method TransferSafeLock(from: Account, to: Account, amount: int)
    modifies from`balance, to`balance
    ensures from == to ==> from.balance == old(from.balance)
    ensures from != to ==>
              Funds.Pair(from.balance, to.balance)
              == Funds.Transfer(Funds.Pair(old(from.balance), old(to.balance)), amount)
    // the combined balance is conserved in every case, aliasing included
    ensures from.balance + to.balance == old(from.balance) + old(to.balance)
    ensures from != to && old(from.balance) >= amount ==>
              from.balance == old(from.balance) - amount && to.balance == old(to.balance) + amount
    ensures old(from.balance) < amount ==>
              from.balance == old(from.balance) && to.balance == old(to.balance)
    ensures from != to && old(from.balance) >= amount ==> from.balance >= 0
  {
    if from == to {
      return;
    }
    if from.balance >= amount {
      from.balance := from.balance - amount;
      to.balance := to.balance + amount;
    }
  }
}
