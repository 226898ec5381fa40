/**
 The balance rule shared by both deadlock-avoiding transfers, on values.

 Both `transfer_safe_lock` and `transfer_scoped_lock` do the same thing once
 their locks are held: if the paying account holds at least `amount`, that
 much moves from one balance to the other; otherwise nothing changes. This
 module states that rule once, proves what it promises, and lifts it to a
 ledger of many accounts on which any number of transfers keep the total.
 */
module Funds {

  /** The balances of the paying (`from`) and receiving (`to`) account. */
  datatype Pair = Pair(from: int, to: int)

  /** The pair after `amount` has moved from `from` to `to`. */
  function Moved(before: Pair, amount: int): Pair
  {
    Pair(before.from - amount, before.to + amount)
  }

  /** The critical section of a transfer between two distinct accounts. */
  function Transfer(before: Pair, amount: int): (after: Pair)
    // the combined balance is conserved
    ensures after.from + after.to == before.from + before.to
    // all or nothing: exactly `amount` moves, or nothing does
    ensures after == Moved(before, amount) || after == before
    // the guard decides which: enough funds moves, too few leaves both unchanged
    ensures before.from >= amount ==> after == Moved(before, amount)
    ensures before.from < amount ==> after == before
    // a transfer that went through never overdraws the paying account
    ensures before.from >= amount ==> after.from >= 0
  {
    if before.from >= amount then Moved(before, amount) else before
  }

  /** The total money held by a ledger of accounts. */
  function Total(balances: seq<int>): int
  {
    if balances == [] then 0 else balances[0] + Total(balances[1..])
  }

  lemma {:induction false} TotalUpdate(balances: seq<int>, i: nat, v: int)
    requires i < |balances|
    ensures Total(balances[i := v]) == Total(balances) - balances[i] + v
  {
    if i > 0 {
      assert balances[i := v][1..] == balances[1..][i - 1 := v];
      TotalUpdate(balances[1..], i - 1, v);
    } else {
      assert balances[i := v][1..] == balances[1..];
    }
  }

  /**
   A transfer from account `from` to account `to` of a ledger, accounts being
   positions: the same position is the early return of `transfer_safe_lock`,
   two positions are the guarded update of both balances.
   */
  function ApplyTransfer(balances: seq<int>, from: nat, to: nat, amount: int): seq<int>
    requires from < |balances| && to < |balances|
  {
    if from == to then balances
    else
      var after := Transfer(Pair(balances[from], balances[to]), amount);
      balances[from := after.from][to := after.to]
  }

  /** One transfer conserves the ledger's total and touches only its two accounts. */
  lemma TransferKeepsTotal(balances: seq<int>, from: nat, to: nat, amount: int)
    requires from < |balances| && to < |balances|
    ensures |ApplyTransfer(balances, from, to, amount)| == |balances|
    ensures Total(ApplyTransfer(balances, from, to, amount)) == Total(balances)
    ensures forall k :: 0 <= k < |balances| && k != from && k != to ==>
              ApplyTransfer(balances, from, to, amount)[k] == balances[k]
  {
    if from != to {
      var after := Transfer(Pair(balances[from], balances[to]), amount);
      var paid := balances[from := after.from];
      TotalUpdate(balances, from, after.from);
      TotalUpdate(paid, to, after.to);
    }
  }

  /** A request to move `amount` from ledger position `from` to position `to`. */
  datatype Request = Request(from: nat, to: nat, amount: int)

  /** Every request names accounts of a ledger of `size` accounts. */
  predicate Addresses(size: nat, requests: seq<Request>)
  {
    forall i :: 0 <= i < |requests| ==> requests[i].from < size && requests[i].to < size
  }

  /** The ledger after the requests are carried out one after the other. */
  function ApplyAll(balances: seq<int>, requests: seq<Request>): (r: seq<int>)
    requires Addresses(|balances|, requests)
    ensures |r| == |balances|
    decreases |requests|
  {
    if requests == [] then balances
    else
      var q := requests[0];
      TransferKeepsTotal(balances, q.from, q.to, q.amount);
      ApplyAll(ApplyTransfer(balances, q.from, q.to, q.amount), requests[1..])
  }

  /** Any number of transfers among any accounts keep the total of all balances. */
  lemma {:induction false} TransfersKeepTotal(balances: seq<int>, requests: seq<Request>)
    requires Addresses(|balances|, requests)
    ensures Total(ApplyAll(balances, requests)) == Total(balances)
    decreases |requests|
  {
    if requests != [] {
      var q := requests[0];
      TransferKeepsTotal(balances, q.from, q.to, q.amount);
      var next := ApplyTransfer(balances, q.from, q.to, q.amount);
      TransfersKeepTotal(next, requests[1..]);
    }
  }
}
