# Deadlock-free transfers and a producer/consumer queue, modelled in Dafny

This project models the two parts of a C++ multithreading tutorial that behave
in a way that can be stated sequentially once locking is abstracted away:

- **Account transfers.** `transfer_safe_lock` locks two `Account`s with
  `std::lock` and returns early when given the same account twice.
  `transfer_scoped_lock` locks both with one `std::scoped_lock`. Both then move
  `amount` from one balance to the other when the paying account holds at least
  that much, and otherwise change nothing.
  - `Account` is a class with a `balance` field in each module
    (`DeadlockAvoidanceUsingLock`, `DeadlockAvoidanceUsingScopedLock`).
  - Each transfer is a method that may modify only the two `balance` fields.
  - The balance rule itself is the value-level function `Funds.Transfer`. It is
    lifted to a ledger of many accounts (`Funds.ApplyAll`), on which any
    sequence of transfers keeps the total of all balances.
  - Locking the same mutex twice in `std::scoped_lock` is undefined behaviour.
    `TransferScopedLock` therefore requires two distinct accounts, while
    `TransferSafeLock` accepts the same account twice and leaves it unchanged.
- **`ThreadsafeQueue<T>`.** Without its mutex and condition variable it is a FIFO
  queue. It is modelled as a class with a `seq<T>` field, `dataQueue`, whose
  element 0 is the front.
  - `Push` appends at the tail.
  - `WaitAndPop` returns the front and removes it. The source waits until the
    queue is non-empty, so the model requires a non-empty queue.
  - `Producer` and `Consumer` are the two driver loops.
  - `ProduceThenConsume` runs them one after the other on a new queue.
  - The concurrent run of `main` is modelled as a *schedule*: the order in which
    the two threads' critical sections (a push or a pop) take the queue's lock.
  - `Replay` runs a schedule on values, and `RunSchedule` runs one on the queue
    object. A schedule in which a pop finds the queue empty is one where the
    consumer would wait. That pop's critical section then happens after the
    next push, which is a different schedule.

Balances are unbounded integers. The queue holds values of any type `T`. The
driver loops use `int`.

## Model

| member | source | states |
|---|---|---|
| Funds.Transfer | 6_DeadLock_Avoidance/2_deadlock_avoidance_using_lock.cpp:23-29 | the combined balance is conserved; all or nothing: exactly `amount` moves or nothing does; it moves exactly when `from` holds at least `amount`, and then `from` is left non-negative |
| Funds.TransferKeepsTotal | 6_DeadLock_Avoidance/2_deadlock_avoidance_using_lock.cpp:13-29 | one transfer in a ledger of accounts, same-account case included, keeps the ledger's length and total and changes no account other than the two named |
| Funds.TransfersKeepTotal | 6_DeadLock_Avoidance/2_deadlock_avoidance_using_lock.cpp:13-29 | any sequence of transfers among any accounts of a ledger keeps the total of all balances |
| DeadlockAvoidanceUsingLock.Account.constructor | 6_DeadLock_Avoidance/2_deadlock_avoidance_using_lock.cpp:10 | a new account's balance is the initial amount |
| DeadlockAvoidanceUsingLock.TransferSafeLock | 6_DeadLock_Avoidance/2_deadlock_avoidance_using_lock.cpp:13-29 | the same account twice: nothing changes; distinct accounts: the new balances are `Funds.Transfer` of the old ones (`from` loses and `to` gains exactly `amount` when `from.balance >= amount`, both unchanged otherwise, `from` non-negative after success); the sum of the two balances is conserved in every case; only the two `balance` fields may change |
| DeadlockAvoidanceUsingScopedLock.Account.constructor | 6_DeadLock_Avoidance/3_deadlock_avoidance_using_scoped_lock.cpp:9 | a new account's balance is the initial amount |
| DeadlockAvoidanceUsingScopedLock.TransferScopedLock | 6_DeadLock_Avoidance/3_deadlock_avoidance_using_scoped_lock.cpp:12-23 | requires distinct accounts (one mutex cannot be locked twice); the new balances are `Funds.Transfer` of the old ones: exactly `amount` moves when `from.balance >= amount`, else both unchanged; the sum is conserved; `from` is non-negative after success; only the two `balance` fields may change |
| ProducerConsumer.ThreadsafeQueue.constructor | 4_Condition_Variables/2_producer_consumer_problem.cpp:8-12 | a new queue is empty |
| ProducerConsumer.ThreadsafeQueue.Push | 4_Condition_Variables/2_producer_consumer_problem.cpp:15-20 | the new contents are the old contents with the value appended at the tail; the length grows by one |
| ProducerConsumer.ThreadsafeQueue.WaitAndPop | 4_Condition_Variables/2_producer_consumer_problem.cpp:22-31 | proceeds only on a non-empty queue; returns the front (oldest) element and removes exactly it: the returned value followed by the new contents is the old contents; the length shrinks by one |
| ProducerConsumer.Range | 4_Condition_Variables/2_producer_consumer_problem.cpp:35-37 | the values the producer's loop pushes: `count` of them (none when `count <= 0`), the i-th being i |
| ProducerConsumer.Producer | 4_Condition_Variables/2_producer_consumer_problem.cpp:34-40 | the queue afterwards is the old contents followed by `0, 1, ..., count - 1` |
| ProducerConsumer.Consumer | 4_Condition_Variables/2_producer_consumer_problem.cpp:42-48 | pops the first `count` values in queue order and returns them in that order; the queue keeps the rest; needs at least `count` values queued when run alone |
| ProducerConsumer.ProduceThenConsume | 4_Condition_Variables/2_producer_consumer_problem.cpp:50-56 | the producer, then the consumer, on a new queue: the consumer receives `0 .. count - 1` in order and the queue ends empty |
| ProducerConsumer.ReplayIsFifo | 4_Condition_Variables/2_producer_consumer_problem.cpp:15-31 | for any interleaving of pushes and pops in which no pop waits forever, the initial contents followed by the pushed values equal the popped values followed by the final contents (no loss, no duplication, no reordering), and one value is popped per pop |
| ProducerConsumer.PushAllThenPopAll | 4_Condition_Variables/2_producer_consumer_problem.cpp:18-30 | pushing `xs` onto an empty queue and popping `|xs|` times, in any order that never waits forever, yields exactly `xs` in order and leaves the queue empty |
| ProducerConsumer.InterleavedRunDeliversInOrder | 4_Condition_Variables/2_producer_consumer_problem.cpp:50-56 | however the producer's and the consumer's critical sections interleave, the consumer receives `0 .. count - 1` in order and the queue ends empty |
| ProducerConsumer.RunSchedule | 4_Condition_Variables/2_producer_consumer_problem.cpp:50-56 | calling `Push` and `WaitAndPop` on the queue object in a schedule's order pops the values, and leaves the contents, that `Replay` gives for that schedule |

## Left out

- Locking: `std::lock`, `std::scoped_lock`, `lock_guard` with `adopt_lock`, `unique_lock` and the mutexes themselves. These are concurrency primitives; only the state changes inside the critical sections are modelled.
- Deadlock freedom of the two transfers. This is a property of concurrent lock acquisition, not of sequential state.
- Condition-variable mechanics (`wait` with its predicate, `notify_one`, spurious wake-ups). The wait is reduced to the non-empty precondition of `WaitAndPop`. A concurrent run is reduced to the order of critical sections, in which a pop's critical section only happens on a non-empty queue.
- `std::cout` output and `sleep_for`: I/O and timing. `Consumer` returns the values it pops, which the source prints.
- TransferSafeLock: does not model 32-bit `int` overflow of `to.balance += amount` or `from.balance -= amount`. Balances are unbounded integers.
- TransferScopedLock: does not model 32-bit `int` overflow either. It requires distinct accounts, because passing one account twice locks the same mutex twice, which is undefined behaviour.
- Consumer: when run alone it requires the queue to hold at least `count` values. In the source a consumer facing an empty queue waits for the producer; that case is covered by the schedules of `RunSchedule` and `InterleavedRunDeliversInOrder`, not by `Consumer` itself.
- The other programs of the repository (thread creation, join and detach, races on counters, mutex and `try_lock` demos, the basic condition-variable example, argument passing, and the program that deadlocks on purpose) are thread-API demonstrations and are not part of this model.
