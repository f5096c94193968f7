/**
 * The static `int` counters of the source (Account.accountCounter,
 * Transaction.transactionCounter, Customer.customerCounter) as objects, so
 * that the operations that advance them can say so in their frames.
 */
module Counters {

  class Counter {
    var value: nat

    constructor (initial: nat)
      ensures value == initial
    {
      value := initial;
    }

    /** `++counter`: advances and returns the new value. */
    method Next() returns (n: nat)
      modifies this
      ensures value == old(value) + 1 && n == value
    {
      value := value + 1;
      n := value;
    }

    /** `counter++`: returns the current value and advances. */
    method TakeAndAdvance() returns (n: nat)
      modifies this
      ensures value == old(value) + 1 && n == old(value)
    {
      n := value;
      value := value + 1;
    }

    /** `if (n > counter) counter = n`. */
    method RaiseTo(n: int)
      modifies this
      ensures value == if n > old(value) then n else old(value)
      ensures value >= old(value)
    {
      if n > value {
        value := n;
      }
    }
  }
}
