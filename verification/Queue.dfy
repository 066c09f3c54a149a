/** The bounded queue with a running total that the transports share. */
module Queue {
  import opened Bytes

  /** The total that `mAmount` is meant to hold. */
  function Total<T(!new)>(amount: T -> nat, q: seq<T>): nat {
    if q == [] then 0 else amount(q[0]) + Total(amount, q[1..])
  }

  lemma {:induction false} TotalPush<T(!new)>(amount: T -> nat, q: seq<T>, x: T)
    ensures Total(amount, q + [x]) == Total(amount, q) + amount(x)
  {
    if q == [] {
      assert q + [x] == [x];
      assert Total(amount, [x]) == amount(x) + Total(amount, [x][1..]);
    } else {
      TotalPush(amount, q[1..], x);
      assert (q + [x])[1..] == q[1..] + [x];
    }
  }

  /** When every element counts for one, as in a queue built without an amount function. */
  lemma {:induction false} TotalOfOnes<T(!new)>(amount: T -> nat, q: seq<T>)
    requires forall x :: amount(x) == 1
    ensures Total(amount, q) == |q|
  {
    if q != [] {
      TotalOfOnes(amount, q[1..]);
    }
  }

  class Queue<T(!new)> {
    const mLimit: nat          // zero: no limit
    const amount: T -> nat
    var mQueue: seq<T>
    var mAmount: int
    var mStopping: bool

    ghost predicate Valid()
      reads this
    {
      mLimit > 0 ==> |mQueue| <= mLimit
    }

    /** How far the running total is from the true one. */
    ghost function Drift(): int
      reads this
    {
      mAmount - Total(amount, mQueue)
    }

    constructor (limit: nat, amount: T -> nat)
      ensures Valid() && mLimit == limit && this.amount == amount
      ensures mQueue == [] && !mStopping && Drift() == 0
    {
      mLimit, this.amount := limit, amount;
      mQueue, mAmount, mStopping := [], 0, false;
    }

    method Stop()
      modifies this`mStopping
      ensures mStopping
    {
      mStopping := true;
    }

    predicate Running()
      reads this
    {
      mQueue != [] || !mStopping
    }

    predicate Full()
      reads this
    {
      mLimit > 0 && |mQueue| >= mLimit
    }

    /**
     * One look at the queue: as long as it is full and not stopped the caller goes on waiting, to look
     * again later; once stopped, the element is dropped.
     */
    method Push(x: T) returns (waits: bool)
      requires Valid()
      modifies this`mQueue, this`mAmount
      ensures Valid() && Drift() == old(Drift())
      ensures waits == old(Full() && !mStopping)
      ensures mQueue == if waits || mStopping then old(mQueue) else old(mQueue) + [x]
    {
      if Full() && !mStopping {
        return true;
      }
      if mStopping {
        return false;
      }
      TotalPush(amount, mQueue, x);
      mAmount := mAmount + amount(x);
      mQueue := mQueue + [x];
      return false;
    }

    method Pop() returns (r: Option<T>)
      requires Valid()
      modifies this`mQueue, this`mAmount
      ensures Valid() && Drift() == old(Drift())
      ensures old(mQueue) == [] ==> r == None && mQueue == []
      ensures old(mQueue) != [] ==> r == Some(old(mQueue)[0]) && mQueue == old(mQueue)[1..]
    {
      if mQueue == [] {
        return None;
      }
      mAmount := mAmount - amount(mQueue[0]);
      r := Some(mQueue[0]);
      mQueue := mQueue[1..];
    }

    method Peek() returns (r: Option<T>)
      ensures r == if mQueue == [] then None else Some(mQueue[0])
    {
      return if mQueue == [] then None else Some(mQueue[0]);
    }

    /**
     * The running total is left alone, so it stays right exactly when the new head counts for as much
     * as the old one.
     */
    method Exchange(x: T) returns (r: Option<T>)
      requires Valid()
      modifies this`mQueue
      ensures Valid()
      ensures old(mQueue) == [] ==> r == None && mQueue == []
      ensures old(mQueue) != [] ==> r == Some(old(mQueue)[0]) && mQueue == [x] + old(mQueue)[1..]
      ensures old(mQueue) != [] && old(Drift()) == 0 ==> (Drift() == 0 <==> amount(x) == amount(old(mQueue)[0]))
    {
      if mQueue == [] {
        return None;
      }
      r := Some(mQueue[0]);
      mQueue := mQueue[0 := x];
      assert mQueue[1..] == old(mQueue)[1..];
    }
  }
}
