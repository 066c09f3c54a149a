/** Sending over TCP: partial writes, the queue of what is left, and the count of its bytes. */
module TcpTransport {
  import opened Bytes
  import opened Queue

  datatype State = Disconnected | Connecting | Connected | Failed

  /** What a call of `send` on the socket reports. */
  datatype Written = Wrote(n: nat) | WouldBlock | Broken

  /** The environment: what will become of a message. */
  datatype Luck = Breaks | Flows | MayBlock

  datatype Sent = Done | Blocked(rest: seq<byte>) | Threw

  datatype Answer = Returned(flushed: bool) | Exception

  /** A message handed to a connected transport, and whether it was taken. */
  datatype Call = Call(message: seq<byte>, ok: bool)

  function Size(q: seq<seq<byte>>): nat {
    |Concat(q)|
  }

  lemma {:induction false} SizeIsTotal(q: seq<seq<byte>>)
    ensures Size(q) == Total((m: seq<byte>) => |m|, q)
  {
    if q != [] {
      SizeIsTotal(q[1..]);
    }
  }

  // ------------------------------------------------------------ conservation

  function Messages(calls: seq<Call>): (r: seq<seq<byte>>)
    ensures |r| == |calls|
  {
    seq(|calls|, i requires 0 <= i < |calls| => calls[i].message)
  }

  predicate AllTaken(calls: seq<Call>) {
    forall i :: 0 <= i < |calls| ==> calls[i].ok
  }

  /** The calls up to number `n`, and it if there is one. */
  function Through(calls: seq<Call>, n: nat): seq<Call> {
    calls[..Min(n + 1, |calls|)]
  }

  /**
   * Until the socket breaks, every message was taken, and what was written and what is queued make them
   * up. When it breaks, what was written until then is the beginning of the messages taken and of the
   * one that was being handed over, if the socket broke on it.
   */
  predicate Kept(wire: seq<byte>, q: seq<seq<byte>>, calls: seq<Call>, broken: bool, wireAtBreak: seq<byte>, breakAt: nat) {
    if !broken then AllTaken(calls) && wire + Concat(q) == Concat(Messages(calls))
    else
      && breakAt <= |calls| && AllTaken(calls[..breakAt])
      && wireAtBreak <= Concat(Messages(Through(calls, breakAt)))
  }

  predicate NoneEmpty(q: seq<seq<byte>>) {
    forall i :: 0 <= i < |q| ==> q[i] != []
  }

  /** What is reported last is the amount. */
  predicate Told(reported: seq<int>, amount: int) {
    if reported == [] then amount == 0 else reported[|reported| - 1] == amount
  }

  lemma {:induction false} HeadSize(q: seq<seq<byte>>, rest: seq<byte>)
    requires q != []
    ensures Size(q[1..]) == Size(q) - |q[0]| && Size([rest] + q[1..]) == Size(q) - |q[0]| + |rest|
  {
    assert ([rest] + q[1..])[1..] == q[1..];
  }

  lemma {:induction false} HeadWritten(wire: seq<byte>, q: seq<seq<byte>>)
    requires q != []
    ensures wire + Concat(q) == wire + q[0] + Concat(q[1..])
  {
    assert wire + (q[0] + Concat(q[1..])) == wire + q[0] + Concat(q[1..]);
  }

  /** The head was written in part, and replaced by what is left of it. */
  lemma {:induction false} HeadCut(wire: seq<byte>, q: seq<seq<byte>>, wire1: seq<byte>, rest: seq<byte>)
    requires q != [] && wire1 + rest == wire + q[0]
    ensures wire1 + Concat([rest] + q[1..]) == wire + Concat(q)
  {
    assert ([rest] + q[1..])[1..] == q[1..];
    assert wire1 + (rest + Concat(q[1..])) == wire1 + rest + Concat(q[1..]);
    HeadWritten(wire, q);
  }

  lemma {:induction false} MessagesLast(calls: seq<Call>, c: Call)
    ensures Messages(calls + [c]) == Messages(calls) + [c.message]
    ensures Concat(Messages(calls + [c])) == Concat(Messages(calls)) + c.message
  {
    ConcatLast(Messages(calls), c.message);
  }

  /** A message of which a part was written, the rest queued behind the others, is taken. */
  lemma {:induction false} TakenKept(wire: seq<byte>, q: seq<seq<byte>>, calls: seq<Call>, message: seq<byte>,
                                     wire1: seq<byte>, rest: seq<byte>, q1: seq<seq<byte>>, broken: bool,
                                     wireAtBreak: seq<byte>, breakAt: nat)
    requires Kept(wire, q, calls, broken, wireAtBreak, breakAt)
    requires wire1 + rest == wire + message && (wire1 == wire || q == []) && Concat(q1) == Concat(q) + rest
    ensures Kept(wire1, q1, calls + [Call(message, true)], broken, wireAtBreak, breakAt)
  {
    if broken {
      BrokenKept(calls, Call(message, true), wireAtBreak, breakAt);
    } else {
      MessagesLast(calls, Call(message, true));
      WrittenAndQueued(wire, Concat(q), message, wire1, rest);
    }
  }

  lemma {:induction false} WrittenAndQueued(wire: seq<byte>, queued: seq<byte>, message: seq<byte>, wire1: seq<byte>, rest: seq<byte>)
    requires wire1 + rest == wire + message && (wire1 == wire || queued == [])
    ensures wire1 + (queued + rest) == wire + queued + message
  {
    if wire1 == wire {
      assert rest == (wire1 + rest)[|wire1|..] == message;
    } else {
      assert [] + rest == rest && wire + [] == wire;
    }
  }

  /** The socket broke on the message being handed over, or had been broken before. */
  lemma {:induction false} ThrewKept(wire: seq<byte>, wire1: seq<byte>, calls: seq<Call>, message: seq<byte>, was: bool,
                                     wireAtBreak: seq<byte>, breakAt: nat)
    requires if was then Kept(wire, [], calls, true, wireAtBreak, breakAt)
             else Kept(wire, [], calls, false, [], 0) && wireAtBreak == wire1 <= wire + message && breakAt == |calls|
    ensures Kept(wire1, [], calls + [Call(message, false)], true, wireAtBreak, breakAt)
  {
    if was {
      BrokenKept(calls, Call(message, false), wireAtBreak, breakAt);
    } else {
      assert wire + [] == wire;
      BreakKept(calls, Call(message, false), wireAtBreak);
    }
  }

  /** Once the socket is broken, further calls change nothing about what was written until then. */
  lemma {:induction false} BrokenKept(calls: seq<Call>, c: Call, wireAtBreak: seq<byte>, breakAt: nat)
    requires breakAt <= |calls| && AllTaken(calls[..breakAt])
    requires wireAtBreak <= Concat(Messages(Through(calls, breakAt)))
    ensures AllTaken((calls + [c])[..breakAt]) && wireAtBreak <= Concat(Messages(Through(calls + [c], breakAt)))
  {
    assert (calls + [c])[..breakAt] == calls[..breakAt];
    if breakAt < |calls| {
      assert Through(calls + [c], breakAt) == Through(calls, breakAt);
    } else {
      assert Through(calls + [c], breakAt) == calls + [c] && Through(calls, breakAt) == calls;
      MessagesLast(calls, c);
    }
  }

  /** The socket broke on a message being handed over. */
  lemma {:induction false} BreakKept(calls: seq<Call>, c: Call, wireAtBreak: seq<byte>)
    requires AllTaken(calls) && wireAtBreak <= Concat(Messages(calls)) + c.message
    ensures AllTaken((calls + [c])[..|calls|]) && wireAtBreak <= Concat(Messages(Through(calls + [c], |calls|)))
  {
    assert (calls + [c])[..|calls|] == calls && Through(calls + [c], |calls|) == calls + [c];
    MessagesLast(calls, c);
  }

  class TcpTransport {
    const mSendQueue: Queue<seq<byte>>
    var mState: State
    var mBufferedAmount: int

    /** The amounts reported to the callback. */
    var reported: seq<int>

    /**
     * The environment: which of the coming messages break the socket, all being well once it is used up;
     * the bytes the socket took; and the results other than bytes that it gave.
     */
    var outcomes: seq<bool>
    var wire: seq<byte>
    var blocks: nat
    var broken: bool

    /** History: the messages handed over while connected; what was written, and after how many, when the socket broke. */
    ghost var calls: seq<Call>
    ghost var wireAtBreak: seq<byte>
    ghost var breakAt: nat

    /** Bytes are conserved, the count of queued bytes is right, and so is what was reported of it. */
    ghost predicate Valid()
      reads this, mSendQueue
    {
      && Counted() && Kept(wire, mSendQueue.mQueue, calls, broken, wireAtBreak, breakAt)
    }

    ghost predicate Counted()
      reads this, mSendQueue
    {
      && mSendQueue.Valid() && mSendQueue.mLimit == 0 && !mSendQueue.mStopping
      && NoneEmpty(mSendQueue.mQueue)
      && mBufferedAmount == Size(mSendQueue.mQueue)
      && Told(reported, mBufferedAmount)
    }

    constructor (outcomes: seq<bool>)
      ensures Valid() && fresh(mSendQueue) && mState == Disconnected && this.outcomes == outcomes
      ensures wire == [] && calls == [] && reported == [] && blocks == 0 && !broken && mSendQueue.mQueue == []
    {
      mSendQueue := new Queue(0, _ => 1);
      mState, mBufferedAmount, reported := Disconnected, 0, [];
      this.outcomes, wire, blocks, broken := outcomes, [], 0, false;
      calls, wireAtBreak, breakAt := [], [], 0;
    }

    /** Any count from one to all of it, would-block, or an error, as the luck of the message has it. */
    method SocketSend(data: seq<byte>, luck: Luck) returns (r: Written)
      requires data != []
      modifies this`wire, this`blocks, this`broken, this`wireAtBreak, this`breakAt
      ensures r.Wrote? ==> 0 < r.n <= |data| && wire == old(wire) + data[..r.n] && blocks == old(blocks) && broken == old(broken)
      ensures r.WouldBlock? ==> wire == old(wire) && blocks == old(blocks) + 1 && broken == old(broken)
      ensures r.Broken? ==> wire == old(wire) && blocks == old(blocks) && broken
      ensures if broken && !old(broken) then wireAtBreak == wire && breakAt == |calls|
              else wireAtBreak == old(wireAtBreak) && breakAt == old(breakAt)
      ensures match luck
              case Breaks => r.Broken? || (r.Wrote? && r.n < |data|)
              case Flows => r.Wrote?
              case MayBlock => !r.Broken?
    {
      var k: int := *;
      if 0 < k < |data| {
        wire := wire + data[..k];
        return Wrote(k);
      } else if luck == Breaks {
        if !broken {
          wireAtBreak, breakAt := wire, |calls|;
        }
        broken := true;
        return Broken;
      } else if luck == MayBlock && k == 0 {
        blocks := blocks + 1;
        return WouldBlock;
      }
      wire := wire + data;
      assert data[..|data|] == data;
      return Wrote(|data|);
    }

    /** Write a message until it is all written, or the socket would block and a suffix of it is left. */
    method TrySendMessage(message: seq<byte>, luck: Luck) returns (r: Sent)
      requires luck == Breaks ==> message != []
      modifies this`wire, this`blocks, this`broken, this`wireAtBreak, this`breakAt
      ensures r.Done? ==> wire == old(wire) + message && blocks == old(blocks) && broken == old(broken)
      ensures r.Blocked? ==> r.rest != [] && wire + r.rest == old(wire) + message && old(wire) <= wire
      ensures r.Blocked? ==> blocks == old(blocks) + 1 && broken == old(broken)
      ensures r.Threw? ==> broken && blocks == old(blocks) && old(wire) <= wire < old(wire) + message
      ensures if broken && !old(broken) then wireAtBreak == wire && breakAt == |calls|
              else wireAtBreak == old(wireAtBreak) && breakAt == old(breakAt)
      ensures luck == Breaks <==> r.Threw?
      ensures luck == Flows ==> r.Done?
    {
      var data := message;
      while data != []
        invariant wire + data == old(wire) + message && old(wire) <= wire && (luck == Breaks ==> data != [])
        invariant blocks == old(blocks) && broken == old(broken)
        invariant wireAtBreak == old(wireAtBreak) && breakAt == old(breakAt)
        decreases |data|
      {
        ghost var before, was := wire, data;
        var r := SocketSend(data, luck);
        match r
        case WouldBlock => return Blocked(data);
        case Broken =>
          assert wire < wire + data;
          return Threw;
        case Wrote(n) =>
          data := data[n..];
          assert wire + data == before + was;
      }
      return Done;
    }

    /** A sum below zero counts as zero; any other is exact, and a change of it is reported. */
    method UpdateBufferedAmount(delta: int)
      requires Told(reported, mBufferedAmount)
      modifies this`mBufferedAmount, this`reported
      ensures Told(reported, mBufferedAmount)
      ensures old(mBufferedAmount) + delta >= 0 ==> mBufferedAmount == old(mBufferedAmount) + delta
      ensures old(mBufferedAmount) + delta < 0 && delta != 0 ==> mBufferedAmount == 0
      ensures reported == if delta == 0 then old(reported) else old(reported) + [mBufferedAmount]
    {
      if delta == 0 {
        return;
      }
      mBufferedAmount := if mBufferedAmount + delta > 0 then mBufferedAmount + delta else 0;
      reported := reported + [mBufferedAmount];
    }

    /** One round of the loop: write the head, or as much of it as the socket takes. */
    method TrySendHead(luck: Luck) returns (s: Sent)
      requires Valid() && mSendQueue.mQueue != []
      modifies this`mBufferedAmount, this`wire, this`blocks, this`broken, this`wireAtBreak, this`breakAt, this`reported,
               mSendQueue
      ensures Valid() && old(wire) <= wire
      ensures s.Done? ==> mSendQueue.mQueue == old(mSendQueue.mQueue)[1..] && blocks == old(blocks) && broken == old(broken)
      ensures s.Blocked? ==> mSendQueue.mQueue != [] && blocks == old(blocks) + 1 && broken == old(broken)
      ensures s.Threw? ==> mSendQueue.mQueue == old(mSendQueue.mQueue) && broken
      ensures (luck == Breaks <==> s.Threw?) && (luck == Flows ==> s.Done?)
    {
      var next := mSendQueue.Peek();
      var message := next.value;
      ghost var q, before := mSendQueue.mQueue, wire;
      s := TrySendMessage(message, luck);
      HeadWritten(before, q);
      match s
      case Threw =>
        if !old(broken) {
          assert Through(calls, |calls|) == calls && calls[..|calls|] == calls;
        }
      case Blocked(rest) =>
        HeadCut(before, q, wire, rest);
        HeadSize(q, rest);
        var was := mSendQueue.Exchange(rest);
        UpdateBufferedAmount(-|message| + |rest|);
      case Done =>
        HeadSize(q, []);
        var popped := mSendQueue.Pop();
        UpdateBufferedAmount(-|message|);
    }

    /**
     * Write the queue; stop early when the socket would block. The environment knows whether the socket
     * breaks before the call is over, which may be on the message that follows, if one does.
     */
    method TrySendQueue(breaks: bool, more: bool) returns (r: Answer)
      requires Valid()
      modifies this`mBufferedAmount, this`wire, this`blocks, this`broken, this`wireAtBreak, this`breakAt, this`reported,
               mSendQueue
      ensures Valid() && old(wire) <= wire
      ensures r == Returned(true) ==> mSendQueue.mQueue == [] && blocks == old(blocks) && broken == old(broken)
      ensures r == Returned(false) ==> mSendQueue.mQueue != [] && blocks == old(blocks) + 1 && broken == old(broken)
      ensures r == Exception ==> broken && mSendQueue.mQueue != [] && breaks
      ensures breaks ==> r == Exception || (r == Returned(true) && (more || old(mSendQueue.mQueue) == []))
    {
      while mSendQueue.mQueue != []
        invariant Valid() && old(wire) <= wire && blocks == old(blocks) && broken == old(broken)
        invariant breaks && !more && old(mSendQueue.mQueue) != [] ==> mSendQueue.mQueue != []
        decreases |mSendQueue.mQueue|
      {
        var here: bool := *;
        var luck := if !breaks then MayBlock
                    else if here || (!more && |mSendQueue.mQueue| == 1) then Breaks
                    else Flows;
        var s := TrySendHead(luck);
        match s
        case Threw => return Exception;
        case Blocked(_) => return Returned(false);
        case Done =>
      }
      return Returned(true);
    }

    /** Queue what is left of a message; with that it is taken. */
    method QueueRest(rest: seq<byte>, ghost message: seq<byte>, ghost before: seq<byte>)
      requires Counted() && rest != []
      requires Kept(before, mSendQueue.mQueue, calls, broken, wireAtBreak, breakAt)
      requires wire + rest == before + message && (wire == before || mSendQueue.mQueue == [])
      modifies this`mBufferedAmount, this`reported, this`calls, mSendQueue
      ensures Valid() && calls == old(calls) + [Call(message, true)]
      ensures mSendQueue.mQueue == old(mSendQueue.mQueue) + [rest]
    {
      ConcatLast(mSendQueue.mQueue, rest);
      TakenKept(before, mSendQueue.mQueue, calls, message, wire, rest, mSendQueue.mQueue + [rest], broken, wireAtBreak, breakAt);
      var waits := mSendQueue.Push(rest);
      UpdateBufferedAmount(|rest|);
      calls := calls + [Call(message, true)];
    }

    /** Write a message with nothing queued before it, and queue what is left of it. */
    method WriteMessage(message: seq<byte>, ok: bool) returns (r: Answer)
      requires Valid() && message != [] && mSendQueue.mQueue == []
      modifies this`mBufferedAmount, this`wire, this`blocks, this`broken, this`wireAtBreak, this`breakAt, this`reported,
               this`calls, mSendQueue
      ensures Valid() && old(wire) <= wire && calls == old(calls) + [Call(message, ok)]
      ensures r == Returned(true) ==> mSendQueue.mQueue == [] && blocks == old(blocks) && broken == old(broken)
      ensures r == Returned(false) ==> mSendQueue.mQueue != [] && blocks == old(blocks) + 1 && broken == old(broken)
      ensures (r == Exception <==> !ok) && (!ok ==> broken)
    {
      ghost var before := wire;
      var s := TrySendMessage(message, if ok then MayBlock else Breaks);
      match s
      case Threw =>
        ThrewKept(before, wire, calls, message, old(broken), wireAtBreak, breakAt);
        calls := calls + [Call(message, false)];
        return Exception;
      case Done =>
        assert wire + [] == wire && [] + [] == Concat(mSendQueue.mQueue);
        TakenKept(before, [], calls, message, wire, [], [], broken, wireAtBreak, breakAt);
        calls := calls + [Call(message, true)];
        return Returned(true);
      case Blocked(left) =>
        QueueRest(left, message, before);
        return Returned(false);
    }

    /** Flush the queue and write the message, or queue what the socket would not take of it. */
    method Outgoing(message: seq<byte>, ok: bool) returns (r: Answer)
      requires Valid() && message != []
      modifies this`mBufferedAmount, this`wire, this`blocks, this`broken, this`wireAtBreak, this`breakAt, this`reported,
               this`calls, mSendQueue
      ensures Valid() && old(wire) <= wire && calls == old(calls) + [Call(message, ok)]
      ensures r == Returned(true) ==> mSendQueue.mQueue == [] && blocks == old(blocks) && broken == old(broken)
      ensures r == Returned(false) ==> mSendQueue.mQueue != [] && blocks == old(blocks) + 1 && broken == old(broken)
      ensures (r == Exception <==> !ok) && (!ok ==> broken)
    {
      r := TrySendQueue(!ok, true);
      match r
      case Exception =>
        BrokenKept(calls, Call(message, false), wireAtBreak, breakAt);
        calls := calls + [Call(message, false)];
      case Returned(flushed) =>
        if flushed {
          r := WriteMessage(message, ok);
        } else {
          QueueRest(message, message, wire);
        }
    }

    /** True exactly when nothing is left in the queue. An empty message only flushes. */
    method Send(message: seq<byte>) returns (r: Answer)
      requires Valid()
      modifies this`mBufferedAmount, this`wire, this`blocks, this`broken, this`wireAtBreak, this`breakAt, this`reported,
               this`calls, this`outcomes, mSendQueue
      ensures Valid() && old(wire) <= wire
      ensures mState != Connected ==> r == Exception && wire == old(wire) && mSendQueue.mQueue == old(mSendQueue.mQueue)
      ensures r.Returned? ==> r.flushed == (mSendQueue.mQueue == []) && blocks == old(blocks) + (if r.flushed then 0 else 1)
      ensures r.Exception? && mState == Connected ==> broken
      ensures if mState != Connected || message == [] then calls == old(calls) && outcomes == old(outcomes)
              else
                && calls == old(calls) + [Call(message, r.Returned?)]
                && r.Returned? == (old(outcomes) == [] || old(outcomes)[0])
                && outcomes == if old(outcomes) == [] then [] else old(outcomes)[1..]
    {
      if mState != Connected {
        return Exception;
      }
      if message == [] {
        var breaks: bool := *;
        r := TrySendQueue(breaks, false);
      } else {
        var ok := outcomes == [] || outcomes[0];
        if outcomes != [] {
          outcomes := outcomes[1..];
        }
        r := Outgoing(message, ok);
      }
    }

    /** On a socket that is connected already. */
    method Start()
      requires Valid()
      modifies this`mState
      ensures Valid() && mState == Connected
    {
      mState := Connected;
    }

    method Close()
      requires Valid()
      modifies this`mState
      ensures Valid() && mState == Disconnected
    {
      mState := Disconnected;
    }

    /** The socket can take bytes again: write the queue, or give up when the socket is broken. */
    method OnWritable()
      requires Valid()
      modifies this`mState, this`mBufferedAmount, this`wire, this`blocks, this`broken, this`wireAtBreak, this`breakAt,
               this`reported, mSendQueue
      ensures Valid() && old(wire) <= wire
      ensures (mState == Disconnected && broken) || mState == old(mState)
      ensures broken && !old(broken) ==> mState == Disconnected
      ensures !broken ==> (mSendQueue.mQueue == [] <==> blocks == old(blocks))
    {
      var breaks: bool := *;
      var r := TrySendQueue(breaks, false);
      if r == Exception {
        mState := Disconnected;
      }
    }
  }
}
