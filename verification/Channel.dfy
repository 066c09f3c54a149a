/** The receive side of a channel: a bounded queue, and callbacks that may call back. */
module Channel {
  import opened Bytes
  import opened Queue
  import opened ChannelSpec

  const RECV_QUEUE_LIMIT := 1024

  function MessageSize(m: Message): nat {
    if m.kind == Control then 0 else |m.data|
  }

  class Channel {
    const mRecvQueue: Queue<Message>
    var mOpenTriggered: bool
    var messageCallback: bool    // is there one

    /** The environment: what callbacks do. */
    var script: seq<Act>
    ghost var trace: seq<Event>

    ghost function Contents(): Chan
      reads this, mRecvQueue
    {
      Chan(mRecvQueue.mQueue, mOpenTriggered, messageCallback, script, trace)
    }

    ghost predicate Valid()
      reads this, mRecvQueue
    {
      && mRecvQueue.Valid() && mRecvQueue.mLimit == RECV_QUEUE_LIMIT && mRecvQueue.Drift() == 0
      && mRecvQueue.amount == MessageSize && !mRecvQueue.mStopping
      && ChannelSpec.Valid(Contents())
    }

    constructor (script: seq<Act>)
      ensures Valid() && fresh(mRecvQueue) && Contents() == Chan([], false, false, script, [])
    {
      mRecvQueue := new Queue(RECV_QUEUE_LIMIT, MessageSize);
      mOpenTriggered, messageCallback, this.script, trace := false, false, script, [];
    }

    function AvailableAmount(): (n: int)
      requires Valid()
      reads this, mRecvQueue
      ensures n == Total(MessageSize, mRecvQueue.mQueue)
    {
      mRecvQueue.mAmount
    }

    /** Pop a message, for the callback or for a caller of `receive`. */
    method Next(toCallback: bool) returns (next: Option<Message>)
      requires Valid() && (toCallback ==> Depth(trace) > 0)
      modifies this`trace, mRecvQueue
      ensures Valid()
      ensures next == if old(mRecvQueue.mQueue) == [] then None else Some(old(mRecvQueue.mQueue)[0])
      ensures Contents() == if next == None then old(Contents()) else ChannelSpec.Next(old(Contents()), toCallback)
    {
      hide Handed, Taken, Legal, IsOpen;
      ghost var was := Contents();
      next := mRecvQueue.Pop();
      if next.Some? {
        trace := trace + [if toCallback then Called(next.value) else Received(next.value)];
        assert Contents() == ChannelSpec.Next(was, toCallback);
      }
    }

    method Receive() returns (next: Option<Message>)
      requires Valid()
      modifies this`trace, mRecvQueue
      ensures Valid() && Contents() == ChannelSpec.Receive(old(Contents()))
      ensures next == if old(mRecvQueue.mQueue) == [] then None else Some(old(mRecvQueue.mQueue)[0])
      ensures next.Some? ==> mRecvQueue.mQueue == old(mRecvQueue.mQueue)[1..] && trace == old(trace) + [Received(next.value)]
    {
      next := Next(false);
    }

    /**
     * Give the callback what waits, as long as there is one. It may do anything user code may do. On a
     * channel that is not open nothing happens.
     */
    method FlushPendingMessages()
      requires Valid()
      modifies this, mRecvQueue
      ensures Valid() && Contents() == ChannelSpec.FlushPendingMessages(old(Contents()))
      ensures !old(mOpenTriggered) ==> Contents() == old(Contents())
      decreases |mRecvQueue.mQueue|, |script|, 2
    {
      hide Handed, Taken, Legal, IsOpen, Depth, HandOut, ChannelSpec.UserCode, ChannelSpec.Next;
      if !mOpenTriggered {
        return;
      }
      ghost var began := Begun(Contents());
      trace := trace + [Flushing];
      while messageCallback
        invariant Valid() && Depth(trace) == Depth(began.trace) && HandOut(Contents()) == HandOut(began)
        invariant |mRecvQueue.mQueue| <= |old(mRecvQueue.mQueue)| && |script| <= |old(script)|
        decreases |mRecvQueue.mQueue|
      {
        HandOutStep(Contents());
        var next := Next(true);
        if next == None {
          break;
        }
        UserCode();
      }
      HandOutStep(Contents());
      trace := trace + [Flushed];
      assert Contents() == Returned(HandOut(began));
    }

    /** A callback: any calls, one after the other. */
    method UserCode()
      requires Valid()
      modifies this, mRecvQueue
      ensures Valid() && Contents() == ChannelSpec.UserCode(old(Contents()))
      decreases |mRecvQueue.mQueue|, |script|, 0
    {
      hide Handed, Taken, Legal, IsOpen, ChannelSpec.Perform;
      ghost var goal := ChannelSpec.UserCode(Contents());
      while script != []
        invariant Valid() && ChannelSpec.UserCode(Contents()) == goal
        invariant |mRecvQueue.mQueue| <= |old(mRecvQueue.mQueue)| && |script| <= |old(script)|
        decreases |script|
      {
        var act := script[0];
        script := script[1..];
        if act.Done? {
          return;
        }
        Perform(act);
      }
    }

    method Perform(act: Act)
      requires Valid()
      modifies this, mRecvQueue
      ensures Valid() && Contents() == ChannelSpec.Perform(old(Contents()), act)
      decreases |mRecvQueue.mQueue|, |script|, 4
    {
      match act
      case DoReceive =>
        var m := Receive();
      case DoReset => ResetCallbacks();
      case DoOnMessage(callback) => OnMessage(callback);
      case Done =>
    }

    /** Set the message callback, or take it away; what waits is handed out if the channel is open. */
    method OnMessage(callback: bool)
      requires Valid()
      modifies this, mRecvQueue
      ensures Valid() && Contents() == ChannelSpec.OnMessage(old(Contents()), callback)
      ensures !old(mOpenTriggered) ==> trace == old(trace) && mRecvQueue.mQueue == old(mRecvQueue.mQueue)
      decreases |mRecvQueue.mQueue|, |script|, 3
    {
      messageCallback := callback;
      FlushPendingMessages();
    }

    method ResetCallbacks()
      requires Valid()
      modifies this
      ensures Valid() && Contents() == ChannelSpec.ResetCallbacks(old(Contents()))
      ensures !mOpenTriggered && !messageCallback
    {
      mOpenTriggered, messageCallback := false, false;
      trace := trace + [Reset];
      assert Contents() == ChannelSpec.ResetCallbacks(old(Contents()));
    }

    method TriggerOpen()
      requires Valid()
      modifies this, mRecvQueue
      ensures Valid() && Contents() == ChannelSpec.TriggerOpen(old(Contents()))
    {
      hide Handed, Taken, Legal, IsOpen, ChannelSpec.UserCode, ChannelSpec.FlushPendingMessages;
      After(trace, Opened);
      mOpenTriggered := true;
      trace := trace + [Opened];
      UserCode();  // the open callback
      FlushPendingMessages();
    }

    /**
     * A message from the transport. While the queue is full the caller goes on waiting, to try again
     * later; then the message has not been accepted.
     */
    method Incoming(m: Message) returns (waits: bool)
      requires Valid()
      modifies this, mRecvQueue
      ensures Valid() && waits == (m.kind != Control && old(|mRecvQueue.mQueue|) == RECV_QUEUE_LIMIT)
      ensures Contents() == if m.kind == Control || waits then old(Contents()) else Accept(old(Contents()), m)
    {
      hide Handed, Taken, Legal, IsOpen, ChannelSpec.UserCode, ChannelSpec.FlushPendingMessages;
      if m.kind == Control {
        return false;
      }
      After(trace, Accepted(m));
      PushMoves(Handed(trace), mRecvQueue.mQueue, m);
      waits := mRecvQueue.Push(m);
      if waits {
        return;
      }
      trace := trace + [Accepted(m)];
      if |mRecvQueue.mQueue| == 1 {
        UserCode();  // the available callback
      }
      FlushPendingMessages();
    }
  }
}
