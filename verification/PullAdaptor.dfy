/** A queue of messages read as a byte stream by a TLS library that pulls. */
module PullAdaptor {
  import opened Bytes
  import opened Collections
  import opened Queue

  /** The message being read, how much of it was read, and what is queued. */
  datatype Puller = Puller(message: Option<seq<byte>>, position: nat, queue: seq<seq<byte>>, stopped: bool)

  /** `Read([])` is how the library is told that the stream has ended. */
  datatype Answer = Read(data: seq<byte>) | Again

  predicate WellFormed(p: Puller) {
    p.message.Some? ==> p.position <= |p.message.value|
  }

  function Unread(p: Puller): seq<byte>
    requires WellFormed(p)
  {
    if p.message.Some? then p.message.value[p.position..] else []
  }

  /** All bytes taken in and not yet handed out. */
  function Content(p: Puller): seq<byte>
    requires WellFormed(p)
  {
    Unread(p) + Concat(p.queue)
  }

  function ZerosAtFront(q: seq<seq<byte>>): (n: nat)
    ensures n <= |q|
    ensures forall i :: 0 <= i < n ==> q[i] == []
    ensures n < |q| ==> q[n] != []
  {
    if q == [] || q[0] != [] then 0 else 1 + ZerosAtFront(q[1..])
  }

  /** The message that is read next: an exhausted one is replaced by the first one that is not empty. */
  function Refill(p: Puller): (r: Puller)
    requires WellFormed(p)
    ensures WellFormed(r)
  {
    if Unread(p) != [] then p
    else
      var n := ZerosAtFront(p.queue);
      if n < |p.queue| then Puller(Some(p.queue[n]), 0, p.queue[n + 1..], p.stopped)
      else if n > 0 then Puller(Some(p.queue[n - 1]), 0, [], p.stopped)
      else Puller(None, 0, [], p.stopped)
  }

  /** The zero-sized messages passed through on the way. */
  function PassedThrough(p: Puller): nat
    requires WellFormed(p)
  {
    if Unread(p) != [] then 0 else ZerosAtFront(p.queue)
  }

  function Pull(p: Puller, maxlen: nat): (r: (Answer, Puller))
    requires WellFormed(p)
    ensures WellFormed(r.1)
  {
    var q := Refill(p);
    if q.message.Some? then
      var data := Take(maxlen, q.message.value[q.position..]);
      (Read(data), q.(position := q.position + |data|))
    else if q.queue != [] || !q.stopped then (Again, q)
    else (Read([]), q)
  }

  lemma {:induction false} ZerosAddNothing(q: seq<seq<byte>>)
    ensures Concat(q) == Concat(q[ZerosAtFront(q)..])
  {
    if q != [] && q[0] == [] {
      ZerosAddNothing(q[1..]);
      assert q[ZerosAtFront(q)..] == q[1..][ZerosAtFront(q[1..])..];
    } else {
      assert q[0..] == q;
    }
  }

  lemma {:induction false} RefillKeepsContent(p: Puller)
    requires WellFormed(p)
    ensures Content(Refill(p)) == Content(p)
  {
    if Unread(p) == [] {
      var n := ZerosAtFront(p.queue);
      ZerosAddNothing(p.queue);
      assert p.queue[n..] != [] ==> p.queue[n..][1..] == p.queue[n + 1..];
    }
  }

  lemma {:induction false} TakeSplits(m: seq<byte>, at: nat, maxlen: nat)
    requires at <= |m|
    ensures m[at..] == Take(maxlen, m[at..]) + m[at + |Take(maxlen, m[at..])|..]
  {
  }

  lemma {:induction false} ReadConserves(f: Puller, data: seq<byte>, q: Puller)
    requires WellFormed(f) && f.message.Some? && f.position + |data| <= |f.message.value|
    requires f.message.value[f.position..] == data + f.message.value[f.position + |data|..]
    requires q == f.(position := f.position + |data|)
    ensures Content(f) == data + Content(q)
  {
    Associative(data, Unread(q), Concat(f.queue));
  }

  /** No byte is lost, repeated or moved by a read, whatever the size of the reader's buffer. */
  lemma {:induction false} PullConserves(p: Puller, maxlen: nat)
    requires WellFormed(p)
    ensures var (r, q) := Pull(p, maxlen);
            Content(p) == (if r.Read? then r.data else []) + Content(q)
  {
    RefillKeepsContent(p);
    var f := Refill(p);
    if f.message.Some? {
      TakeSplits(f.message.value, f.position, maxlen);
      ReadConserves(f, Pull(p, maxlen).0.data, Pull(p, maxlen).1);
    } else {
      assert Content(f) == [] + Content(f);
    }
  }

  /** A read fills no more than the reader's buffer, and leaves nothing that would have fitted of the message it reads. */
  lemma {:induction false} ReadFits(p: Puller, maxlen: nat)
    requires WellFormed(p)
    ensures var (r, q) := Pull(p, maxlen);
            r.Read? ==> |r.data| <= maxlen && (|r.data| < maxlen ==> Unread(q) == [])
  {
  }

  /** When the end of the stream is reported to a reader with room for a byte. */
  lemma {:induction false} EndExactly(p: Puller, maxlen: nat)
    requires WellFormed(p) && maxlen > 0
    ensures Pull(p, maxlen).0 == Read([]) <==> Content(p) == [] && (p.stopped || p.queue != [])
  {
    RefillKeepsContent(p);
    var f := Refill(p);
    if f.message.Some? {
      assert Unread(p) == [] ==> p.queue != [];
      if Unread(f) == [] {
        assert f.queue == [];
      }
    } else {
      assert Content(f) == [];
    }
  }

  /**
   * The end is reported although the stream goes on exactly when nothing is left to read but
   * messages of size zero, at least one of them.
   */
  lemma {:induction false} FalseEndExactly(p: Puller, maxlen: nat)
    requires WellFormed(p) && maxlen > 0
    ensures Pull(p, maxlen).0 == Read([]) && !(p.stopped && Content(p) == []) <==>
            !p.stopped && Unread(p) == [] && p.queue != [] && forall i :: 0 <= i < |p.queue| ==> p.queue[i] == []
  {
    EndExactly(p, maxlen);
    ZerosAddNothing(p.queue);
    var n := ZerosAtFront(p.queue);
    if n < |p.queue| {
      assert Concat(p.queue[n..]) == p.queue[n] + Concat(p.queue[n..][1..]);
    }
  }

  /** An idle lower transport sends such a message. */
  lemma {:induction false} IdleLooksLikeTheEnd()
    ensures var zero: seq<byte> := [];
            var p := Puller(None, 0, [zero], false);
            Pull(p, 4096).0 == Read([]) && !p.stopped && Pull(p.(queue := []), 4096).0 == Again
  {
    var zero: seq<byte> := [];
    assert [zero][1..] == [];
    assert ZerosAtFront([zero]) == 1;
  }

  // ------------------------------------------------------------------- runs

  datatype Step = Arrive(message: seq<byte>) | Finish | Fetch(maxlen: nat)

  /** A run: the adaptor, what it accepted, and what it handed out. */
  datatype Run = Run(p: Puller, accepted: seq<byte>, read: seq<byte>)

  /** Messages that come after the end are dropped. */
  function Do(r: Run, s: Step): (r1: Run)
    requires WellFormed(r.p)
    ensures WellFormed(r1.p)
  {
    match s
    case Arrive(m) =>
      if r.p.stopped then r else Run(r.p.(queue := r.p.queue + [m]), r.accepted + m, r.read)
    case Finish => r.(p := r.p.(stopped := true))
    case Fetch(n) =>
      var (a, p) := Pull(r.p, n);
      Run(p, r.accepted, r.read + (if a.Read? then a.data else []))
  }

  function DoAll(r: Run, steps: seq<Step>): (r1: Run)
    requires WellFormed(r.p)
    ensures WellFormed(r1.p)
    decreases |steps|
  {
    if steps == [] then r else DoAll(Do(r, steps[0]), steps[1..])
  }

  const START: Run := Run(Puller(None, 0, [], false), [], [])

  lemma {:induction false} StepConserves(r: Run, s: Step)
    requires WellFormed(r.p) && r.read + Content(r.p) == r.accepted
    ensures Do(r, s).read + Content(Do(r, s).p) == Do(r, s).accepted
  {
    match s
    case Finish =>
    case Arrive(m) =>
      if !r.p.stopped {
        ArriveConserves(r, m);
      }
    case Fetch(n) =>
      PullConserves(r.p, n);
      var (a, p) := Pull(r.p, n);
      Associative(r.read, if a.Read? then a.data else [], Content(p));
  }

  lemma {:induction false} ArriveConserves(r: Run, m: seq<byte>)
    requires WellFormed(r.p) && r.read + Content(r.p) == r.accepted
    ensures r.read + Content(r.p.(queue := r.p.queue + [m])) == r.accepted + m
  {
    ConcatLast(r.p.queue, m);
    Associative(Unread(r.p), Concat(r.p.queue), m);
    Associative(r.read, Content(r.p), m);
  }

  /** In every run, what was read followed by what is left is what was accepted. */
  lemma {:induction false} RunConserves(r: Run, steps: seq<Step>)
    requires WellFormed(r.p) && r.read + Content(r.p) == r.accepted
    ensures DoAll(r, steps).read + Content(DoAll(r, steps).p) == DoAll(r, steps).accepted
    decreases |steps|
  {
    if steps != [] {
      StepConserves(r, steps[0]);
      RunConserves(Do(r, steps[0]), steps[1..]);
    }
  }

  predicate NoZero(steps: seq<Step>) {
    forall i :: 0 <= i < |steps| && steps[i].Arrive? ==> steps[i].message != []
  }

  predicate AllSized(q: seq<seq<byte>>) {
    forall i :: 0 <= i < |q| ==> q[i] != []
  }

  lemma {:induction false} QueueStaysSized(r: Run, steps: seq<Step>)
    requires WellFormed(r.p) && NoZero(steps) && AllSized(r.p.queue)
    ensures AllSized(DoAll(r, steps).p.queue)
    decreases |steps|
  {
    if steps != [] {
      assert NoZero(steps[1..]) by {
        assert forall i :: 0 <= i < |steps[1..]| ==> steps[1..][i] == steps[i + 1];
      }
      QueueStaysSized(Do(r, steps[0]), steps[1..]);
    }
  }

  /** Without messages of size zero, the end is reported only, and always, once stopped and drained. */
  lemma {:induction false} TrueEnd(steps: seq<Step>, maxlen: nat)
    requires NoZero(steps) && maxlen > 0
    ensures var r := DoAll(START, steps);
            Pull(r.p, maxlen).0 == Read([]) <==> r.p.stopped && r.read == r.accepted
  {
    RunConserves(START, steps);
    QueueStaysSized(START, steps);
    var r := DoAll(START, steps);
    EndExactly(r.p, maxlen);
    if r.p.queue != [] {
      assert Concat(r.p.queue) == r.p.queue[0] + Concat(r.p.queue[1..]);
    }
  }

  // -------------------------------------------------------------- the object

  class PullAdaptor {
    const mIncomingQueue: Queue<seq<byte>>
    var mIncomingMessage: Option<seq<byte>>
    var mIncomingMessagePosition: nat
    var passed: nat     // zero-sized messages handed to the upper transport

    ghost function Contents(): Puller
      reads this, mIncomingQueue
    {
      Puller(mIncomingMessage, mIncomingMessagePosition, mIncomingQueue.mQueue, mIncomingQueue.mStopping)
    }

    ghost predicate Valid()
      reads this, mIncomingQueue
    {
      mIncomingQueue.Valid() && WellFormed(Contents())
    }

    constructor (limit: nat)
      ensures Valid() && fresh(mIncomingQueue)
      ensures Contents() == Puller(None, 0, [], false) && passed == 0
    {
      mIncomingQueue := new Queue(limit, m => |m|);
      mIncomingMessage, mIncomingMessagePosition, passed := None, 0, 0;
    }

    /** Pop until a message with bytes in it comes up; the ones before it go to the upper transport. */
    method NextMessage()
      requires Valid() && mIncomingMessage == None
      modifies this`mIncomingMessage, this`mIncomingMessagePosition, this`passed, mIncomingQueue
      ensures Valid() && Contents() == Refill(old(Contents())) && passed == old(passed) + PassedThrough(old(Contents()))
    {
      mIncomingMessagePosition := 0;
      ghost var all, n := mIncomingQueue.mQueue, 0;
      while true
        invariant mIncomingQueue.Valid() && mIncomingQueue.mStopping == old(mIncomingQueue.mStopping)
        invariant mIncomingMessagePosition == 0
        invariant n <= ZerosAtFront(all) && mIncomingQueue.mQueue == all[n..] && passed == old(passed) + n
        invariant mIncomingMessage == if n == 0 then None else Some([])
        decreases |mIncomingQueue.mQueue|
      {
        ghost var before := mIncomingQueue.mQueue;
        var next := mIncomingQueue.Pop();
        if next == None {
          assert n == |all|;
          break;
        }
        assert before == all[n..] && before[0] == all[n] && before[1..] == all[n + 1..];
        mIncomingMessage := next;
        if next.value != [] {
          assert n == ZerosAtFront(all);
          break;
        }
        assert n < ZerosAtFront(all);
        passed, n := passed + 1, n + 1;
      }
    }

    method ReadCallback(maxlen: nat) returns (r: Answer)
      requires Valid()
      modifies this`mIncomingMessage, this`mIncomingMessagePosition, this`passed, mIncomingQueue
      ensures Valid() && (r, Contents()) == Pull(old(Contents()), maxlen)
      ensures passed == old(passed) + PassedThrough(old(Contents()))
    {
      hide ZerosAtFront, Concat;
      if mIncomingMessage.Some? && mIncomingMessagePosition >= |mIncomingMessage.value| {
        mIncomingMessage := None;
      }
      if mIncomingMessage == None {
        NextMessage();
      }
      if mIncomingMessage.Some? {
        var available := |mIncomingMessage.value| - mIncomingMessagePosition;
        var len := Min(maxlen, available);
        var data := mIncomingMessage.value[mIncomingMessagePosition..mIncomingMessagePosition + len];
        assert data == Take(maxlen, mIncomingMessage.value[mIncomingMessagePosition..]);
        mIncomingMessagePosition := mIncomingMessagePosition + len;
        return Read(data);
      } else if mIncomingQueue.Running() {
        return Again;
      } else {
        return Read([]);
      }
    }
  }
}
