/** What a channel does with the messages it receives, as functions on its state. */
module ChannelSpec {
  import opened Bytes

  datatype Kind = Binary | String | Control

  datatype Message = Message(kind: Kind, data: seq<byte>)

  /** What happens to the messages of a channel, in order. */
  datatype Event =
    | Opened
    | Reset
    | Accepted(m: Message)
    | Flushing                // begins to hand out what waits
    | Called(m: Message)      // handed to the message callback
    | Flushed                 // returns
    | Received(m: Message)    // returned by `receive`

  /** What a callback does next: a call, or it returns. */
  datatype Act = DoReceive | DoReset | DoOnMessage(callback: bool) | Done

  /** A channel; `script` is what its callbacks do, and once it is used up they do nothing. */
  datatype Chan = Chan(
    queue: seq<Message>,
    triggered: bool,
    callback: bool,     // is there a message callback
    script: seq<Act>,
    trace: seq<Event>)

  // ------------------------------------------------------------------ traces

  function Handed(trace: seq<Event>): seq<Message> {
    if trace == [] then []
    else
      var (before, last) := (Handed(trace[..|trace| - 1]), trace[|trace| - 1]);
      if last.Called? || last.Received? then before + [last.m] else before
  }

  function Taken(trace: seq<Event>): seq<Message> {
    if trace == [] then []
    else
      var (before, last) := (Taken(trace[..|trace| - 1]), trace[|trace| - 1]);
      if last.Accepted? then before + [last.m] else before
  }

  /** Opened, and not reset since. */
  predicate IsOpen(trace: seq<Event>) {
    trace != [] &&
    var last := trace[|trace| - 1];
    if last.Opened? then true else if last.Reset? then false else IsOpen(trace[..|trace| - 1])
  }

  /** How many flushes have begun and not returned. */
  function Depth(trace: seq<Event>): nat {
    if trace == [] then 0 else Nested(Depth(trace[..|trace| - 1]), trace[|trace| - 1])
  }

  function Nested(n: nat, e: Event): nat {
    if e.Flushing? then n + 1 else if e.Flushed? && n > 0 then n - 1 else n
  }

  /** A flush only begins on an open channel, and only a flush calls the message callback. */
  predicate MayFollow(past: seq<Event>, e: Event) {
    match e
    case Flushing => IsOpen(past)
    case Called(_) => Depth(past) > 0
    case Flushed => Depth(past) > 0
    case _ => true
  }

  predicate Legal(trace: seq<Event>) {
    trace == [] || (Legal(trace[..|trace| - 1]) && MayFollow(trace[..|trace| - 1], trace[|trace| - 1]))
  }

  lemma {:induction false} After(trace: seq<Event>, e: Event)
    ensures Handed(trace + [e]) == if e.Called? || e.Received? then Handed(trace) + [e.m] else Handed(trace)
    ensures Taken(trace + [e]) == if e.Accepted? then Taken(trace) + [e.m] else Taken(trace)
    ensures IsOpen(trace + [e]) == if e.Opened? then true else if e.Reset? then false else IsOpen(trace)
    ensures Depth(trace + [e]) == Nested(Depth(trace), e)
    ensures Legal(trace + [e]) <==> Legal(trace) && MayFollow(trace, e)
  {
    assert (trace + [e])[..|trace|] == trace;
  }

  // --------------------------------------------------------- what calls do

  /** Messages handed out and messages waiting are the messages accepted, in order. */
  predicate Valid(c: Chan) {
    Legal(c.trace) && IsOpen(c.trace) == c.triggered && Handed(c.trace) + c.queue == Taken(c.trace)
  }

  /** What every call keeps that accepts nothing. */
  predicate Keeps(c: Chan, r: Chan) {
    && Valid(r) && c.trace <= r.trace && Depth(r.trace) == Depth(c.trace) && Taken(r.trace) == Taken(c.trace)
    && |r.queue| <= |c.queue| && |r.script| <= |c.script|
  }

  /** Nothing waits that the message callback could be given. */
  predicate Prompt(c: Chan) {
    c.triggered && c.callback ==> c.queue == []
  }

  function Emit(c: Chan, e: Event): Chan {
    c.(trace := c.trace + [e])
  }

  /** The first message leaves the queue. */
  function Next(c: Chan, toCallback: bool): (r: Chan)
    requires Valid(c) && c.queue != [] && (toCallback ==> Depth(c.trace) > 0)
    ensures Keeps(c, r) && r.queue == c.queue[1..]
  {
    var e := if toCallback then Called(c.queue[0]) else Received(c.queue[0]);
    After(c.trace, e);
    PopMoves(Handed(c.trace), c.queue);
    Emit(c, e).(queue := c.queue[1..])
  }

  lemma {:induction false} PopMoves(handed: seq<Message>, q: seq<Message>)
    requires q != []
    ensures handed + [q[0]] + q[1..] == handed + q
  {
  }

  function Receive(c: Chan): (r: Chan)
    requires Valid(c)
    ensures Keeps(c, r) && (Prompt(c) ==> Prompt(r))
    ensures c.queue == [] ==> r == c
    ensures c.queue != [] ==> r.queue == c.queue[1..] && r.trace == c.trace + [Received(c.queue[0])]
  {
    if c.queue == [] then c else Next(c, false)
  }

  function ResetCallbacks(c: Chan): (r: Chan)
    requires Valid(c)
    ensures Keeps(c, r) && Prompt(r) && !r.triggered
  {
    After(c.trace, Reset);
    Emit(c.(triggered := false, callback := false), Reset)
  }

  /** A callback runs until it returns. */
  function UserCode(c: Chan): (r: Chan)
    requires Valid(c)
    ensures Keeps(c, r)
    decreases |c.queue|, |c.script|, 0
  {
    if c.script == [] then c
    else
      var c1 := c.(script := c.script[1..]);
      if c.script[0].Done? then c1 else UserCode(Perform(c1, c.script[0]))
  }

  function Perform(c: Chan, a: Act): (r: Chan)
    requires Valid(c)
    ensures Keeps(c, r)
    decreases |c.queue|, |c.script|, 4
  {
    match a
    case DoReceive => Receive(c)
    case DoReset => ResetCallbacks(c)
    case DoOnMessage(callback) => OnMessage(c, callback)
    case Done => c
  }

  /** Set the message callback, or take it away. */
  function OnMessage(c: Chan, callback: bool): (r: Chan)
    requires Valid(c)
    ensures Keeps(c, r) && Prompt(r)
    decreases |c.queue|, |c.script|, 3
  {
    FlushPendingMessages(c.(callback := callback))
  }

  /** Nothing on a channel that is not open. */
  function FlushPendingMessages(c: Chan): (r: Chan)
    requires Valid(c)
    ensures Keeps(c, r) && Prompt(r) && (!c.triggered ==> r == c)
    decreases |c.queue|, |c.script|, 2
  {
    hide Handed, Taken, Legal, IsOpen, Depth;
    if !c.triggered then c else Returned(HandOut(Begun(c)))
  }

  function Begun(c: Chan): (r: Chan)
    requires Valid(c) && c.triggered
    ensures Valid(r) && Depth(r.trace) == Depth(c.trace) + 1 && Taken(r.trace) == Taken(c.trace)
    ensures r == Emit(c, Flushing)
  {
    After(c.trace, Flushing);
    Emit(c, Flushing)
  }

  function Returned(c: Chan): (r: Chan)
    requires Valid(c) && Depth(c.trace) > 0
    ensures Valid(r) && Depth(r.trace) == Depth(c.trace) - 1 && Taken(r.trace) == Taken(c.trace)
    ensures r == Emit(c, Flushed)
  {
    After(c.trace, Flushed);
    Emit(c, Flushed)
  }

  /** Give the callback what waits, as long as there is one, whether or not the channel is still open. */
  function HandOut(c: Chan): (r: Chan)
    requires Valid(c) && Depth(c.trace) > 0
    ensures Keeps(c, r) && (r.callback ==> r.queue == [])
    decreases |c.queue|, |c.script|, 1
  {
    if !c.callback || c.queue == [] then c else HandOut(UserCode(Next(c, true)))
  }

  lemma {:induction false} HandOutStep(c: Chan)
    requires Valid(c) && Depth(c.trace) > 0
    ensures HandOut(c) == if !c.callback || c.queue == [] then c else HandOut(UserCode(Next(c, true)))
  {
  }

  function TriggerOpen(c: Chan): (r: Chan)
    requires Valid(c)
    ensures Valid(r) && Prompt(r) && c.trace + [Opened] <= r.trace && Taken(r.trace) == Taken(c.trace)
    ensures Depth(r.trace) == Depth(c.trace)
  {
    After(c.trace, Opened);
    FlushPendingMessages(UserCode(Emit(c.(triggered := true), Opened)))
  }

  /** A message has found room in the queue. */
  function Accept(c: Chan, m: Message): (r: Chan)
    requires Valid(c)
    ensures Valid(r) && Prompt(r) && c.trace + [Accepted(m)] <= r.trace && Taken(r.trace) == Taken(c.trace) + [m]
    ensures Depth(r.trace) == Depth(c.trace)
  {
    After(c.trace, Accepted(m));
    PushMoves(Handed(c.trace), c.queue, m);
    var d := Emit(c.(queue := c.queue + [m]), Accepted(m));
    FlushPendingMessages(if |d.queue| == 1 then UserCode(d) else d)
  }

  lemma {:induction false} PushMoves(handed: seq<Message>, q: seq<Message>, m: Message)
    ensures handed + (q + [m]) == handed + q + [m]
  {
  }

  // ------------------------------------------------- what a trace then says

  lemma {:induction false} LegalAt(v: seq<Event>, i: nat)
    requires Legal(v) && i < |v|
    ensures Legal(v[..i]) && MayFollow(v[..i], v[i])
    decreases |v|
  {
    if i < |v| - 1 {
      var init := v[..|v| - 1];
      LegalAt(init, i);
      assert init[..i] == v[..i];
    }
  }

  /** From `b` on a flush has been running that began there. */
  ghost predicate RunsSince(v: seq<Event>, b: nat) {
    b < |v| && v[b] == Flushing && IsOpen(v[..b]) && forall j :: b < j <= |v| ==> Depth(v[..j]) > Depth(v[..b])
  }

  lemma {:induction false} SomeFlushRuns(v: seq<Event>) returns (b: nat)
    requires Legal(v) && Depth(v) > 0
    ensures RunsSince(v, b) && Depth(v[..b]) == 0
    decreases |v|
  {
    var init := v[..|v| - 1];
    if Depth(init) == 0 {
      b := |init|;
      assert v[..|v|] == v;
    } else {
      b := SomeFlushRuns(init);
      assert init[..b] == v[..b];
      forall j | b < j <= |v| ensures Depth(v[..j]) > Depth(v[..b]) {
        if j < |v| { assert v[..j] == init[..j]; } else { assert v[..j] == v; }
      }
    }
  }

  lemma {:induction false} StaysOpen(v: seq<Event>, b: nat)
    requires b <= |v| && IsOpen(v[..b]) && forall j :: b <= j < |v| ==> v[j] != Reset
    ensures IsOpen(v)
    decreases |v|
  {
    if b < |v| {
      assert v[..|v| - 1][..b] == v[..b];
      StaysOpen(v[..|v| - 1], b);
    } else {
      assert v[..b] == v;
    }
  }

  /**
   * A message only reaches the message callback on a channel that was opened and not reset since; but for
   * a reset in the very flush that hands it out, which was running already, and began on an open channel.
   */
  lemma {:induction false} OpenFirst(v: seq<Event>, i: nat) returns (b: nat, r: nat)
    requires Legal(v) && i < |v| && v[i].Called?
    ensures RunsSince(v[..i], b)
    ensures IsOpen(v[..i]) || (b < r < i && v[r] == Reset)
  {
    LegalAt(v, i);
    b := SomeFlushRuns(v[..i]);
    r := 0;
    if !IsOpen(v[..i]) {
      if forall j :: b <= j < i ==> v[..i][j] != Reset {
        StaysOpen(v[..i], b);
        assert false;
      }
      r :| b <= r < i && v[..i][r] == Reset;
    }
  }

  // ------------------------------------- handed out on a channel that is not open

  /** After the first `n` events a message was handed out while the channel was not open. */
  predicate Stray(v: seq<Event>, n: nat) {
    exists i :: n <= i < |v| && v[i].Called? && !IsOpen(v[..i])
  }

  function With(c: Chan, script: seq<Act>): (r: Chan)
    ensures Valid(c) ==> Valid(r)
  {
    c.(script := script)
  }

  predicate Uncalled(v: seq<Event>, n: nat) {
    forall i :: n <= i < |v| ==> !v[i].Called?
  }

  lemma {:induction false} UserCodeEmpty(c: Chan)
    requires Valid(c) && c.queue == []
    ensures UserCode(c).queue == [] && Uncalled(UserCode(c).trace, |c.trace|)
    decreases |c.script|
  {
    if c.script != [] && !c.script[0].Done? {
      var c1 := c.(script := c.script[1..]);
      var d := Perform(c1, c.script[0]);
      PerformEmpty(c1, c.script[0]);
      UserCodeEmpty(d);
    }
  }

  lemma {:induction false} PerformEmpty(c: Chan, a: Act)
    requires Valid(c) && c.queue == []
    ensures Perform(c, a).queue == [] && Uncalled(Perform(c, a).trace, |c.trace|)
  {
    hide Handed, Taken, Legal, IsOpen, Depth;
    if a.DoOnMessage? && c.triggered {
      var d := c.(callback := a.callback);
      assert HandOut(Begun(d)) == Begun(d);
      assert OnMessage(c, a.callback) == Returned(Begun(d));
    }
  }

  /** With one message waiting, or none, it cannot happen. */
  lemma {:induction false} NotWithOne(c: Chan)
    requires Valid(c) && (!c.triggered || !c.callback || |c.queue| <= 1)
    ensures !Stray(FlushPendingMessages(c).trace, |c.trace|)
  {
    hide Handed, Taken, Legal, IsOpen, Depth, UserCode;
    if c.triggered {
      var d := Begun(c);
      if c.callback && c.queue != [] {
        var e := Next(d, true);
        UserCodeEmpty(e);
        var f := UserCode(e);
        assert HandOut(d) == HandOut(f) == f;
        OnlyAt(c.trace, f.trace + [Flushed], c.queue[0]);
      } else {
        assert HandOut(d) == d;
      }
    }
  }

  lemma {:induction false} OnlyAt(t: seq<Event>, v: seq<Event>, m: Message)
    requires IsOpen(t) && t + [Flushing] + [Called(m)] <= v && Uncalled(v, |t| + 2)
    ensures !Stray(v, |t|)
  {
    After(t, Flushing);
    assert v[|t|] == (t + [Flushing] + [Called(m)])[|t|];
    assert v[..|t| + 1] == t + [Flushing];
  }

  /** A callback that resets the channel and sets itself again. */
  const AGAIN: seq<Act> := [DoReset, DoOnMessage(true), Done]

  /** Then the channel is not open any more, and its message callback is there. */
  lemma {:induction false} ResetAndSet(c: Chan)
    requires Valid(c) && c.script == AGAIN
    ensures var r := UserCode(c); !r.triggered && r.callback && r.queue == c.queue
  {
    hide Handed, Taken, Legal, IsOpen, Depth, HandOut;
    var f := ResetCallbacks(c.(script := AGAIN[1..]));
    assert c.script[1..] == AGAIN[1..] == [DoOnMessage(true), Done];
    assert UserCode(c) == UserCode(f);
    assert f.script[1..] == [Done];
    var g := f.(script := [Done], callback := true);
    assert OnMessage(f.(script := [Done]), true) == g;
    assert UserCode(f) == UserCode(g);
  }

  /** With two, it can: the rest of the messages is handed out on a channel that is not open any more. */
  lemma {:induction false} WithTwo(c: Chan)
    requires Valid(c) && c.triggered && c.callback && |c.queue| >= 2
    ensures Stray(FlushPendingMessages(With(c, AGAIN)).trace, |c.trace|)
  {
    hide Handed, Taken, Legal, Depth, UserCode;
    var c0 := With(c, AGAIN);
    var d := Begun(c0);
    var e := Next(d, true);
    ResetAndSet(e);
    var h := UserCode(e);
    var n := Next(h, true);
    assert HandOut(d) == HandOut(h) == HandOut(UserCode(n));
    var x := FlushPendingMessages(c0).trace;
    StrayAt(x, n.trace, h.trace, h.queue[0], |c.trace|);
  }

  lemma {:induction false} StrayAt(x: seq<Event>, n: seq<Event>, h: seq<Event>, m: Message, from: nat)
    requires n == h + [Called(m)] && n <= x && !IsOpen(h) && from <= |h|
    ensures Stray(x, from)
  {
    assert x[..|h|] == n[..|h|] == h && x[|h|] == n[|h|];
  }

  /** Handing out what waits can go wrong in this way exactly when two messages wait, or more. */
  lemma {:induction false} StrayIff(c: Chan)
    requires Valid(c)
    ensures (exists s :: Stray(FlushPendingMessages(With(c, s)).trace, |c.trace|))
            <==> c.triggered && c.callback && |c.queue| >= 2
  {
    if c.triggered && c.callback && |c.queue| >= 2 {
      WithTwo(c);
    } else {
      forall s ensures !Stray(FlushPendingMessages(With(c, s)).trace, |c.trace|) {
        NotWithOne(With(c, s));
      }
    }
  }

  // --------------------------------------- when callbacks call nothing themselves

  function AllCalled(q: seq<Message>): seq<Event> {
    if q == [] then [] else [Called(q[0])] + AllCalled(q[1..])
  }

  lemma {:induction false} QuietHandOut(c: Chan)
    requires Valid(c) && c.script == [] && Depth(c.trace) > 0
    ensures HandOut(c) == if c.callback then c.(queue := [], trace := c.trace + AllCalled(c.queue)) else c
    decreases |c.queue|
  {
    hide Handed, Taken, Legal, IsOpen, Depth;
    if c.callback && c.queue != [] {
      var n := Next(c, true);
      QuietHandOut(n);
      assert n.trace + AllCalled(n.queue) == c.trace + AllCalled(c.queue);
    } else {
      assert c.trace + [] == c.trace;
    }
  }

  /** What an open channel does when it can hand out: every message that waits, in order, once. */
  function HandedOut(c: Chan): Chan {
    if !c.triggered then c
    else
      c.(queue := if c.callback then [] else c.queue,
         trace := c.trace + ([Flushing] + (if c.callback then AllCalled(c.queue) else []) + [Flushed]))
  }

  lemma {:induction false} QuietFlush(c: Chan)
    requires Valid(c) && c.script == []
    ensures FlushPendingMessages(c) == HandedOut(c)
  {
    hide Handed, Taken, Legal, IsOpen, Depth, HandOut;
    if c.triggered {
      QuietHandOut(Begun(c));
      var called := if c.callback then AllCalled(c.queue) else [];
      assert c.trace + [Flushing] + called + [Flushed] == c.trace + ([Flushing] + called + [Flushed]);
      assert c.trace + [Flushing] + [] == c.trace + [Flushing];
    }
  }

  /** Opening, setting the callback, and a message that arrives: each hands out what can be. */
  lemma {:induction false} QuietCalls(c: Chan, callback: bool, m: Message)
    requires Valid(c) && c.script == []
    ensures TriggerOpen(c) == HandedOut(c.(triggered := true, trace := c.trace + [Opened]))
    ensures OnMessage(c, callback) == HandedOut(c.(callback := callback))
    ensures Accept(c, m) == HandedOut(c.(queue := c.queue + [m], trace := c.trace + [Accepted(m)]))
    ensures ResetCallbacks(c) == c.(triggered := false, callback := false, trace := c.trace + [Reset])
  {
    hide Handed, Taken, Legal, IsOpen, Depth, FlushPendingMessages, HandedOut;
    OpenedIsValid(c);
    QuietFlush(c.(triggered := true, trace := c.trace + [Opened]));
    QuietFlush(c.(callback := callback));
    AcceptedIsValid(c, m);
    QuietFlush(c.(queue := c.queue + [m], trace := c.trace + [Accepted(m)]));
  }

  lemma {:induction false} OpenedIsValid(c: Chan)
    requires Valid(c)
    ensures Valid(c.(triggered := true, trace := c.trace + [Opened]))
  {
    After(c.trace, Opened);
  }

  lemma {:induction false} AcceptedIsValid(c: Chan, m: Message)
    requires Valid(c)
    ensures Valid(c.(queue := c.queue + [m], trace := c.trace + [Accepted(m)]))
  {
    After(c.trace, Accepted(m));
    PushMoves(Handed(c.trace), c.queue, m);
  }
}
