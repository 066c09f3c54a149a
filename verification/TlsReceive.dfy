/**
 * How messages reach the TLS library: any number of threads push to a queue and make sure that some
 * task of the thread pool will empty it, with a counter that is tested and incremented in two steps.
 * One step here is one access to the queue, to the counter, to the state or to the mutex.
 */
module TlsReceive {
  import opened Collections

  type Thread = nat

  /** A message is all that matters here; an empty one goes to the upper transport. */
  type Message = seq<bv8>

  /** The task that holds the receive mutex, and how far it is. */
  datatype Drainer =
    | Nobody
    | Entered               // before the count goes down
    | Counted               // before the state is tested
    | Looping               // before `running` is tested
    | Popping               // before `pop`
    | Handling(m: Message)
    | Ending                // out of the loop, the state is still to change
    | Leaving               // before the mutex is released

  datatype State = State(
    limit: nat,
    queue: seq<Message>,
    stopped: bool,
    pending: int,                // mPendingRecvCount
    live: bool,                  // Connecting or Connected
    checking: set<Thread>,       // pushed or stopped, about to test the counter
    incrementing: set<Thread>,   // found it zero
    enqueuing: set<Thread>,      // incremented it, about to give the task to the pool
    queued: nat,                 // tasks in the pool
    waiting: set<Thread>,        // pool workers that began the task and wait for the mutex
    drainer: Drainer,
    pushed: seq<Message>,        // history: accepted by the queue
    handled: seq<Message>,       // history: given to the TLS library or passed through
    missed: bool)                // history: stopped by an alert while everybody was at rest, and none came since

  datatype Step =
    | Push(t: Thread, m: Message)
    | Stop(t: Thread)
    | AlertWhileSending          // an alert raised by a call of the TLS library outside `doRecv`
    | Check(t: Thread)
    | Increment(t: Thread)
    | Enqueue(t: Thread)
    | Begin(t: Thread)
    | Enter(t: Thread)
    | Decrement
    | TestState
    | TestRunning
    | Pop
    | Handle(alert: bool, ends: bool)
    | End
    | Leave

  predicate Idle(s: State, t: Thread) {
    t !in s.checking && t !in s.incrementing && t !in s.enqueuing && t !in s.waiting
  }

  /** Nothing is announced and nobody is under way, but for a task that is leaving or about to find nothing. */
  predicate AtRest(s: State) {
    && s.pending == 0 && s.checking == {} && s.incrementing == {}
    && (s.drainer in {Nobody, Leaving} || (s.drainer == Popping && s.queue == []))
  }

  /** Can this step be taken? A push to a full queue waits for room. */
  predicate Enabled(s: State, e: Step) {
    match e
    case Push(t, _) => Idle(s, t) && (s.limit == 0 || |s.queue| < s.limit || s.stopped)
    case Stop(t) => Idle(s, t)
    case AlertWhileSending => true
    case Check(t) => t in s.checking
    case Increment(t) => t in s.incrementing
    case Enqueue(t) => t in s.enqueuing
    case Begin(t) => s.queued > 0 && Idle(s, t)
    case Enter(t) => t in s.waiting && s.drainer == Nobody
    case Decrement => s.drainer == Entered
    case TestState => s.drainer == Counted
    case TestRunning => s.drainer == Looping
    case Pop => s.drainer == Popping
    case Handle(_, _) => s.drainer.Handling?
    case End => s.drainer == Ending
    case Leave => s.drainer == Leaving
  }

  function Apply(s: State, e: Step): State
    requires Enabled(s, e)
  {
    match e
    case Push(t, m) =>
      if s.stopped then s.(checking := s.checking + {t}, missed := false)
      else s.(queue := s.queue + [m], pushed := s.pushed + [m], checking := s.checking + {t}, missed := false)
    case Stop(t) => s.(stopped := true, checking := s.checking + {t}, missed := false)
    case AlertWhileSending => s.(stopped := true, missed := s.missed || (!s.stopped && AtRest(s)))
    case Check(t) =>
      if s.pending > 0 then s.(checking := s.checking - {t})
      else s.(checking := s.checking - {t}, incrementing := s.incrementing + {t})
    case Increment(t) =>
      s.(incrementing := s.incrementing - {t}, enqueuing := s.enqueuing + {t}, pending := s.pending + 1)
    case Enqueue(t) => s.(enqueuing := s.enqueuing - {t}, queued := s.queued + 1)
    case Begin(t) => s.(queued := s.queued - 1, waiting := s.waiting + {t})
    case Enter(t) => s.(waiting := s.waiting - {t}, drainer := Entered)
    case Decrement => s.(pending := s.pending - 1, drainer := Counted)
    case TestState => s.(drainer := if s.live then Looping else Leaving)
    case TestRunning => s.(drainer := if s.queue != [] || !s.stopped then Popping else Ending)
    case Pop =>
      if s.queue == [] then s.(drainer := Leaving)
      else s.(drainer := Handling(s.queue[0]), queue := s.queue[1..])
    case Handle(alert, ends) =>
      s.(handled := s.handled + [s.drainer.m], stopped := s.stopped || alert, drainer := if ends then Ending else Looping)
    case End => s.(live := false, drainer := Leaving)
    case Leave => s.(drainer := Nobody)
  }

  function Init(limit: nat): State {
    State(limit, [], false, 0, true, {}, {}, {}, 0, {}, Nobody, [], [], false)
  }

  // -------------------------------------------------------------- invariant

  /** The task that holds the mutex will still look at the queue, or is about to end the transport. */
  predicate Draining(s: State) {
    match s.drainer
    case Nobody | Leaving | Entered => false
    case Popping => s.queue != []
    case _ => true
  }

  predicate Attended(s: State) {
    s.checking != {} || s.incrementing != {} || s.pending > 0 || Draining(s)
  }

  /** Receives announced and not begun. */
  function Announced(s: State): nat {
    |s.enqueuing| + s.queued + |s.waiting| + (if s.drainer == Entered then 1 else 0)
  }

  function InFlight(s: State): seq<Message> {
    if s.drainer.Handling? then [s.drainer.m] else []
  }

  /** A thread is at one place at a time. */
  predicate Apart(s: State) {
    && s.checking !! s.incrementing && s.checking !! s.enqueuing && s.checking !! s.waiting
    && s.incrementing !! s.enqueuing && s.incrementing !! s.waiting && s.enqueuing !! s.waiting
  }

  predicate Inv(s: State) {
    && Apart(s)
    && s.pending == Announced(s)
    && s.handled + InFlight(s) + s.queue == s.pushed
    && (s.limit > 0 ==> |s.queue| <= s.limit)
    && (s.live && (s.queue != [] || s.stopped) ==> Attended(s) || s.missed)
    && (s.missed ==> s.stopped)
    && (s.live && s.missed ==> s.queue == [] && !Attended(s))
    && (!s.live ==> s.drainer in {Nobody, Leaving, Entered, Counted})
  }

  /** What a step does to the numbers of threads at each place. */
  lemma {:induction false} Moves(s: State, e: Step)
    requires Enabled(s, e) && Apart(s)
    ensures var s1 := Apply(s, e);
            match e
            case Push(_, _) => |s1.checking| == |s.checking| + 1
            case Stop(_) => |s1.checking| == |s.checking| + 1
            case Check(_) => |s1.checking| == |s.checking| - 1 && |s1.incrementing| <= |s.incrementing| + 1
            case Increment(_) => |s1.incrementing| == |s.incrementing| - 1 && |s1.enqueuing| == |s.enqueuing| + 1
            case Enqueue(_) => |s1.enqueuing| == |s.enqueuing| - 1
            case Begin(_) => |s1.waiting| == |s.waiting| + 1
            case Enter(_) => |s1.waiting| == |s.waiting| - 1
            case _ => true
  {
    match e
    case Push(t, _) => OneMore(s.checking, t);
    case Stop(t) => OneMore(s.checking, t);
    case Check(t) =>
      OneLess(s.checking, t);
      OneMore(s.incrementing, t);
    case Increment(t) =>
      OneLess(s.incrementing, t);
      OneMore(s.enqueuing, t);
    case Enqueue(t) => OneLess(s.enqueuing, t);
    case Begin(t) => OneMore(s.waiting, t);
    case Enter(t) => OneLess(s.waiting, t);
    case _ =>
  }

  lemma {:induction false} StepKeepsApart(s: State, e: Step)
    requires Enabled(s, e) && Apart(s)
    ensures Apart(Apply(s, e))
  {
  }

  lemma {:induction false} StepKeepsCount(s: State, e: Step)
    requires Enabled(s, e) && s.pending == Announced(s) && Apart(s)
    ensures Apply(s, e).pending == Announced(Apply(s, e))
  {
    Moves(s, e);
  }

  lemma {:induction false} StepKeepsOrder(s: State, e: Step)
    requires Enabled(s, e) && s.handled + InFlight(s) + s.queue == s.pushed
    ensures var s1 := Apply(s, e); s1.handled + InFlight(s1) + s1.queue == s1.pushed
  {
    match e
    case Push(_, m) => Associative(s.handled + InFlight(s), s.queue, [m]);
    case Pop =>
      if s.queue != [] {
        assert s.handled + [] == s.handled && s.queue == [s.queue[0]] + s.queue[1..];
        Associative(s.handled, [s.queue[0]], s.queue[1..]);
      }
    case Handle(_, _) => assert s.handled + [s.drainer.m] + [] == s.handled + [s.drainer.m];
    case _ =>
  }

  lemma {:induction false} StepKeepsInv(s: State, e: Step)
    requires Enabled(s, e) && Inv(s)
    ensures Inv(Apply(s, e))
  {
    StepKeepsApart(s, e);
    StepKeepsCount(s, e);
    StepKeepsOrder(s, e);
  }

  // ------------------------------------------------------------------- runs

  /** Every step of a run can be taken when it comes. */
  predicate IsRun(s: State, steps: seq<Step>)
    decreases |steps|
  {
    steps == [] || (Enabled(s, steps[0]) && IsRun(Apply(s, steps[0]), steps[1..]))
  }

  function After(s: State, steps: seq<Step>): State
    requires IsRun(s, steps)
    decreases |steps|
  {
    if steps == [] then s else After(Apply(s, steps[0]), steps[1..])
  }

  lemma {:induction false} RunKeepsInv(s: State, steps: seq<Step>)
    requires IsRun(s, steps) && Inv(s)
    ensures Inv(After(s, steps))
    decreases |steps|
  {
    if steps != [] {
      StepKeepsInv(s, steps[0]);
      RunKeepsInv(Apply(s, steps[0]), steps[1..]);
    }
  }

  /** Every state that some run reaches satisfies the invariant. */
  lemma {:induction false} ReachedInv(limit: nat, steps: seq<Step>)
    requires IsRun(Init(limit), steps)
    ensures Inv(After(Init(limit), steps))
  {
    RunKeepsInv(Init(limit), steps);
  }

  // --------------------------------------------------------- no lost wakeup

  /**
   * While the transport is live, a queue with messages in it or stopped is about to be looked at: some
   * thread is between its push and its test of the counter or its announcement, or a receive is
   * announced, or one is draining. The only exception is a stop by an alert outside a receive, while
   * nothing was going on. The counter is what was announced and not begun, and messages are handled in
   * the order they were pushed.
   */
  lemma {:induction false} NoLostWakeup(limit: nat, steps: seq<Step>)
    requires IsRun(Init(limit), steps)
    ensures var s := After(Init(limit), steps);
            && (s.live && s.queue != [] ==> Attended(s))
            && (s.live && s.stopped ==> (Attended(s) <==> !s.missed))
            && s.pending == Announced(s) >= 0
            && s.handled + InFlight(s) + s.queue == s.pushed
  {
    ReachedInv(limit, steps);
  }

  predicate Quiescent(s: State) {
    && s.checking == {} && s.incrementing == {} && s.enqueuing == {} && s.waiting == {}
    && s.queued == 0 && s.drainer == Nobody
  }

  /** When nobody is under way any more, everything pushed was handled, unless the transport has ended. */
  lemma {:induction false} QuietMeansDone(limit: nat, steps: seq<Step>)
    requires IsRun(Init(limit), steps) && Quiescent(After(Init(limit), steps))
    ensures var s := After(Init(limit), steps);
            s.live ==> s.queue == [] && s.handled == s.pushed && (s.stopped ==> s.missed)
  {
    ReachedInv(limit, steps);
  }

  // -------------------------------------------------------- what is handled

  /** Nothing that was handled has ended the stream. */
  predicate NoneEnds(steps: seq<Step>) {
    forall i :: 0 <= i < |steps| ==> !(steps[i].Handle? && steps[i].ends)
  }

  /** A transport that ends by itself has been stopped and has emptied its queue. */
  predicate EndsEmpty(s: State) {
    !s.live || s.drainer == Ending ==> s.stopped && s.queue == []
  }

  lemma {:induction false} StepEndsEmpty(s: State, e: Step)
    requires Enabled(s, e) && EndsEmpty(s) && !(e.Handle? && e.ends)
    ensures EndsEmpty(Apply(s, e))
  {
  }

  lemma {:induction false} RunEndsEmpty(s: State, steps: seq<Step>)
    requires IsRun(s, steps) && EndsEmpty(s) && NoneEnds(steps)
    ensures EndsEmpty(After(s, steps))
    decreases |steps|
  {
    if steps != [] {
      NoneEndsAfter(steps);
      StepEndsEmpty(s, steps[0]);
      RunEndsEmpty(Apply(s, steps[0]), steps[1..]);
    }
  }

  lemma {:induction false} NoneEndsAfter(steps: seq<Step>)
    requires steps != [] && NoneEnds(steps)
    ensures NoneEnds(steps[1..])
  {
    assert forall i :: 0 <= i < |steps[1..]| ==> steps[1..][i] == steps[i + 1];
  }

  /**
   * Whatever was pushed is handled: when nobody is under way any more, all of it has been, also by a
   * transport that was stopped, unless a message itself ended the stream. And the transport is live
   * exactly if it was not stopped, or only by an alert that was missed.
   */
  lemma {:induction false} PushedIsHandled(limit: nat, steps: seq<Step>)
    requires IsRun(Init(limit), steps) && NoneEnds(steps) && Quiescent(After(Init(limit), steps))
    ensures var s := After(Init(limit), steps);
            s.handled == s.pushed && (s.live <==> !s.stopped || s.missed)
  {
    ReachedInv(limit, steps);
    RunEndsEmpty(Init(limit), steps);
    LateAlerts(Init(limit), steps);
  }

  /** An alert that comes after the end is not missed. */
  lemma {:induction false} LateAlerts(s: State, steps: seq<Step>)
    requires IsRun(s, steps) && Inv(s) && EndsEmpty(s) && NoneEnds(steps) && (s.missed ==> s.live)
    ensures After(s, steps).missed ==> After(s, steps).live
    decreases |steps|
  {
    if steps != [] {
      StepKeepsInv(s, steps[0]);
      NoneEndsAfter(steps);
      StepEndsEmpty(s, steps[0]);
      LateAlerts(Apply(s, steps[0]), steps[1..]);
    }
  }

  /** Nothing stops the transport. */
  predicate Undisturbed(steps: seq<Step>) {
    forall i :: 0 <= i < |steps| ==>
      !steps[i].Stop? && !steps[i].AlertWhileSending? && (steps[i].Handle? ==> steps[i] == Handle(false, false))
  }

  /** Then it stays live and running. */
  lemma {:induction false} StaysLive(s: State, steps: seq<Step>)
    requires IsRun(s, steps) && s.live && !s.stopped && s.drainer != Ending && Undisturbed(steps)
    ensures var s1 := After(s, steps); s1.live && !s1.stopped && s1.drainer != Ending
    decreases |steps|
  {
    if steps != [] {
      assert forall i :: 0 <= i < |steps[1..]| ==> steps[1..][i] == steps[i + 1];
      StaysLive(Apply(s, steps[0]), steps[1..]);
    }
  }

  /** The state before the step at `i`. */
  function Before(s: State, steps: seq<Step>, i: nat): State
    requires IsRun(s, steps) && i < |steps|
    decreases |steps|
  {
    if i == 0 then s else Before(Apply(s, steps[0]), steps[1..], i - 1)
  }

  /** A transport that is not live any more handled a message that ended it, or was stopped and drained. */
  lemma {:induction false} WhyItEnded(s: State, steps: seq<Step>) returns (i: nat)
    requires IsRun(s, steps) && s.live && s.drainer != Ending
    requires !After(s, steps).live || After(s, steps).drainer == Ending
    ensures i < |steps|
    ensures var u := Before(s, steps, i);
            u.live && ((steps[i].Handle? && steps[i].ends) || (steps[i] == TestRunning && u.stopped && u.queue == []))
    decreases |steps|
  {
    var s1 := Apply(s, steps[0]);
    if s1.drainer == Ending {
      i := 0;
    } else {
      var j := WhyItEnded(s1, steps[1..]);
      i := j + 1;
    }
  }

  /** A message that a running queue takes is among those pushed, behind the others. */
  lemma {:induction false} PushIsRecorded(s: State, t: Thread, m: Message)
    requires Enabled(s, Push(t, m))
    ensures var s1 := Apply(s, Push(t, m)); s1.pushed == s.pushed + (if s.stopped then [] else [m]) && t in s1.checking
  {
  }

  /** Stopping stops, from outside or by an alert, and stays so. */
  lemma {:induction false} StopIsForGood(s: State, e: Step)
    requires Enabled(s, e)
    ensures Apply(s, e).stopped <==> s.stopped || e.Stop? || e.AlertWhileSending? || (e.Handle? && e.alert)
  {
  }

  /** Threads that come from outside. The others carry on what was begun. */
  predicate External(e: Step) {
    e.Push? || e.Stop? || e.AlertWhileSending?
  }

  /** Work left at most: a receive costs more than a step of it, a message more than handling it. */
  function Work(s: State): nat {
    20 * |s.checking| + 19 * |s.incrementing| + 18 * |s.enqueuing| + 17 * s.queued + 16 * |s.waiting| +
    10 * |s.queue| + DrainerWork(s.drainer)
  }

  function DrainerWork(d: Drainer): nat {
    match d
    case Nobody => 0
    case Leaving => 1
    case Ending => 2
    case Popping => 6
    case Looping => 7
    case Counted => 8
    case Entered => 9
    case Handling(_) => 15
  }

  lemma {:induction false} WorkGoesDown(s: State, e: Step)
    requires Inv(s) && Enabled(s, e) && !External(e)
    ensures Work(Apply(s, e)) < Work(s)
  {
    Moves(s, e);
  }

  lemma {:induction false} NeverStuck(s: State, worker: Thread) returns (e: Step)
    requires Inv(s) && !Quiescent(s) && Idle(s, worker)
    ensures Enabled(s, e) && !External(e)
  {
    if s.drainer != Nobody {
      e := match s.drainer
           case Entered => Decrement
           case Counted => TestState
           case Looping => TestRunning
           case Popping => Pop
           case Handling(_) => Handle(false, false)
           case Ending => End
           case _ => Leave;
    } else if s.checking != {} {
      var t :| t in s.checking;
      e := Check(t);
    } else if s.incrementing != {} {
      var t :| t in s.incrementing;
      e := Increment(t);
    } else if s.enqueuing != {} {
      var t :| t in s.enqueuing;
      e := Enqueue(t);
    } else if s.waiting != {} {
      var t :| t in s.waiting;
      e := Enter(t);
    } else {
      e := Begin(worker);
    }
  }

  /**
   * Left alone, the machine comes to rest whatever the scheduler does: a run without external steps
   * is never longer than the work left, and while it is not over some step can be taken.
   */
  lemma {:induction false} RunsAreShort(s: State, steps: seq<Step>)
    requires Inv(s) && IsRun(s, steps) && forall i :: 0 <= i < |steps| ==> !External(steps[i])
    ensures |steps| + Work(After(s, steps)) <= Work(s)
    decreases |steps|
  {
    if steps != [] {
      WorkGoesDown(s, steps[0]);
      StepKeepsInv(s, steps[0]);
      assert forall i :: 0 <= i < |steps[1..]| ==> steps[1..][i] == steps[i + 1];
      RunsAreShort(Apply(s, steps[0]), steps[1..]);
    }
  }

  /** The exception is real: an idle transport stopped by an alert raised while sending stays as it is. */
  lemma {:induction false} AlertWhileSendingIsMissed(limit: nat)
    ensures IsRun(Init(limit), [AlertWhileSending])
    ensures var s := After(Init(limit), [AlertWhileSending]);
            s.live && s.stopped && Quiescent(s) && forall e :: Enabled(s, e) ==> External(e)
  {
    var steps := [AlertWhileSending];
    var s := Apply(Init(limit), AlertWhileSending);
    assert steps[1..] == [];
    assert After(Init(limit), steps) == After(s, steps[1..]) == s;
  }
}
