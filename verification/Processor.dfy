/**
 * A processor runs its tasks one after the other on a thread pool that starts tasks in any order. One
 * step here is one critical section of the processor, or the start or the end of a task in the pool.
 */
module Processor {

  type Task = nat

  datatype Result = Result(task: Task, threw: bool)

  datatype State = State(
    limit: nat,              // of the queue; zero: none
    pending: bool,           // mPending
    tasks: seq<Task>,        // mTasks
    pool: multiset<Task>,    // given to the thread pool, not started
    running: multiset<Task>,
    chaining: nat,           // tasks that are over, their guard about to call `schedule`
    blocked: Blocked,        // an `enqueue` that holds the mutex and waits for room in the queue
    enqueued: seq<Task>,     // history
    given: seq<Task>,        // history: to the thread pool
    started: seq<Task>,      // history
    completed: seq<Result>)  // history

  datatype Blocked = Free | Waits(task: Task)

  datatype Step =
    | Enqueue(t: Task)
    | Unblock
    | Start(t: Task)
    | Finish(t: Task, threw: bool)
    | Schedule

  predicate HasRoom(s: State) {
    s.limit == 0 || |s.tasks| < s.limit
  }

  predicate Enabled(s: State, e: Step) {
    match e
    case Enqueue(_) => s.blocked == Free
    case Unblock => s.blocked.Waits? && HasRoom(s)
    case Start(t) => t in s.pool
    case Finish(t, _) => t in s.running
    case Schedule => s.chaining > 0 && s.blocked == Free
  }

  function Give(s: State, t: Task): State {
    s.(pool := s.pool + multiset{t}, given := s.given + [t])
  }

  function Apply(s: State, e: Step): State
    requires Enabled(s, e)
  {
    match e
    case Enqueue(t) =>
      if !s.pending then Give(s, t).(pending := true, enqueued := s.enqueued + [t])
      else if HasRoom(s) then s.(tasks := s.tasks + [t], enqueued := s.enqueued + [t])
      else s.(blocked := Waits(t))
    case Unblock =>
      s.(tasks := s.tasks + [s.blocked.task], enqueued := s.enqueued + [s.blocked.task], blocked := Free)
    case Start(t) => s.(pool := s.pool - multiset{t}, running := s.running + multiset{t}, started := s.started + [t])
    case Finish(t, threw) =>
      s.(running := s.running - multiset{t}, completed := s.completed + [Result(t, threw)], chaining := s.chaining + 1)
    case Schedule =>
      if s.tasks != [] then
        Give(s, s.tasks[0]).(tasks := s.tasks[1..], chaining := s.chaining - 1)
      else s.(pending := false, chaining := s.chaining - 1)
  }

  function Init(limit: nat): State {
    State(limit, false, [], multiset{}, multiset{}, 0, Free, [], [], [], [])
  }

  /** What `join` waits for. */
  predicate Joined(s: State) {
    !s.pending && s.tasks == []
  }

  function Completed(s: State): (r: seq<Task>)
    ensures |r| == |s.completed|
  {
    seq(|s.completed|, i requires 0 <= i < |s.completed| => s.completed[i].task)
  }

  /** The tasks given to the pool that are not over: at most one. */
  function InFlight(s: State): seq<Task> {
    if |s.completed| <= |s.given| then s.given[|s.completed|..] else []
  }

  predicate Inv(s: State) {
    && |s.pool| + |s.running| + s.chaining == (if s.pending then 1 else 0)
    && (!s.pending ==> s.tasks == [] && s.blocked == Free)
    && (s.blocked.Waits? ==> s.limit > 0 && |s.tasks| == s.limit)
    && (s.limit > 0 ==> |s.tasks| <= s.limit)
    && Completed(s) <= s.given && |InFlight(s)| <= 1
    && s.pool + s.running == multiset(InFlight(s))
    && s.given + s.tasks == s.enqueued
    && s.started == (if s.running == multiset{} then Completed(s) else s.given)
  }

  lemma {:induction false} Alone(m: multiset<Task>, t: Task)
    requires t in m && |m| <= 1
    ensures m == multiset{t} && m - multiset{t} == multiset{}
  {
    assert m == (m - multiset{t}) + multiset{t};
    assert |m - multiset{t}| == 0;
  }

  lemma {:induction false} GiveKeepsInv(s: State, t: Task, rest: seq<Task>)
    requires s.pool == s.running == multiset{} && s.given == Completed(s) == s.started
    ensures var s1 := Give(s, t);
            && Completed(s1) <= s1.given && InFlight(s1) == [t]
            && s1.pool + s1.running == multiset(InFlight(s1)) && |s1.pool| == 1
            && s1.given + rest == s.given + ([t] + rest)
  {
    assert Completed(Give(s, t)) == Completed(s);
    assert (s.given + [t])[|s.given|..] == [t];
  }

  lemma {:induction false} NoneInFlight(s: State)
    requires Inv(s) && s.pool == s.running == multiset{}
    ensures InFlight(s) == [] && s.given == Completed(s) == s.started
  {
    assert |InFlight(s)| == |multiset(InFlight(s))| == 0;
  }

  lemma {:induction false} StartKeepsInv(s: State, t: Task)
    requires Inv(s) && t in s.pool
    ensures Inv(Apply(s, Start(t)))
  {
    Alone(s.pool, t);
    assert |s.running| == 0;
    assert multiset(InFlight(s)) == multiset{t};
    assert InFlight(s) == [t] by {
      assert |multiset(InFlight(s))| == |InFlight(s)| == 1;
      assert InFlight(s) == [InFlight(s)[0]];
      assert InFlight(s)[0] in multiset(InFlight(s));
    }
    assert s.given == Completed(s) + [t];
    var s1 := Apply(s, Start(t));
    assert Completed(s1) == Completed(s) && s1.running == multiset{t};
  }

  lemma {:induction false} FinishKeepsInv(s: State, t: Task, threw: bool)
    requires Inv(s) && t in s.running
    ensures Inv(Apply(s, Finish(t, threw)))
  {
    Alone(s.running, t);
    assert |s.pool| == 0;
    assert multiset(InFlight(s)) == multiset{t};
    assert InFlight(s) == [t] by {
      assert |multiset(InFlight(s))| == |InFlight(s)| == 1;
      assert InFlight(s) == [InFlight(s)[0]];
      assert InFlight(s)[0] in multiset(InFlight(s));
    }
    assert s.given == Completed(s) + [t];
    var s1 := Apply(s, Finish(t, threw));
    assert Completed(s1) == Completed(s) + [t];
  }

  lemma {:induction false} EnqueueKeepsInv(s: State, t: Task)
    requires Inv(s) && s.blocked == Free
    ensures Inv(Apply(s, Enqueue(t)))
  {
    if !s.pending {
      FirstTaskKeepsInv(s, t);
    } else {
      QueuedTaskKeepsInv(s, t);
    }
  }

  lemma {:induction false} FirstTaskKeepsInv(s: State, t: Task)
    requires Inv(s) && s.blocked == Free && !s.pending
    ensures Inv(Apply(s, Enqueue(t)))
  {
    assert Completed(Apply(s, Enqueue(t))) == Completed(s);
    NoneInFlight(s);
    GiveKeepsInv(s, t, []);
    assert s.given + [] == s.given && s.given + [t] + [] == s.given + [t];
  }

  lemma {:induction false} QueuedTaskKeepsInv(s: State, t: Task)
    requires Inv(s) && s.blocked == Free && s.pending
    ensures Inv(Apply(s, Enqueue(t)))
  {
    var s1 := Apply(s, Enqueue(t));
    assert Completed(s1) == Completed(s) && InFlight(s1) == InFlight(s);
    AppendKeeps(s.given, s.tasks, t);
  }

  lemma {:induction false} AppendKeeps(given: seq<Task>, tasks: seq<Task>, t: Task)
    ensures given + (tasks + [t]) == given + tasks + [t]
  {
  }

  lemma {:induction false} ScheduleKeepsInv(s: State)
    requires Inv(s) && Enabled(s, Schedule)
    ensures Inv(Apply(s, Schedule))
  {
    NoneInFlight(s);
    assert Completed(Apply(s, Schedule)) == Completed(s);
    if s.tasks != [] {
      GiveKeepsInv(s, s.tasks[0], s.tasks[1..]);
      assert s.tasks == [s.tasks[0]] + s.tasks[1..];
    }
  }

  lemma {:induction false} StepKeepsInv(s: State, e: Step)
    requires Inv(s) && Enabled(s, e)
    ensures Inv(Apply(s, e))
  {
    match e
    case Enqueue(t) => EnqueueKeepsInv(s, t);
    case Unblock =>
    case Start(t) => StartKeepsInv(s, t);
    case Finish(t, threw) => FinishKeepsInv(s, t, threw);
    case Schedule => ScheduleKeepsInv(s);
  }

  // ------------------------------------------------------------------- runs

  predicate IsRun(s: State, steps: seq<Step>)
    decreases |steps|
  {
    steps == [] || (Enabled(s, steps[0]) && IsRun(Apply(s, steps[0]), steps[1..]))
  }

  function After(s: State, steps: seq<Step>): State
    requires IsRun(s, steps)
    decreases |steps|
  {
    if steps == [] then s else After(Apply(s, steps[0]), steps[1..])
  }

  lemma {:induction false} RunKeepsInv(s: State, steps: seq<Step>)
    requires IsRun(s, steps) && Inv(s)
    ensures Inv(After(s, steps))
    decreases |steps|
  {
    if steps != [] {
      StepKeepsInv(s, steps[0]);
      RunKeepsInv(Apply(s, steps[0]), steps[1..]);
    }
  }

  lemma {:induction false} ReachedInv(limit: nat, steps: seq<Step>)
    requires IsRun(Init(limit), steps)
    ensures Inv(After(Init(limit), steps))
  {
    assert Completed(Init(limit)) == [];
    RunKeepsInv(Init(limit), steps);
  }

  /**
   * Whatever order the pool runs its tasks in and whichever of them throw, tasks start and complete in
   * the order they were enqueued, each once and one at a time, and `join` sees its condition exactly
   * when everything enqueued has completed and has been followed up.
   */
  lemma {:induction false} SerialInOrder(limit: nat, steps: seq<Step>)
    requires IsRun(Init(limit), steps)
    ensures var s := After(Init(limit), steps);
            && Completed(s) + InFlight(s) + s.tasks == s.enqueued && |InFlight(s)| <= 1
            && s.pool + s.running == multiset(InFlight(s))
            && Completed(s) <= s.started <= s.enqueued
            && (Joined(s) <==> Completed(s) == s.enqueued && s.chaining == 0)
  {
    ReachedInv(limit, steps);
    var s := After(Init(limit), steps);
    OrderKept(s);
    JoinSees(s);
  }

  lemma {:induction false} OrderKept(s: State)
    requires Inv(s)
    ensures Completed(s) + InFlight(s) == s.given && Completed(s) <= s.started <= s.given <= s.enqueued
  {
    hide Completed;
    Remainder(Completed(s), s.given);
    assert s.given <= s.given + s.tasks;
  }

  lemma {:induction false} Remainder(a: seq<Task>, b: seq<Task>)
    requires a <= b
    ensures a + b[|a|..] == b
  {
  }

  lemma {:induction false} JoinSees(s: State)
    requires Inv(s)
    ensures Joined(s) <==> Completed(s) == s.enqueued && s.chaining == 0
  {
    if Completed(s) == s.enqueued {
      assert |s.tasks| == 0 && |InFlight(s)| == 0;
      assert |s.pool + s.running| == 0;
    }
    if Joined(s) {
      NoneInFlight(s);
    }
  }

  /** A call of `enqueue` that does not wait is recorded, behind the others; one that waited is once it stops waiting. */
  lemma {:induction false} EnqueueIsRecorded(s: State, t: Task)
    ensures Enabled(s, Enqueue(t)) ==>
              var s1 := Apply(s, Enqueue(t));
              if s.pending && !HasRoom(s) then s1 == s.(blocked := Waits(t)) else s1.enqueued == s.enqueued + [t] && s1.pending
    ensures Enabled(s, Unblock) ==>
              var s1 := Apply(s, Unblock); s1.blocked == Free && s1.enqueued == s.enqueued + [s.blocked.task]
  {
  }

  // -------------------------------------------------- progress and deadlock

  function Work(s: State): nat {
    4 * |s.tasks| + 3 * |s.pool| + 2 * |s.running| + s.chaining
  }

  lemma {:induction false} WorkGoesDown(s: State, e: Step)
    requires Inv(s) && Enabled(s, e) && !e.Enqueue? && s.limit == 0
    ensures Work(Apply(s, e)) < Work(s)
  {
  }

  /** Without a limit, as long as `join` waits there is a step that the pool or the processor can take. */
  lemma {:induction false} NeverStuck(s: State) returns (e: Step)
    requires Inv(s) && s.limit == 0 && !Joined(s)
    ensures Enabled(s, e) && !e.Enqueue?
  {
    if s.chaining > 0 {
      e := Schedule;
    } else if s.pool != multiset{} {
      var t :| t in s.pool;
      e := Start(t);
    } else {
      assert |s.running| > 0;
      var t :| t in s.running;
      e := Finish(t, false);
    }
  }

  /** So, with no limit and nothing more enqueued, `join` returns after no more steps than there is work. */
  lemma {:induction false} RunsAreShort(s: State, steps: seq<Step>)
    requires Inv(s) && s.limit == 0 && IsRun(s, steps)
    requires forall i :: 0 <= i < |steps| ==> !steps[i].Enqueue?
    ensures |steps| + Work(After(s, steps)) <= Work(s)
    decreases |steps|
  {
    if steps != [] {
      WorkGoesDown(s, steps[0]);
      StepKeepsInv(s, steps[0]);
      assert forall i :: 0 <= i < |steps[1..]| ==> steps[1..][i] == steps[i + 1];
      RunsAreShort(Apply(s, steps[0]), steps[1..]);
    }
  }

  /** An `enqueue` waits for room with the mutex held that `schedule` needs to make room. */
  lemma {:induction false} BlockedForGood(s: State, steps: seq<Step>)
    requires Inv(s) && s.blocked.Waits? && IsRun(s, steps)
    ensures After(s, steps).blocked == s.blocked && !Joined(After(s, steps))
    decreases |steps|
  {
    if steps != [] {
      StepKeepsInv(s, steps[0]);
      BlockedForGood(Apply(s, steps[0]), steps[1..]);
    }
  }

  function Burst(n: nat): (steps: seq<Step>)
    ensures |steps| == n
  {
    if n == 0 then [] else [Enqueue(0)] + Burst(n - 1)
  }

  /** One task more than the queue has room for. */
  lemma {:induction false} BurstBlocks(s: State)
    requires s.pending && s.blocked == Free && 0 < s.limit && |s.tasks| <= s.limit
    ensures IsRun(s, Burst(s.limit - |s.tasks| + 1)) && After(s, Burst(s.limit - |s.tasks| + 1)).blocked.Waits?
    decreases s.limit - |s.tasks|
  {
    var steps := Burst(s.limit - |s.tasks| + 1);
    assert steps[0] == Enqueue(0) && steps[1..] == Burst(s.limit - |s.tasks|);
    if |s.tasks| < s.limit {
      BurstBlocks(Apply(s, Enqueue(0)));
    }
  }

  ghost predicate CanBlock(limit: nat) {
    exists steps :: IsRun(Init(limit), steps) && After(Init(limit), steps).blocked.Waits?
  }

  /** A processor can come to a standstill exactly when its queue is bounded. */
  lemma {:induction false} DeadlockIffBounded(limit: nat)
    ensures CanBlock(limit) <==> limit > 0
  {
    if limit > 0 {
      var steps := Burst(limit + 2);
      assert steps[0] == Enqueue(0) && steps[1..] == Burst(limit + 1);
      BurstBlocks(Apply(Init(limit), Enqueue(0)));
      assert IsRun(Init(limit), steps);
    } else if CanBlock(limit) {
      var steps :| IsRun(Init(limit), steps) && After(Init(limit), steps).blocked.Waits?;
      ReachedInv(limit, steps);
      LimitStays(Init(limit), steps);
    }
  }

  lemma {:induction false} LimitStays(s: State, steps: seq<Step>)
    requires IsRun(s, steps)
    ensures After(s, steps).limit == s.limit
    decreases |steps|
  {
    if steps != [] {
      LimitStays(Apply(s, steps[0]), steps[1..]);
    }
  }
}
