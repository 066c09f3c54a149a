/**
 * The thread pool: any number of workers, tasks with the time they are due, and a count of busy workers
 * that `join` waits on. One step here is one critical section of a worker or of a caller, or an access
 * to the count outside of any.
 */
module ThreadPool {
  import opened Bytes
  import opened Collections

  type Worker = nat
  type Id = nat

  datatype Entry =
    | Scheduled(id: Id, time: int)
    | Started(id: Id, at: int)
    | Cleared

  datatype State = State(
    now: int,
    joining: bool,                        // mJoining
    busy: int,                            // mBusyWorkers
    tasks: map<Id, int>,                  // mTasks, by the time they are due
    next: Id,
    spawned: set<Worker>,                 // before the count goes up
    looping: set<Worker>,                 // about to look for a task
    running: set<Worker>,
    waiting: map<Worker, Option<int>>,    // on the condition, and until when
    woken: set<Worker>,                   // about to take the mutex again
    exiting: set<Worker>,                 // found no task, before the count goes down
    exited: set<Worker>,
    log: seq<Entry>)                      // history

  datatype Step =
    | Spawn(w: Worker)
    | BeginLoop(w: Worker)
    | Take(w: Worker, id: Id)
    | Wait(w: Worker)
    | WakeUp(w: Worker)                   // timed out, or for no reason
    | Resume(w: Worker)
    | Quit(w: Worker)
    | Finish(w: Worker)
    | Exit(w: Worker)
    | Schedule(time: int, notified: Worker)
    | Tick(later: nat)
    | Clear
    | SetJoining
    | EndJoin

  /** At the top of the priority queue. */
  predicate IsTop(tasks: map<Id, int>, id: Id) {
    id in tasks && forall o :: o in tasks ==> tasks[id] <= tasks[o]
  }

  predicate NoneDue(s: State) {
    forall o :: o in s.tasks ==> s.now < s.tasks[o]
  }

  predicate IsWorker(s: State, w: Worker) {
    w in s.spawned || w in s.looping || w in s.running || w in s.waiting || w in s.woken || w in s.exiting || w in s.exited
  }

  ghost predicate Enabled(s: State, e: Step) {
    match e
    case Spawn(w) => !IsWorker(s, w)
    case BeginLoop(w) => w in s.spawned
    case Take(w, id) => w in s.looping && !s.joining && IsTop(s.tasks, id) && s.tasks[id] <= s.now
    case Wait(w) => w in s.looping && !s.joining && NoneDue(s)
    case WakeUp(w) => w in s.waiting
    case Resume(w) => w in s.woken
    case Quit(w) => w in s.looping && s.joining
    case Finish(w) => w in s.running
    case Exit(w) => w in s.exiting
    case Schedule(_, w) => s.waiting == map[] || w in s.waiting
    case Tick(_) => true
    case Clear => true
    case SetJoining => s.busy == 0 && !s.joining
    case EndJoin => s.joining && AllExited(s)
  }

  predicate AllExited(s: State) {
    s.spawned == {} && s.looping == {} && s.running == {} && s.waiting == map[] && s.woken == {} && s.exiting == {}
  }

  /** Until when a worker waits that finds nothing due. */
  ghost function Top(tasks: map<Id, int>): (d: Option<int>)
    ensures tasks == map[] ==> d == None
    ensures tasks != map[] ==> d.Some? && forall o :: o in tasks ==> d.value <= tasks[o]
  {
    if tasks == map[] then None
    else
      TopExists(tasks);
      var id :| IsTop(tasks, id);
      Some(tasks[id])
  }

  lemma {:induction false} TopExists(tasks: map<Id, int>)
    requires tasks != map[]
    ensures exists id :: IsTop(tasks, id)
    decreases |tasks|
  {
    var id :| id in tasks;
    var rest := tasks - {id};
    if rest == map[] {
      assert tasks.Keys - {id} == rest.Keys == {};
      assert tasks.Keys == tasks.Keys - {id} + {id};
      assert IsTop(tasks, id);
    } else {
      assert |rest| < |tasks| by {
        assert rest.Keys == tasks.Keys - {id};
      }
      TopExists(rest);
      var m :| IsTop(rest, m);
      assert forall o :: o in tasks && o != id ==> o in rest;
      assert IsTop(tasks, m) || IsTop(tasks, id);
    }
  }

  ghost function Apply(s: State, e: Step): State
    requires Enabled(s, e)
  {
    match e
    case Spawn(w) => s.(spawned := s.spawned + {w})
    case BeginLoop(w) => s.(spawned := s.spawned - {w}, looping := s.looping + {w}, busy := s.busy + 1)
    case Take(w, id) =>
      s.(looping := s.looping - {w}, running := s.running + {w}, tasks := s.tasks - {id},
         log := s.log + [Started(id, s.now)])
    case Wait(w) => s.(looping := s.looping - {w}, waiting := s.waiting[w := Top(s.tasks)], busy := s.busy - 1)
    case WakeUp(w) => s.(waiting := s.waiting - {w}, woken := s.woken + {w})
    case Resume(w) => s.(woken := s.woken - {w}, looping := s.looping + {w}, busy := s.busy + 1)
    case Quit(w) => s.(looping := s.looping - {w}, exiting := s.exiting + {w})
    case Finish(w) => s.(running := s.running - {w}, looping := s.looping + {w})
    case Exit(w) => s.(exiting := s.exiting - {w}, exited := s.exited + {w}, busy := s.busy - 1)
    case Schedule(time, w) =>
      var s1 := s.(tasks := s.tasks[s.next := time], next := s.next + 1, log := s.log + [Scheduled(s.next, time)]);
      if s.waiting == map[] then s1 else s1.(waiting := s.waiting - {w}, woken := s.woken + {w})
    case Tick(later) => s.(now := s.now + later)
    case Clear => s.(tasks := map[], log := s.log + [Cleared])
    case SetJoining => s.(joining := true, woken := s.woken + s.waiting.Keys, waiting := map[])
    case EndJoin => s.(joining := false, exited := {})
  }

  function Init(now: int): State {
    State(now, false, 0, map[], 0, {}, {}, {}, map[], {}, {}, {}, [])
  }

  // -------------------------------------------------------------- invariant

  /** A worker is at one place at a time. */
  predicate Apart(s: State) {
    && s.spawned !! s.looping !! s.running !! s.waiting.Keys !! s.woken !! s.exiting !! s.exited
  }

  /** Unless nobody waits, somebody will see to the earliest task: a worker under way, or one that waits no longer than it. */
  predicate Watched(s: State) {
    s.waiting == map[] || s.tasks == map[] ||
    s.spawned != {} || s.looping != {} || s.running != {} || s.woken != {} || exists w :: w in s.waiting && Punctual(s, w)
  }

  predicate Punctual(s: State, w: Worker)
    requires w in s.waiting
  {
    s.waiting[w].Some? && forall o :: o in s.tasks ==> s.waiting[w].value <= s.tasks[o]
  }

  /** The tasks that were scheduled and neither started nor cleared since. */
  function Pending(log: seq<Entry>): map<Id, int> {
    if log == [] then map[] else Noted(Pending(log[..|log| - 1]), log[|log| - 1])
  }

  function Noted(before: map<Id, int>, e: Entry): map<Id, int> {
    match e
    case Scheduled(id, time) => before[id := time]
    case Started(id, _) => before - {id}
    case Cleared => map[]
  }

  lemma {:induction false} PendingAfter(log: seq<Entry>, e: Entry)
    ensures Pending(log + [e]) == Noted(Pending(log), e)
  {
    assert (log + [e])[..|log|] == log;
  }

  predicate Inv(s: State) {
    && Apart(s)
    && s.busy == |s.looping| + |s.running| + |s.exiting|
    && (s.joining ==> s.running == {} && s.waiting == map[])
    && (!s.joining ==> s.exiting == {} && s.exited == {})
    && Watched(s)
    && Tracked(s.tasks, s.next, s.log)
  }

  lemma {:induction false} StepKeepsApart(s: State, e: Step)
    requires Apart(s) && Enabled(s, e)
    ensures Apart(Apply(s, e))
  {
  }

  lemma {:induction false} StepKeepsBusy(s: State, e: Step)
    requires Inv(s) && Enabled(s, e)
    ensures var s1 := Apply(s, e); s1.busy == |s1.looping| + |s1.running| + |s1.exiting|
  {
    match e
    case BeginLoop(w) => OneMore(s.looping, w);
    case Take(w, _) => OneLess(s.looping, w); OneMore(s.running, w);
    case Wait(w) => OneLess(s.looping, w);
    case Resume(w) => OneMore(s.looping, w);
    case Quit(w) => OneLess(s.looping, w); OneMore(s.exiting, w);
    case Finish(w) => OneLess(s.running, w); OneMore(s.looping, w);
    case Exit(w) => OneLess(s.exiting, w);
    case _ =>
  }

  lemma {:induction false} StepKeepsWatched(s: State, e: Step)
    requires Inv(s) && Enabled(s, e)
    ensures Watched(Apply(s, e))
  {
    var s1 := Apply(s, e);
    match e
    case Spawn(w) => assert w in s1.spawned;
    case BeginLoop(w) => assert w in s1.looping;
    case Take(w, _) => assert w in s1.running;
    case Wait(w) => assert s.tasks != map[] ==> Punctual(s1, w);
    case WakeUp(w) => assert w in s1.woken;
    case Resume(w) => assert w in s1.looping;
    case Finish(w) => assert w in s1.looping;
    case Schedule(_, w) => assert s.waiting != map[] ==> w in s1.woken;
    case Tick(_) => assert forall w :: w in s.waiting && Punctual(s, w) ==> Punctual(s1, w);
    case _ =>
  }

  predicate Tracked(tasks: map<Id, int>, next: Id, log: seq<Entry>) {
    tasks == Pending(log) && forall id :: id in tasks ==> id < next
  }

  lemma {:induction false} TakeTracked(tasks: map<Id, int>, next: Id, log: seq<Entry>, id: Id, at: int)
    requires Tracked(tasks, next, log)
    ensures Tracked(tasks - {id}, next, log + [Started(id, at)])
  {
    PendingAfter(log, Started(id, at));
  }

  lemma {:induction false} ScheduleTracked(tasks: map<Id, int>, next: Id, log: seq<Entry>, time: int)
    requires Tracked(tasks, next, log)
    ensures Tracked(tasks[next := time], next + 1, log + [Scheduled(next, time)])
  {
    PendingAfter(log, Scheduled(next, time));
  }

  lemma {:induction false} StepKeepsTracked(s: State, e: Step)
    requires Tracked(s.tasks, s.next, s.log) && Enabled(s, e)
    ensures var s1 := Apply(s, e); Tracked(s1.tasks, s1.next, s1.log)
  {
    match e
    case Take(_, id) => TakeTracked(s.tasks, s.next, s.log, id, s.now);
    case Schedule(time, _) => ScheduleTracked(s.tasks, s.next, s.log, time);
    case Clear => PendingAfter(s.log, Cleared);
    case _ =>
  }

  lemma {:induction false} StepKeepsInv(s: State, e: Step)
    requires Inv(s) && Enabled(s, e)
    ensures Inv(Apply(s, e))
  {
    StepKeepsApart(s, e);
    StepKeepsBusy(s, e);
    StepKeepsWatched(s, e);
    StepKeepsTracked(s, e);
  }

  // ------------------------------------------------------------------- runs

  ghost predicate IsRun(s: State, steps: seq<Step>)
    decreases |steps|
  {
    steps == [] || (Enabled(s, steps[0]) && IsRun(Apply(s, steps[0]), steps[1..]))
  }

  ghost function After(s: State, steps: seq<Step>): State
    requires IsRun(s, steps)
    decreases |steps|
  {
    if steps == [] then s else After(Apply(s, steps[0]), steps[1..])
  }

  lemma {:induction false} RunKeepsInv(s: State, steps: seq<Step>)
    requires IsRun(s, steps) && Inv(s)
    ensures Inv(After(s, steps))
    decreases |steps|
  {
    if steps != [] {
      StepKeepsInv(s, steps[0]);
      RunKeepsInv(Apply(s, steps[0]), steps[1..]);
    }
  }

  // --------------------------------------------------------------- quiet join

  /**
   * The count is that of the workers that began and neither wait nor have left. So when `join` finds it
   * zero no task is running, and none runs in any state until `join` returns, however many are due; the
   * tasks not started stay.
   */
  lemma {:induction false} JoinIsQuiet(now: int, steps: seq<Step>)
    requires IsRun(Init(now), steps)
    ensures var s := After(Init(now), steps);
            && s.busy == |s.looping| + |s.running| + |s.exiting|
            && (s.busy == 0 || s.joining ==> s.running == {})
            && s.tasks == Pending(s.log)
  {
    RunKeepsInv(Init(now), steps);
  }

  /** While `join` waits for the workers, one of them can move, unless all have left. */
  lemma {:induction false} JoinIsNeverStuck(s: State) returns (e: Step)
    requires Inv(s) && s.joining
    ensures Enabled(s, e) && (e.BeginLoop? || e.Resume? || e.Quit? || e.Exit? || e.EndJoin?)
  {
    if w :| w in s.spawned {
      e := BeginLoop(w);
    } else if w :| w in s.woken {
      e := Resume(w);
    } else if w :| w in s.looping {
      e := Quit(w);
    } else if w :| w in s.exiting {
      e := Exit(w);
    } else {
      e := EndJoin;
    }
  }

  function WorkersLeft(s: State): nat {
    3 * (|s.spawned| + |s.woken|) + 2 * |s.looping| + |s.exiting|
  }

  /** And each of these moves brings the end of `join` nearer. */
  lemma {:induction false} JoinAdvances(s: State, e: Step)
    requires Inv(s) && s.joining && Enabled(s, e) && (e.BeginLoop? || e.Resume? || e.Quit? || e.Exit?)
    ensures WorkersLeft(Apply(s, e)) < WorkersLeft(s)
  {
    match e
    case BeginLoop(w) => OneLess(s.spawned, w); OneMore(s.looping, w);
    case Resume(w) => OneLess(s.woken, w); OneMore(s.looping, w);
    case Quit(w) => OneLess(s.looping, w); OneMore(s.exiting, w);
    case Exit(w) => OneLess(s.exiting, w);
  }

  /** A call of `schedule` is recorded, under an identity not used before. */
  lemma {:induction false} ScheduleIsRecorded(s: State, time: int, w: Worker)
    requires Tracked(s.tasks, s.next, s.log) && Enabled(s, Schedule(time, w))
    ensures var s1 := Apply(s, Schedule(time, w));
            s.next !in s.tasks && s1.tasks == s.tasks[s.next := time] && s1.next > s.next
            && s1.log == s.log + [Scheduled(s.next, time)]
  {
  }

  /** `join` begins once nobody is busy, and calls those that wait; clearing forgets every task that has not started. */
  lemma {:induction false} JoinBegins(s: State)
    ensures Enabled(s, SetJoining) ==>
              var s1 := Apply(s, SetJoining);
              s.busy == 0 && s1.joining && s1.waiting == map[] && s.waiting.Keys <= s1.woken
    ensures var s1 := Apply(s, Clear); s1.tasks == map[] && s1.log == s.log + [Cleared]
  {
  }

  /** When `join` returns no worker is left, the pool can be used again, and the tasks not started are still there. */
  lemma {:induction false} JoinLeavesNobody(s: State, w: Worker)
    requires Inv(s) && Enabled(s, EndJoin)
    ensures var s1 := Apply(s, EndJoin);
            && !s1.joining && !IsWorker(s1, w) && s1.busy == 0
            && s1.tasks == s.tasks == Pending(s1.log) && Enabled(s1, Spawn(w))
  {
  }

  /** Unless it leaves, a worker that looks for a task takes one that is due if there is one, and waits if not. */
  lemma {:induction false} WorkerMoves(s: State, w: Worker) returns (e: Step)
    requires Inv(s) && w in s.looping
    ensures Enabled(s, e)
    ensures if s.joining then e == Quit(w)
            else if NoneDue(s) then e == Wait(w)
            else e.Take? && e.w == w && w in Apply(s, e).running && e.id !in Apply(s, e).tasks
                 && Apply(s, e).log == s.log + [Started(e.id, s.now)]
  {
    if s.joining {
      e := Quit(w);
    } else if NoneDue(s) {
      e := Wait(w);
    } else {
      TopExists(s.tasks);
      var id :| IsTop(s.tasks, id);
      e := Take(w, id);
    }
  }

  /**
   * No task is forgotten: when there are workers and all of them wait, one of them wakes up by itself no
   * later than the earliest task is due.
   */
  lemma {:induction false} NoTaskForgotten(now: int, steps: seq<Step>) returns (w: Worker)
    requires IsRun(Init(now), steps)
    requires var s := After(Init(now), steps);
             && s.tasks != map[] && s.waiting != map[]
             && s.spawned == {} && s.looping == {} && s.running == {} && s.woken == {}
    ensures var s := After(Init(now), steps); w in s.waiting && Punctual(s, w)
  {
    RunKeepsInv(Init(now), steps);
    var s := After(Init(now), steps);
    w :| w in s.waiting && Punctual(s, w);
  }

  // ------------------------------------------------------------ order of starts

  /** The task scheduled at `k` is neither started nor cleared within the first `n` entries. */
  predicate Open(log: seq<Entry>, k: nat, n: nat)
    requires k < n <= |log| && log[k].Scheduled?
  {
    forall j :: k < j < n ==> log[j] != Cleared && !(log[j].Started? && log[j].id == log[k].id)
  }

  predicate FreshIds(log: seq<Entry>) {
    forall j, k :: 0 <= j < k < |log| && log[j].Scheduled? && log[k].Scheduled? ==> log[j].id < log[k].id
  }

  /** A start takes a task that is due, and that no other pending task comes before. */
  predicate RightStart(log: seq<Entry>, i: nat)
    requires i < |log| && log[i].Started?
  {
    var p := Pending(log[..i]);
    IsTop(p, log[i].id) && p[log[i].id] <= log[i].at
  }

  predicate RightStarts(log: seq<Entry>) {
    forall i :: 0 <= i < |log| && log[i].Started? ==> RightStart(log, i)
  }

  lemma {:induction false} RightStartsAfter(log: seq<Entry>, e: Entry)
    requires RightStarts(log)
    requires e.Started? ==> IsTop(Pending(log), e.id) && Pending(log)[e.id] <= e.at
    ensures RightStarts(log + [e])
  {
    forall i | 0 <= i < |log + [e]| && (log + [e])[i].Started? ensures RightStart(log + [e], i) {
      assert (log + [e])[..i] == log[..i];
      assert log[..|log|] == log;
    }
  }

  predicate Below(log: seq<Entry>, next: Id) {
    forall k :: 0 <= k < |log| && log[k].Scheduled? ==> log[k].id < next
  }

  lemma {:induction false} FreshAfter(log: seq<Entry>, next: Id, e: Entry)
    requires FreshIds(log) && Below(log, next) && (e.Scheduled? ==> e.id == next)
    ensures FreshIds(log + [e]) && Below(log + [e], if e.Scheduled? then next + 1 else next)
  {
  }

  predicate InOrder(s: State) {
    RightStarts(s.log) && FreshIds(s.log) && Below(s.log, s.next)
  }

  lemma {:induction false} EntryKeepsOrder(s: State, s1: State, e: Entry)
    requires InOrder(s) && s1.log == s.log + [e]
    requires e.Started? ==> IsTop(Pending(s.log), e.id) && Pending(s.log)[e.id] <= e.at
    requires if e.Scheduled? then e.id == s.next && s1.next == s.next + 1 else s1.next == s.next
    ensures InOrder(s1)
  {
    RightStartsAfter(s.log, e);
    FreshAfter(s.log, s.next, e);
  }

  lemma {:induction false} StepKeepsOrder(s: State, e: Step)
    requires Tracked(s.tasks, s.next, s.log) && Enabled(s, e) && InOrder(s)
    ensures InOrder(Apply(s, e))
  {
    match e
    case Take(_, id) => EntryKeepsOrder(s, Apply(s, e), Started(id, s.now));
    case Schedule(time, _) => EntryKeepsOrder(s, Apply(s, e), Scheduled(s.next, time));
    case Clear => EntryKeepsOrder(s, Apply(s, e), Cleared);
    case _ =>
  }

  lemma {:induction false} RunKeepsOrder(s: State, steps: seq<Step>)
    requires Inv(s) && IsRun(s, steps) && InOrder(s)
    ensures InOrder(After(s, steps))
    decreases |steps|
  {
    if steps != [] {
      StepKeepsInv(s, steps[0]);
      StepKeepsOrder(s, steps[0]);
      RunKeepsOrder(Apply(s, steps[0]), steps[1..]);
    }
  }

  lemma {:induction false} OpenMeansPending(log: seq<Entry>, k: nat, n: nat)
    requires FreshIds(log) && k < n <= |log| && log[k].Scheduled? && Open(log, k, n)
    ensures log[k].id in Pending(log[..n]) && Pending(log[..n])[log[k].id] == log[k].time
    decreases n
  {
    assert log[..n] == log[..n - 1] + [log[n - 1]];
    PendingAfter(log[..n - 1], log[n - 1]);
    if k < n - 1 {
      OpenMeansPending(log, k, n - 1);
    }
  }

  lemma {:induction false} PendingMeansOpen(log: seq<Entry>, n: nat, id: Id) returns (k: nat)
    requires FreshIds(log) && n <= |log| && id in Pending(log[..n])
    ensures k < n && log[k] == Scheduled(id, Pending(log[..n])[id]) && Open(log, k, n)
    decreases n
  {
    assert log[..n] == log[..n - 1] + [log[n - 1]];
    PendingAfter(log[..n - 1], log[n - 1]);
    if log[n - 1].Scheduled? && log[n - 1].id == id {
      k := n - 1;
    } else {
      k := PendingMeansOpen(log, n - 1, id);
    }
  }

  /**
   * Every start in every run is of a task scheduled before it and not started or cleared in between,
   * comes no sooner than the task is due, and passes over no pending task with an earlier time.
   */
  lemma {:induction false} StartsAreRight(now: int, steps: seq<Step>, i: nat) returns (k: nat)
    requires IsRun(Init(now), steps) && i < |After(Init(now), steps).log| && After(Init(now), steps).log[i].Started?
    ensures var log := After(Init(now), steps).log;
            && k < i && log[k].Scheduled? && log[k].id == log[i].id && Open(log, k, i)
            && log[k].time <= log[i].at
            && forall o :: 0 <= o < i && log[o].Scheduled? && Open(log, o, i) ==> log[k].time <= log[o].time
  {
    RunKeepsOrder(Init(now), steps);
    var log := After(Init(now), steps).log;
    assert RightStart(log, i);
    k := PendingMeansOpen(log, i, log[i].id);
    forall o | 0 <= o < i && log[o].Scheduled? && Open(log, o, i) ensures log[k].time <= log[o].time {
      OpenMeansPending(log, o, i);
    }
  }

  /** No task starts twice. */
  lemma {:induction false} StartsOnce(now: int, steps: seq<Step>, i: nat, j: nat)
    requires IsRun(Init(now), steps) && i < j < |After(Init(now), steps).log|
    requires After(Init(now), steps).log[i].Started? && After(Init(now), steps).log[j].Started?
    ensures After(Init(now), steps).log[i].id != After(Init(now), steps).log[j].id
  {
    RunKeepsOrder(Init(now), steps);
    var log := After(Init(now), steps).log;
    if log[i].id == log[j].id {
      var k := StartsAreRight(now, steps, i);
      var l := StartsAreRight(now, steps, j);
    }
  }
}
