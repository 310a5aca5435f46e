/** The rate-limited serial queue (src/common/utils/async-task-queue.js). */
module TaskQueue {
  import opened Wrappers

  type Task = int

  /** The one worker: free, holding a task until a timer fires, or running its executor. */
  datatype Worker = Free | Delayed(task: Task) | Running(task: Task)

  datatype Start = Start(task: Task, time: nat)

  /** The queue with its history: what was pushed, which executors started when, how many ended. */
  datatype State = State(
    nextExecution: Option<nat>,
    waiting: seq<Task>,
    worker: Worker,
    pushed: seq<Task>,
    starts: seq<Start>,
    ended: nat)

  /** What can happen, with the clock's reading where the code asks for it. */
  datatype Event = Push(task: Task) | Dequeue(now: nat) | TimerFires(now: nat) | Ends

  const INITIAL := State(None, [], Free, [], [], 0)

  predicate Enabled(s: State, e: Event) {
    match e
    case Push(_) => true
    case Dequeue(_) => s.worker.Free? && s.waiting != []
    case TimerFires(_) => s.worker.Delayed?
    case Ends => s.worker.Running?
  }

  predicate TooEarly(s: State, now: nat) {
    s.nextExecution.Some? && s.nextExecution.value != 0 && now < s.nextExecution.value
  }

  /** `handleTask` */
  function Handle(s: State, task: Task, now: nat, delay: nat): State {
    if TooEarly(s, now) then s.(worker := Delayed(task))
    else s.(nextExecution := Some(now + delay), worker := Running(task), starts := s.starts + [Start(task, now)])
  }

  function Step(s: State, e: Event, delay: nat): State
    requires Enabled(s, e)
  {
    match e
    case Push(task) => s.(waiting := s.waiting + [task], pushed := s.pushed + [task])
    case Dequeue(now) => Handle(s.(waiting := s.waiting[1..]), s.waiting[0], now, delay)
    case TimerFires(now) => Handle(s, s.worker.task, now, delay)
    case Ends => s.(worker := Free, ended := s.ended + 1)
  }

  class AsyncTaskQueue {
    const delay: nat
    var nextExecution: Option<nat>
    var waiting: seq<Task>
    var worker: Worker
    ghost var pushed: seq<Task>
    ghost var starts: seq<Start>
    ghost var ended: nat

    ghost function History(): State
      reads this
    {
      State(nextExecution, waiting, worker, pushed, starts, ended)
    }

    ghost predicate Valid()
      reads this
    {
      Inv(History(), delay)
    }

    constructor (delay: nat)
      ensures this.delay == delay && History() == INITIAL && Valid()
    {
      this.delay := delay;
      nextExecution, waiting, worker := None, [], Free;
      pushed, starts, ended := [], [], 0;
    }

    method PushTask(task: Task)
      requires Valid()
      modifies this
      ensures Valid() && History() == Step(old(History()), Push(task), delay)
    {
      StepKeeps(History(), Push(task), delay);
      waiting := waiting + [task];
      pushed := pushed + [task];
    }

    /** The underlying queue hands its first task to the free worker. */
    method DequeueTask(now: nat)
      requires Valid() && Enabled(History(), Dequeue(now))
      modifies this
      ensures Valid() && History() == Step(old(History()), Dequeue(now), delay)
    {
      StepKeeps(History(), Dequeue(now), delay);
      var task := waiting[0];
      waiting := waiting[1..];
      HandleTask(task, now);
    }

    method TimerFired(now: nat)
      requires Valid() && Enabled(History(), TimerFires(now))
      modifies this
      ensures Valid() && History() == Step(old(History()), TimerFires(now), delay)
    {
      StepKeeps(History(), TimerFires(now), delay);
      HandleTask(worker.task, now);
    }

    method HandleTask(task: Task, now: nat)
      modifies this
      ensures History() == Handle(old(History()), task, now, delay)
    {
      if nextExecution.Some? && nextExecution.value != 0 && now < nextExecution.value {
        worker := Delayed(task);
        return;
      }
      nextExecution := Some(now + delay);
      worker := Running(task);
      starts := starts + [Start(task, now)];
    }

    /** The executor returned, threw, or its promise settled: the callback frees the worker. */
    method TaskEnded()
      requires Valid() && Enabled(History(), Ends)
      modifies this
      ensures Valid() && History() == Step(old(History()), Ends, delay)
    {
      StepKeeps(History(), Ends, delay);
      worker := Free;
      ended := ended + 1;
    }
  }

  // The invariant

  function TasksOf(starts: seq<Start>): seq<Task> {
    seq(|starts|, i requires 0 <= i < |starts| => starts[i].task)
  }

  function Held(w: Worker): seq<Task> {
    if w.Delayed? then [w.task] else []
  }

  ghost predicate Spaced(starts: seq<Start>, delay: nat) {
    forall i :: 0 < i < |starts| ==> starts[i - 1].time + delay <= starts[i].time
  }

  ghost predicate Inv(s: State, delay: nat) {
    // every pushed task is started, held or waiting: once, and in push order
    s.pushed == TasksOf(s.starts) + Held(s.worker) + s.waiting &&
    // at most one executor is running, the last one started
    s.ended + (if s.worker.Running? then 1 else 0) == |s.starts| &&
    (s.worker.Running? ==> s.starts[|s.starts| - 1].task == s.worker.task) &&
    // starts keep their distance
    Spaced(s.starts, delay) &&
    s.nextExecution == if s.starts == [] then None else Some(s.starts[|s.starts| - 1].time + delay)
  }

  lemma HandleKeeps(s: State, task: Task, now: nat, delay: nat)
    requires !s.worker.Running? && Inv(s.(worker := Delayed(task)), delay)
    ensures Inv(Handle(s, task, now, delay), delay)
  {
    var t := Handle(s, task, now, delay);
    if t.worker.Running? {
      assert TasksOf(t.starts) == TasksOf(s.starts) + [task];
      assert t.pushed == TasksOf(t.starts) + [] + t.waiting;
    }
  }

  lemma StepKeeps(s: State, e: Event, delay: nat)
    requires Inv(s, delay) && Enabled(s, e)
    ensures Inv(Step(s, e, delay), delay)
  {
    match e
    case Push(task) =>
    case Dequeue(now) =>
      assert s.waiting == [s.waiting[0]] + s.waiting[1..];
      HandleKeeps(s.(waiting := s.waiting[1..]), s.waiting[0], now, delay);
    case TimerFires(now) =>
      HandleKeeps(s, s.worker.task, now, delay);
    case Ends =>
  }

  // When a task starts

  /** At this time the next task may start: it is the first, or the delay since the last start is over. */
  predicate MayStart(starts: seq<Start>, delay: nat, now: nat) {
    starts == [] || starts[|starts| - 1].time + delay <= now
  }

  /** The task the event hands to the worker, and what is left waiting. */
  function Handed(s: State, e: Event): (Task, seq<Task>)
    requires Enabled(s, e) && (e.Dequeue? || e.TimerFires?)
  {
    if e.Dequeue? then (s.waiting[0], s.waiting[1..]) else (s.worker.task, s.waiting)
  }

  /**
   A task that is dequeued, or whose timer fires, starts at once if and only if it is the first or
   the delay since the last start is over; otherwise it is held and nothing else changes.
   */
  lemma StartsWhenDue(s: State, e: Event, delay: nat)
    requires Inv(s, delay) && Enabled(s, e) && (e.Dequeue? || e.TimerFires?)
    ensures var t, (task, waiting) := Step(s, e, delay), Handed(s, e);
      t.waiting == waiting && t.pushed == s.pushed && t.ended == s.ended &&
      if MayStart(s.starts, delay, e.now)
      then t.worker == Running(task) && t.starts == s.starts + [Start(task, e.now)]
      else t.worker == Delayed(task) && t.starts == s.starts && t.nextExecution == s.nextExecution
  {
  }

  /** While a task is held only pushes and timers can happen, and timers before its time leave it held. */
  lemma {:induction false} HeldUntilDue(s: State, events: seq<Event>, delay: nat, task: Task)
    requires Inv(s, delay) && s.worker == Delayed(task) && Runnable(s, events, delay)
    requires forall e :: e in events && e.TimerFires? ==> !MayStart(s.starts, delay, e.now)
    ensures var t := Run(s, events, delay); Inv(t, delay) && t.worker == Delayed(task) && t.starts == s.starts
    decreases |events|
  {
    if events != [] {
      var e := events[0];
      StepKeeps(s, e, delay);
      assert e in events && forall d :: d in events[1..] ==> d in events;
      if e.TimerFires? {
        StartsWhenDue(s, e, delay);
      }
      HeldUntilDue(Step(s, e, delay), events[1..], delay, task);
    }
  }

  /** A held task starts at its first timer at or after the delay since the last start is over. */
  lemma HeldTaskStarts(s: State, events: seq<Event>, delay: nat, task: Task, now: nat)
    requires Inv(s, delay) && s.worker == Delayed(task) && Runnable(s, events, delay)
    requires forall e :: e in events && e.TimerFires? ==> !MayStart(s.starts, delay, e.now)
    requires MayStart(s.starts, delay, now)
    ensures var t := Run(s, events, delay);
      Enabled(t, TimerFires(now)) && Step(t, TimerFires(now), delay).worker == Running(task) &&
      Step(t, TimerFires(now), delay).starts == s.starts + [Start(task, now)]
  {
    HeldUntilDue(s, events, delay, task);
    StartsWhenDue(Run(s, events, delay), TimerFires(now), delay);
  }

  // Runs

  predicate Runnable(s: State, events: seq<Event>, delay: nat)
    decreases |events|
  {
    events == [] || (Enabled(s, events[0]) && Runnable(Step(s, events[0], delay), events[1..], delay))
  }

  function Run(s: State, events: seq<Event>, delay: nat): State
    requires Runnable(s, events, delay)
    decreases |events|
  {
    if events == [] then s else Run(Step(s, events[0], delay), events[1..], delay)
  }

  lemma {:induction false} RunKeeps(s: State, events: seq<Event>, delay: nat)
    requires Inv(s, delay) && Runnable(s, events, delay)
    ensures Inv(Run(s, events, delay), delay)
    decreases |events|
  {
    if events != [] {
      StepKeeps(s, events[0], delay);
      RunKeeps(Step(s, events[0], delay), events[1..], delay);
    }
  }

  /** Starts whose time lies in the closed window [from, to]. */
  function StartsIn(starts: seq<Start>, from: int, to: int): nat {
    if starts == [] then 0
    else StartsIn(starts[..|starts| - 1], from, to) + if from <= starts[|starts| - 1].time <= to then 1 else 0
  }

  lemma {:induction false} SpacedBelow(starts: seq<Start>, delay: nat, i: nat)
    requires Spaced(starts, delay) && i < |starts| - 1
    ensures starts[i].time + delay <= starts[|starts| - 1].time
    decreases |starts|
  {
    var front := starts[..|starts| - 1];
    assert forall k :: 0 <= k < |front| ==> front[k] == starts[k];
    if i < |front| - 1 {
      SpacedBelow(front, delay, i);
      assert front[|front| - 1] == starts[|starts| - 2];
    }
  }

  lemma {:induction false} SameWindow(starts: seq<Start>, from: int, to: int, to': int)
    requires forall i :: 0 <= i < |starts| ==> (starts[i].time <= to <==> starts[i].time <= to')
    ensures StartsIn(starts, from, to) == StartsIn(starts, from, to')
  {
    if starts != [] {
      assert forall i :: 0 <= i < |starts| - 1 ==> starts[..|starts| - 1][i] == starts[i];
      SameWindow(starts[..|starts| - 1], from, to, to');
    }
  }

  lemma {:induction false} EmptyWindow(starts: seq<Start>, from: int, to: int)
    requires to < from
    ensures StartsIn(starts, from, to) == 0
  {
    if starts != [] {
      EmptyWindow(starts[..|starts| - 1], from, to);
    }
  }

  lemma OneMoreDelay(n: int, delay: int)
    ensures n * delay == (n - 1) * delay + delay
  {
  }

  /** Spaced starts: the last of `n` starts in a window comes at least `n - 1` delays after its beginning. */
  lemma {:induction false} WindowBound(starts: seq<Start>, delay: nat, from: int, to: int)
    requires Spaced(starts, delay) && delay > 0 && from <= to
    ensures (StartsIn(starts, from, to) - 1) * delay <= to - from
    decreases |starts|
  {
    if starts != [] {
      var front, last := starts[..|starts| - 1], starts[|starts| - 1];
      assert forall k :: 0 <= k < |front| ==> front[k] == starts[k];
      if from <= last.time <= to {
        forall i | 0 <= i < |front|
          ensures front[i].time <= last.time - delay
        {
          SpacedBelow(starts, delay, i);
        }
        SameWindow(front, from, to, last.time - delay);
        var n := StartsIn(front, from, last.time - delay);
        if last.time - delay < from {
          EmptyWindow(front, from, last.time - delay);
        } else {
          WindowBound(front, delay, from, last.time - delay);
          OneMoreDelay(n, delay);
        }
      } else {
        WindowBound(front, delay, from, to);
      }
    }
  }

  lemma ScaledOrder(a: int, b: int, d: int)
    requires d > 0 && a <= b
    ensures a * d <= b * d
  {
    assert (b - a) * d >= 0;
    assert b * d - a * d == (b - a) * d;
  }

  lemma DivisionBounds(length: int, d: int)
    requires d > 0 && length >= 0
    ensures length < (length / d + 1) * d
  {
    var q, r := length / d, length % d;
    assert length == d * q + r;
    assert d * q == q * d;
    assert (q + 1) * d == q * d + d;
  }

  lemma AtMostQuotient(n: int, delay: nat, length: nat)
    requires delay > 0 && n * delay <= length
    ensures n <= length / delay
  {
    DivisionBounds(length, delay);
    if n > length / delay {
      ScaledOrder(length / delay + 1, n, delay);
    }
  }

  /**
   Over every run, whatever times the timers fire: tasks start in push order, each once, one
   executor at a time, `delay` apart, and no window of length T holds more than floor(T / delay) + 1 starts.
   */
  lemma RateLimited(events: seq<Event>, delay: nat, from: int, to: int)
    requires Runnable(INITIAL, events, delay)
    requires delay > 0 && from <= to
    ensures var s := Run(INITIAL, events, delay);
      TasksOf(s.starts) <= s.pushed && |s.starts| <= s.ended + 1 && Spaced(s.starts, delay) &&
      StartsIn(s.starts, from, to) <= (to - from) / delay + 1
  {
    assert TasksOf([]) == [];
    RunKeeps(INITIAL, events, delay);
    var starts := Run(INITIAL, events, delay).starts;
    WindowBound(starts, delay, from, to);
    AtMostQuotient(StartsIn(starts, from, to) - 1, delay, to - from);
  }

  /** A queue whose worker is free and whose list is empty has run every pushed task. */
  lemma DrainedMeansDone(events: seq<Event>, delay: nat)
    requires Runnable(INITIAL, events, delay)
    ensures var s := Run(INITIAL, events, delay);
      s.worker.Free? && s.waiting == [] ==> TasksOf(s.starts) == s.pushed && s.ended == |s.starts|
  {
    assert TasksOf([]) == [];
    RunKeeps(INITIAL, events, delay);
    var s := Run(INITIAL, events, delay);
    assert TasksOf(s.starts) + [] + [] == TasksOf(s.starts);
  }
}
