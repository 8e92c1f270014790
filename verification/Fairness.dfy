/** How long a runnable task waits for its turn, whatever happens to the others (kernel/task.cpp). */
module Fairness {
  import opened Common
  import opened Scheduler

  /** What can happen to the run queues. */
  datatype Event =
    | Switch
    | SleepEvent(task: TaskId)
    | WakeupEvent(task: TaskId, level: int)
    | SendEvent(task: TaskId, message: Message)
    | NewTaskEvent
    | FinishEvent(exitCode: int)

  /** How many tasks are before t in a queue. */
  function Place(q: seq<TaskId>, t: TaskId): (p: nat)
    ensures t in q ==> p < |q| && q[p] == t
  {
    if q == [] || q[0] == t then 0 else 1 + Place(q[1..], t)
  }

  /**
   * The events that leave the level and the runnable state of t alone. The running task does not move itself to the
   * level of t, where it would be put in front.
   */
  ghost predicate Legal(s: Sched, e: Event, t: TaskId) {
    Inv(s) &&
    match e
    case Switch => true
    case SleepEvent(u) => u in s.tasks && u != t && OtherRunnable(s, u)
    case WakeupEvent(u, level) =>
      && u in s.tasks && level <= MAX_LEVEL && (u == t ==> level < 0 || level == s.Level(t))
      && (u == s.Current() && level != s.currentLevel ==> level != s.Level(t))
    case SendEvent(_, _) => true
    case NewTaskEvent => true
    case FinishEvent(_) => s.Current() != t && OtherRunnable(s, s.Current())
  }

  ghost function Apply(s: Sched, e: Event, t: TaskId): Sched
    requires Legal(s, e, t)
  {
    match e
    case Switch => Rotate(s, false)
    case SleepEvent(u) => Sleep(s, u)
    case WakeupEvent(u, level) => Wakeup(s, u, level)
    case SendEvent(u, m) => Send(s, u, m)
    case NewTaskEvent => NewTask(s)
    case FinishEvent(exitCode) => Finish(s, exitCode)
  }

  /** A whole run of such events in which t never is the current task. */
  ghost predicate Waits(s: Sched, es: seq<Event>, t: TaskId)
    decreases |es|
  {
    es == [] || (Legal(s, es[0], t) && s.Current() != t && Waits(Apply(s, es[0], t), es[1..], t))
  }

  /** How often the processor was given away on level l. */
  ghost function Turns(s: Sched, es: seq<Event>, t: TaskId, l: int): nat
    requires Waits(s, es, t)
    decreases |es|
  {
    if es == [] then 0
    else (if es[0].Switch? && s.currentLevel == l then 1 else 0) + Turns(Apply(s, es[0], t), es[1..], t, l)
  }

  ghost function After(s: Sched, es: seq<Event>, t: TaskId): Sched
    requires Waits(s, es, t)
    decreases |es|
  {
    if es == [] then s else After(Apply(s, es[0], t), es[1..], t)
  }

  // ----- places in queues

  lemma {:induction false} PlaceAppended(q: seq<TaskId>, u: TaskId, t: TaskId)
    requires t in q
    ensures Place(q + [u], t) == Place(q, t)
  {
    if q[0] != t {
      assert (q + [u])[1..] == q[1..] + [u];
      PlaceAppended(q[1..], u, t);
    }
  }

  lemma {:induction false} PlaceWithout(q: seq<TaskId>, u: TaskId, t: TaskId)
    requires t in q && u != t
    ensures t in Without(q, u) && Place(Without(q, u), t) <= Place(q, t)
  {
    if q[0] != t {
      PlaceWithout(q[1..], u, t);
      if q[0] != u {
        assert ([q[0]] + Without(q[1..], u))[1..] == Without(q[1..], u);
      }
    }
  }

  /** What a step may do to the queue of t: turn says whether it must bring t one place forward. */
  ghost predicate Forward(q: seq<TaskId>, q': seq<TaskId>, t: TaskId, turn: bool) {
    t in q' && Place(q', t) + (if turn then 1 else 0) <= Place(q, t)
  }

  lemma TailForward(q: seq<TaskId>, t: TaskId)
    requires t in q && q[0] != t
    ensures Forward(q, q[1..], t, true) && Forward(q, q[1..] + [q[0]], t, true)
  {
    PlaceAppended(q[1..], q[0], t);
  }

  // ----- one event

  /** t is runnable on level l, and so it stays, no farther back in its queue. */
  ghost predicate KeepsPlace(s: Sched, s': Sched, t: TaskId, turn: bool)
    requires Inv(s)
  {
    && Inv(s') && s'.Running(t) && s'.Level(t) == s.Level(t) && 0 <= s.Level(t) <= MAX_LEVEL
    && Forward(s.queues[s.Level(t)], s'.queues[s.Level(t)], t, turn)
  }

  lemma InItsQueue(s: Sched, t: TaskId)
    requires Inv(s) && s.Running(t)
    ensures 0 <= s.Level(t) <= MAX_LEVEL && t in s.queues[s.Level(t)]
    ensures s.Current() != t && s.currentLevel == s.Level(t) ==> s.queues[s.Level(t)][0] != t
  {
    assert GoodQueue(s.tasks, s.queues[s.Level(t)], s.Level(t));
  }

  lemma SwitchForward(s: Sched, t: TaskId)
    requires Inv(s) && s.Running(t) && s.Current() != t
    ensures KeepsPlace(s, Rotate(s, false), t, s.currentLevel == s.Level(t))
  {
    hide GoodQueue;
    InItsQueue(s, t);
    SwitchKeeps(s);
    if s.currentLevel == s.Level(t) {
      TailForward(s.queues[s.Level(t)], t);
    }
  }

  lemma SleepForward(s: Sched, u: TaskId, t: TaskId)
    requires Inv(s) && s.Running(t) && s.Current() != t && u in s.tasks && u != t && OtherRunnable(s, u)
    ensures KeepsPlace(s, Sleep(s, u), t, false)
  {
    hide GoodQueue, Without;
    InItsQueue(s, t);
    SleepKeeps(s, u);
    CurrentIsFront(s);
    var q := s.queues[s.Level(t)];
    PlaceWithout(q, u, t);
    if s.currentLevel == s.Level(t) {
      TailForward(q, t);
    }
  }

  lemma WakeupForward(s: Sched, u: TaskId, level: int, t: TaskId)
    requires s.Running(t) && Legal(s, WakeupEvent(u, level), t) && s.Current() != t
    ensures KeepsPlace(s, Wakeup(s, u, level), t, false)
  {
    hide GoodQueue, Without;
    InItsQueue(s, t);
    WakeupKeeps(s, u, level);
    CurrentIsFront(s);
    var q := s.queues[s.Level(t)];
    PlaceAppended(q, u, t);
    if u != t {
      PlaceWithout(q, u, t);
    }
    if s.currentLevel == s.Level(t) {
      TailForward(q, t);
    }
  }

  /** The queue of another task when the current one ends: without that one, and perhaps with its waiter at the end. */
  lemma FinishQueue(s: Sched, exitCode: int, t: TaskId)
    requires Inv(s) && s.Running(t) && s.Current() != t && OtherRunnable(s, s.Current()) && 0 <= s.Level(t) <= MAX_LEVEL
    ensures var s', l := Finish(s, exitCode), s.Level(t);
            var q := if s.currentLevel == l then s.queues[l][1..] else s.queues[l];
            && |s'.queues| == MAX_LEVEL + 1 && s'.Running(t) && s'.Level(t) == l
            && (s'.queues[l] == q || exists u :: s'.queues[l] == q + [u])
  {
    LeaveKeeps(s);
    hide GoodQueue, TopLevel, OtherRunnable, Highest;
    var c := s.Current();
    var s1 := Rotate(s, true);
    var s2 := s1.(tasks := s1.tasks - {c}, finishTasks := s1.finishTasks[c := exitCode]);
    if c in s2.finishWaiter {
      var s3 := s2.(finishWaiter := s2.finishWaiter - {c});
      assert Finish(s, exitCode) == s3 || Finish(s, exitCode) == Wakeup(s3, s2.finishWaiter[c], -1);
    }
  }

  lemma FinishForward(s: Sched, exitCode: int, t: TaskId)
    requires Inv(s) && s.Running(t) && s.Current() != t && OtherRunnable(s, s.Current())
    ensures KeepsPlace(s, Finish(s, exitCode), t, false)
  {
    InItsQueue(s, t);
    FinishKeeps(s, exitCode);
    FinishQueue(s, exitCode, t);
    hide Inv, Finish;
    var s', l := Finish(s, exitCode), s.Level(t);
    if s.currentLevel == l {
      TailForward(s.queues[l], t);
    }
    var q := if s.currentLevel == l then s.queues[l][1..] else s.queues[l];
    if s'.queues[l] != q {
      var u :| s'.queues[l] == q + [u];
      PlaceAppended(q, u, t);
    }
  }

  lemma StepForward(s: Sched, e: Event, t: TaskId)
    requires Legal(s, e, t) && s.Running(t) && s.Current() != t
    ensures KeepsPlace(s, Apply(s, e, t), t, e.Switch? && s.currentLevel == s.Level(t))
  {
    hide Inv, Forward;
    match e
    case Switch => SwitchForward(s, t);
    case SleepEvent(u) => SleepForward(s, u, t);
    case WakeupEvent(u, level) => WakeupForward(s, u, level, t);
    case SendEvent(u, m) => SendForward(s, u, m, t);
    case NewTaskEvent => NewTaskForward(s, t);
    case FinishEvent(exitCode) => FinishForward(s, exitCode, t);
  }

  lemma SendForward(s: Sched, u: TaskId, m: Message, t: TaskId)
    requires Inv(s) && s.Running(t) && s.Current() != t
    ensures KeepsPlace(s, Send(s, u, m), t, false)
  {
    hide GoodQueue, Without;
    InItsQueue(s, t);
    if u in s.tasks {
      var s1 := s.(tasks := s.tasks[u := s.tasks[u].(msgs := s.tasks[u].msgs + [m])]);
      MailKeeps(s, s1);
      WakeupForward(s1, u, -1, t);
    }
  }

  lemma NewTaskForward(s: Sched, t: TaskId)
    requires Inv(s) && s.Running(t)
    ensures KeepsPlace(s, NewTask(s), t, false)
  {
    InItsQueue(s, t);
    NewTaskKeeps(s);
    hide Inv;
  }

  // ----- whole runs

  /**
   * Bounded waiting: while a runnable task waits, whatever is woken, put to sleep, created, finished or sent to, the
   * processor is given away on its level at most as often as there were tasks before it in its queue.
   */
  lemma {:induction false} BoundedWait(s: Sched, es: seq<Event>, t: TaskId)
    requires Inv(s) && s.Running(t) && Waits(s, es, t)
    ensures KeepsPlace(s, After(s, es, t), t, false)
    ensures var l := s.Level(t);
            Turns(s, es, t, l) + Place(After(s, es, t).queues[l], t) <= Place(s.queues[l], t) < |s.queues[l]|
    decreases |es|
  {
    hide Inv, Apply, Legal;
    InItsQueue(s, t);
    if es != [] {
      StepForward(s, es[0], t);
      BoundedWait(Apply(s, es[0], t), es[1..], t);
    }
  }
}
