/**
 * Mailboxes and WaitFinish over whole runs (kernel/task.cpp, kernel/terminal.cpp): every event is one
 * critical section between cli and sti, and any task may be interrupted between two of them.
 */
module TaskProtocol {
  import opened Common
  import opened Scheduler

  const IDLE: TaskId := 2

  /** Where a task is: running its own code, in a receive loop, or in WaitFinish's loop. */
  datatype Control = Busy | Receiving | Waiting(on: TaskId)

  /**
   * exits are the exit codes of all tasks that have finished, collected the ones that WaitFinish has
   * returned to somebody.
   */
  datatype World = World(s: Sched, ctl: map<TaskId, Control>, exits: map<TaskId, int>, collected: map<TaskId, int>)

  datatype Event =
    | SwitchEvent
    | NewEvent
    | WakeEvent(task: TaskId, level: int)
    | SendEvent(task: TaskId, msg: Message)
    | ReceiveEvent
    | WaitEvent(on: TaskId)
    | FinishEvent(code: int)

  ghost function Cur(s: Sched): TaskId
    requires Inv(s)
  {
    s.Current()
  }

  ghost predicate Legal(w: World, e: Event)
    requires Inv(w.s)
  {
    var t := Cur(w.s);
    match e
    case SwitchEvent => true
    case NewEvent => true
    case WakeEvent(r, level) => r in w.s.tasks && level <= MAX_LEVEL
    case SendEvent(_, _) => true
    case ReceiveEvent => t != IDLE && t in w.ctl && !w.ctl[t].Waiting?
    case WaitEvent(x) =>
      && t != IDLE && t in w.ctl && (w.ctl[t].Busy? || w.ctl[t] == Waiting(x))
      && x !in w.collected && forall r :: r in w.ctl && r != t ==> w.ctl[r] != Waiting(x)
    case FinishEvent(_) => t != IDLE && t in w.ctl && w.ctl[t].Busy?
  }

  ghost function Apply(w: World, e: Event): World
    requires Inv(w.s) && Legal(w, e)
  {
    var t := Cur(w.s);
    match e
    case SwitchEvent => w.(s := Rotate(w.s, false))
    case NewEvent =>
      NewTaskKeeps(w.s);
      var id := w.s.latestId + 1;
      w.(s := Wakeup(NewTask(w.s), id, -1), ctl := w.ctl[id := Busy])
    case WakeEvent(r, level) => w.(s := Wakeup(w.s, r, level))
    case SendEvent(r, m) => w.(s := Send(w.s, r, m))
    case ReceiveEvent =>
      CurIsTask(w.s);
      if w.s.Mail(t) == [] then w.(s := Sleep(w.s, t), ctl := w.ctl[t := Receiving])
      else w.(s := Received(w.s, t), ctl := w.ctl[t := Busy])
    case WaitEvent(x) =>
      CurIsTask(w.s);
      if x in w.s.finishTasks then
        World(w.s.(finishTasks := w.s.finishTasks - {x}), w.ctl[t := Busy], w.exits,
          w.collected[x := w.s.finishTasks[x]])
      else
        w.(s := Sleep(w.s.(finishWaiter := w.s.finishWaiter[x := t]), t), ctl := w.ctl[t := Waiting(x)])
    case FinishEvent(code) => World(Finish(w.s, code), w.ctl - {t}, w.exits[t := code], w.collected)
  }

  /** ReceiveMessage on a mailbox that is not empty. */
  function Received(s: Sched, t: TaskId): Sched
    requires t in s.tasks && s.tasks[t].msgs != []
  {
    s.(tasks := s.tasks[t := s.tasks[t].(msgs := s.tasks[t].msgs[1..])])
  }

  lemma CurIsTask(s: Sched)
    requires Inv(s)
    ensures Cur(s) in s.tasks && s.tasks[Cur(s)].running
    ensures s.tasks[Cur(s)].level == s.currentLevel && Cur(s) <= s.latestId
    ensures |s.queues| == MAX_LEVEL + 1 && 0 <= s.currentLevel <= MAX_LEVEL && s.queues[s.currentLevel] != []
  {
    CurrentIsTask(s);
  }

  // ----- what holds after every event

  /** A task that is not in one of the two loops is runnable; one that sleeps in a loop has nothing to do there. */
  ghost predicate Blocked(w: World, t: TaskId)
    requires t in w.s.tasks && t in w.ctl
  {
    match w.ctl[t]
    case Busy => w.s.tasks[t].running
    case Receiving => !w.s.tasks[t].running ==> w.s.tasks[t].msgs == []
    case Waiting(x) =>
      && (x in w.exits ==> x in w.s.finishTasks)
      && (!w.s.tasks[t].running ==> x !in w.exits && x in w.s.finishWaiter && w.s.finishWaiter[x] == t)
  }

  ghost predicate AllBlocked(w: World)
    requires w.ctl.Keys == w.s.tasks.Keys
  {
    forall t :: t in w.ctl ==> Blocked(w, t)
  }

  /** finish_tasks_ holds the exit codes that nobody has collected yet. */
  ghost predicate Codes(w: World) {
    && (forall x :: x in w.exits ==> x !in w.s.tasks && x <= w.s.latestId)
    && (forall x :: x in w.s.finishTasks <==> x in w.exits && x !in w.collected)
    && (forall x :: x in w.s.finishTasks ==> w.s.finishTasks[x] == w.exits[x])
    && (forall x :: x in w.collected ==> x in w.exits && w.collected[x] == w.exits[x])
  }

  ghost predicate Waiters(w: World) {
    && (forall x :: x in w.s.finishWaiter ==>
          x !in w.exits && w.s.finishWaiter[x] in w.ctl && w.ctl[w.s.finishWaiter[x]] == Waiting(x))
    && (forall t, r :: t in w.ctl && r in w.ctl && w.ctl[t].Waiting? && w.ctl[t] == w.ctl[r] ==> t == r)
  }

  ghost predicate Sound(w: World) {
    && Inv(w.s)
    && w.ctl.Keys == w.s.tasks.Keys
    && IDLE in w.ctl && w.ctl[IDLE].Busy?
    && AllBlocked(w)
    && Codes(w)
    && Waiters(w)
  }

  ghost function Start(): World {
    World(Initial(), map[1 := Busy, IDLE := Busy], map[], map[])
  }

  lemma StartSound()
    ensures Sound(Start())
  {
    InitialInv();
    hide Inv;
  }

  // ----- how the critical sections treat tasks other than the one they are about

  lemma RotateTasks(s: Sched, currentSleep: bool)
    requires Inv(s)
    ensures Rotate(s, currentSleep).tasks == s.tasks && Rotate(s, currentSleep).latestId == s.latestId
    ensures Rotate(s, currentSleep).finishTasks == s.finishTasks
    ensures Rotate(s, currentSleep).finishWaiter == s.finishWaiter
  {
  }

  lemma WakeupTasks(s: Sched, t: TaskId, level: int)
    requires Inv(s) && t in s.tasks && level <= MAX_LEVEL
    ensures var s' := Wakeup(s, t, level);
            && s'.tasks.Keys == s.tasks.Keys
            && s'.tasks[t] == Task(if level >= 0 then level else s.tasks[t].level, true, s.tasks[t].msgs)
            && (forall r :: r in s.tasks && r != t ==> s'.tasks[r] == s.tasks[r])
            && s'.latestId == s.latestId && s'.finishTasks == s.finishTasks && s'.finishWaiter == s.finishWaiter
  {
  }

  lemma SleepTasks(s: Sched, t: TaskId)
    requires Inv(s) && t in s.tasks
    ensures var s' := Sleep(s, t);
            && s'.tasks.Keys == s.tasks.Keys && s'.tasks[t] == Task(s.tasks[t].level, false, s.tasks[t].msgs)
            && (forall r :: r in s.tasks && r != t ==> s'.tasks[r] == s.tasks[r])
            && s'.latestId == s.latestId && s'.finishTasks == s.finishTasks && s'.finishWaiter == s.finishWaiter
  {
  }

  /** The idle task is always there to run, so any other task may leave. */
  lemma IdleRuns(w: World, t: TaskId)
    requires Sound(w) && t != IDLE
    ensures OtherRunnable(w.s, t)
  {
    assert Blocked(w, IDLE);
    assert IDLE != t && IDLE in w.s.tasks && w.s.tasks[IDLE].running;
  }

  lemma WaitersOf(s: Sched, s': Sched)
    requires Inv(s) && s' == s.(finishWaiter := s'.finishWaiter, finishTasks := s'.finishTasks)
    ensures Inv(s')
  {
  }

  /** Exit codes are as before if nobody has finished or been collected. */
  lemma CodesKept(w: World, w': World)
    requires Codes(w) && w'.exits == w.exits && w'.collected == w.collected && w'.s.finishTasks == w.s.finishTasks
    requires w.s.latestId <= w'.s.latestId && forall x :: x in w'.s.tasks ==> x in w.s.tasks || x > w.s.latestId
    ensures Codes(w')
  {
  }

  lemma WaitersKept(w: World, w': World)
    requires Waiters(w) && w'.exits == w.exits && w'.s.finishWaiter == w.s.finishWaiter && w'.ctl == w.ctl
    ensures Waiters(w')
  {
  }

  /** A task that is not in WaitFinish stays out of it. */
  lemma WaitersRetagged(w: World, w': World, t: TaskId)
    requires Waiters(w) && w'.exits == w.exits && w'.s.finishWaiter == w.s.finishWaiter
    requires t in w.ctl && !w.ctl[t].Waiting? && t in w'.ctl && !w'.ctl[t].Waiting? && w'.ctl == w.ctl[t := w'.ctl[t]]
    ensures Waiters(w')
  {
  }

  /** The only task waiting for x registers for it. */
  lemma WaitersRegistered(w: World, w': World, t: TaskId, x: TaskId)
    requires Waiters(w) && w'.exits == w.exits && w'.s.finishWaiter == w.s.finishWaiter[x := t]
    requires t in w.ctl && w'.ctl == w.ctl[t := Waiting(x)] && x !in w.exits
    requires w.ctl[t].Busy? || w.ctl[t] == Waiting(x)
    requires forall r :: r in w.ctl && r != t ==> w.ctl[r] != Waiting(x)
    ensures Waiters(w')
  {
  }

  lemma WaitersCollected(w: World, w': World, t: TaskId, x: TaskId)
    requires Waiters(w) && w'.exits == w.exits && w'.s.finishWaiter == w.s.finishWaiter
    requires t in w.ctl && w'.ctl == w.ctl[t := Busy] && x in w.exits
    requires w.ctl[t].Busy? || w.ctl[t] == Waiting(x)
    ensures Waiters(w')
  {
  }

  lemma WaitersFinished(w: World, w': World, t: TaskId)
    requires Waiters(w) && t in w.ctl && w.ctl[t].Busy? && w'.ctl == w.ctl - {t}
    requires w'.s.finishWaiter == w.s.finishWaiter - {t} && t in w'.exits && w'.exits == w.exits[t := w'.exits[t]]
    ensures Waiters(w')
  {
  }

  lemma CodesFinished(w: World, w': World, t: TaskId)
    requires Codes(w) && t in w.s.tasks && t <= w.s.latestId && w'.s.latestId == w.s.latestId
    requires w'.s.tasks.Keys == w.s.tasks.Keys - {t} && w'.collected == w.collected
    requires t in w'.exits && w'.exits == w.exits[t := w'.exits[t]]
    requires w'.s.finishTasks == w.s.finishTasks[t := w'.exits[t]]
    ensures Codes(w')
  {
  }

  /** A task whose flags and mailbox are as before is as blocked as before. */
  lemma BlockedKept(w: World, w': World, t: TaskId)
    requires t in w.s.tasks && t in w.ctl && t in w'.s.tasks && t in w'.ctl && Blocked(w, t)
    requires w'.s.tasks[t] == w.s.tasks[t] && w'.ctl[t] == w.ctl[t]
    requires w'.exits == w.exits && w'.s.finishTasks == w.s.finishTasks && w'.s.finishWaiter == w.s.finishWaiter
    ensures Blocked(w', t)
  {
  }

  /** A task that has just been woken is not blocked. */
  lemma BlockedWoken(w: World, w': World, t: TaskId)
    requires t in w.s.tasks && t in w.ctl && t in w'.s.tasks && t in w'.ctl && Blocked(w, t)
    requires w'.s.tasks[t].running && w'.ctl[t] == w.ctl[t]
    requires w'.exits == w.exits && w'.s.finishTasks == w.s.finishTasks
    ensures Blocked(w', t)
  {
  }

  // ----- every event keeps it

  lemma SwitchSound(w: World)
    requires Sound(w)
    ensures Sound(Apply(w, SwitchEvent))
  {
    hide Inv, Rotate, Codes, Waiters, Blocked;
    SwitchKeeps(w.s);
    RotateTasks(w.s, false);
    var w' := Apply(w, SwitchEvent);
    CodesKept(w, w');
    WaitersKept(w, w');
    forall t | t in w.ctl ensures Blocked(w', t) {
      BlockedKept(w, w', t);
    }
  }

  lemma NewSound(w: World)
    requires Sound(w)
    ensures Sound(Apply(w, NewEvent))
  {
    hide Inv, Wakeup, Codes, Blocked;
    NewTaskKeeps(w.s);
    var s1 := NewTask(w.s);
    var id := w.s.latestId + 1;
    WakeupKeeps(s1, id, -1);
    WakeupTasks(s1, id, -1);
    var w' := Apply(w, NewEvent);
    CodesKept(w, w');
    forall t | t in w'.ctl ensures Blocked(w', t) {
      if t == id {
        BusyRuns(w', t);
      } else {
        BlockedKept(w, w', t);
      }
    }
  }

  lemma BusyRuns(w: World, t: TaskId)
    requires t in w.s.tasks && t in w.ctl && w.ctl[t].Busy?
    ensures Blocked(w, t) <==> w.s.tasks[t].running
  {
  }

  lemma WakeSound(w: World, r: TaskId, level: int)
    requires Sound(w) && Legal(w, WakeEvent(r, level))
    ensures Sound(Apply(w, WakeEvent(r, level)))
  {
    hide Inv, Wakeup, Codes, Waiters, Blocked;
    WakeupKeeps(w.s, r, level);
    WakeupTasks(w.s, r, level);
    var w' := Apply(w, WakeEvent(r, level));
    CodesKept(w, w');
    WaitersKept(w, w');
    forall t | t in w'.ctl ensures Blocked(w', t) {
      if t == r { BlockedWoken(w, w', t); } else { BlockedKept(w, w', t); }
    }
  }

  lemma SendSound(w: World, r: TaskId, m: Message)
    requires Sound(w)
    ensures Sound(Apply(w, SendEvent(r, m)))
  {
    hide Inv, Wakeup, Codes, Waiters, Blocked;
    var w' := Apply(w, SendEvent(r, m));
    SendKeeps(w.s, r, m);
    if r in w.s.tasks {
      SendTasks(w.s, r, m);
      CodesKept(w, w');
      WaitersKept(w, w');
      forall t | t in w'.ctl ensures Blocked(w', t) {
        if t == r { BlockedWoken(w, w', t); } else { BlockedKept(w, w', t); }
      }
    }
  }

  lemma SendTasks(s: Sched, r: TaskId, m: Message)
    requires Inv(s) && r in s.tasks
    ensures var s' := Send(s, r, m);
            && s'.tasks.Keys == s.tasks.Keys
            && s'.tasks[r] == Task(s.tasks[r].level, true, s.tasks[r].msgs + [m])
            && (forall t :: t in s.tasks && t != r ==> s'.tasks[t] == s.tasks[t])
            && s'.latestId == s.latestId && s'.finishTasks == s.finishTasks && s'.finishWaiter == s.finishWaiter
  {
    var s1 := s.(tasks := s.tasks[r := s.tasks[r].(msgs := s.tasks[r].msgs + [m])]);
    MailKeeps(s, s1);
    WakeupTasks(s1, r, -1);
  }

  lemma ReceiveSound(w: World)
    requires Sound(w) && Legal(w, ReceiveEvent)
    ensures Sound(Apply(w, ReceiveEvent))
  {
    hide Inv, Sleep, Codes, Blocked, Waiters;
    var t := Cur(w.s);
    CurIsTask(w.s);
    var w' := Apply(w, ReceiveEvent);
    if w.s.Mail(t) == [] {
      IdleRuns(w, t);
      SleepKeeps(w.s, t);
      SleepTasks(w.s, t);
      ReceivingEmpty(w', t);
    } else {
      MailKeeps(w.s, Received(w.s, t));
      BusyRuns(w', t);
    }
    CodesKept(w, w');
    WaitersRetagged(w, w', t);
    forall r | r in w'.ctl ensures Blocked(w', r) {
      if r != t { BlockedKept(w, w', r); }
    }
  }

  lemma ReceivingEmpty(w: World, t: TaskId)
    requires t in w.s.tasks && t in w.ctl && w.ctl[t].Receiving? && w.s.tasks[t].msgs == []
    ensures Blocked(w, t)
  {
  }

  lemma WaitSound(w: World, x: TaskId)
    requires Sound(w) && Legal(w, WaitEvent(x))
    ensures Sound(Apply(w, WaitEvent(x)))
  {
    hide Inv, Sleep, Codes, Waiters, Blocked;
    CurIsTask(w.s);
    if x in w.s.finishTasks {
      CollectSound(w, x);
    } else {
      RegisterSound(w, x);
    }
  }

  lemma CollectSound(w: World, x: TaskId)
    requires Sound(w) && Legal(w, WaitEvent(x)) && x in w.s.finishTasks
    ensures Sound(Apply(w, WaitEvent(x)))
  {
    hide Inv, Sleep, Blocked, Waiters;
    var t := Cur(w.s);
    CurIsTask(w.s);
    var w' := Apply(w, WaitEvent(x));
    WaitersOf(w.s, w'.s);
    WaitersCollected(w, w', t, x);
    BusyRuns(w', t);
    forall r | r in w'.ctl && r != t ensures Blocked(w', r) {
      OtherCollected(w, w', r, x);
    }
  }

  lemma OtherCollected(w: World, w': World, r: TaskId, x: TaskId)
    requires r in w.s.tasks && r in w.ctl && r in w'.ctl && Blocked(w, r) && w.ctl[r] != Waiting(x)
    requires w'.s == w.s.(finishTasks := w.s.finishTasks - {x}) && w'.ctl[r] == w.ctl[r] && w'.exits == w.exits
    ensures Blocked(w', r)
  {
  }

  lemma RegisterSound(w: World, x: TaskId)
    requires Sound(w) && Legal(w, WaitEvent(x)) && x !in w.s.finishTasks
    ensures Sound(Apply(w, WaitEvent(x)))
  {
    hide Inv, Sleep, Blocked, Waiters, OtherRunnable;
    assert x !in w.exits;
    hide Codes;
    var t := Cur(w.s);
    CurIsTask(w.s);
    var w' := Apply(w, WaitEvent(x));
    var s1 := w.s.(finishWaiter := w.s.finishWaiter[x := t]);
    WaitersOf(w.s, s1);
    IdleRuns(w, t);
    SleepKeeps(s1, t) by { OtherRuns(w.s, s1, t); }
    SleepTasks(s1, t);
    CodesKept(w, w');
    WaitersRegistered(w, w', t, x);
    forall r | r in w'.ctl ensures Blocked(w', r) {
      if r == t { WaitingBlocked(w', t, x); } else { OtherRegistered(w, w', r, x); }
    }
  }

  lemma OtherRuns(s: Sched, s1: Sched, t: TaskId)
    requires OtherRunnable(s, t) && s1.tasks == s.tasks
    ensures OtherRunnable(s1, t)
  {
  }

  lemma WaitingBlocked(w: World, t: TaskId, x: TaskId)
    requires t in w.s.tasks && t in w.ctl && w.ctl[t] == Waiting(x) && x !in w.exits
    requires x in w.s.finishWaiter && w.s.finishWaiter[x] == t
    ensures Blocked(w, t)
  {
  }

  lemma OtherRegistered(w: World, w': World, r: TaskId, x: TaskId)
    requires r in w.s.tasks && r in w.ctl && r in w'.ctl && r in w'.s.tasks && Blocked(w, r) && w.ctl[r] != Waiting(x)
    requires w'.s.tasks[r] == w.s.tasks[r] && w'.ctl[r] == w.ctl[r]
    requires w'.exits == w.exits && w'.s.finishTasks == w.s.finishTasks
    requires forall y :: y != x ==> (y in w'.s.finishWaiter <==> y in w.s.finishWaiter)
    requires forall y :: y != x && y in w.s.finishWaiter ==> w'.s.finishWaiter[y] == w.s.finishWaiter[y]
    ensures Blocked(w', r)
  {
  }

  lemma FinishSound(w: World, code: int)
    requires Sound(w) && Legal(w, FinishEvent(code))
    ensures Sound(Apply(w, FinishEvent(code)))
  {
    hide Inv, Finish, Blocked, Codes, Waiters;
    var t := Cur(w.s);
    CurIsTask(w.s);
    IdleRuns(w, t);
    FinishKeeps(w.s, code);
    FinishTasks(w.s, code);
    var w' := Apply(w, FinishEvent(code));
    CodesFinished(w, w', t);
    WaitersFinished(w, w', t);
    WaiterIsOther(w, t);
    forall r | r in w'.ctl ensures Blocked(w', r) {
      OtherFinished(w, w', r, t);
    }
  }

  lemma WaiterIsOther(w: World, t: TaskId)
    requires Waiters(w) && t in w.ctl && w.ctl[t].Busy?
    ensures t in w.s.finishWaiter ==> w.s.finishWaiter[t] in w.ctl && w.s.finishWaiter[t] != t
  {
  }

  lemma OtherFinished(w: World, w': World, r: TaskId, t: TaskId)
    requires r in w.s.tasks && r in w.ctl && r in w'.ctl && r in w'.s.tasks
    requires Blocked(w, r) && w'.ctl[r] == w.ctl[r] && r != t
    requires t in w'.exits && w'.exits == w.exits[t := w'.exits[t]]
    requires w'.s.finishTasks == w.s.finishTasks[t := w'.exits[t]]
    requires w'.s.finishWaiter == w.s.finishWaiter - {t}
    requires w'.s.tasks[r].msgs == w.s.tasks[r].msgs
    requires w'.s.tasks[r].running == ((t in w.s.finishWaiter && r == w.s.finishWaiter[t]) || w.s.tasks[r].running)
    ensures Blocked(w', r)
  {
  }

  lemma FinishTasks(s: Sched, code: int)
    requires Inv(s) && OtherRunnable(s, s.Current())
    ensures var t := s.Current();
            var s' := Finish(s, code);
            && s'.latestId == s.latestId
            && s'.tasks.Keys == s.tasks.Keys - {t}
            && s'.finishTasks == s.finishTasks[t := code]
            && s'.finishWaiter == s.finishWaiter - {t}
            && (forall r :: r in s.tasks && r != t && (t !in s.finishWaiter || r != s.finishWaiter[t]) ==>
                 s'.tasks[r] == s.tasks[r])
            && (t in s.finishWaiter && s.finishWaiter[t] in s.tasks && s.finishWaiter[t] != t ==>
                  s'.tasks[s.finishWaiter[t]] == s.tasks[s.finishWaiter[t]].(running := true))
  {
    var t := s.Current();
    RotateTasks(s, true);
    LeaveKeeps(s);
    var s1 := Rotate(s, true);
    var s2 := s1.(tasks := s1.tasks - {t}, finishTasks := s1.finishTasks[t := code]);
    if t in s2.finishWaiter {
      var s3 := s2.(finishWaiter := s2.finishWaiter - {t});
      WaitersOf(s1.(tasks := s1.tasks - {t}), s3);
      if s2.finishWaiter[t] in s3.tasks {
        WakeupTasks(s3, s2.finishWaiter[t], -1);
      }
    }
  }

  lemma StepSound(w: World, e: Event)
    requires Sound(w) && Legal(w, e)
    ensures Sound(Apply(w, e))
  {
    hide Inv, Blocked, Codes, Waiters;
    match e
    case SwitchEvent => SwitchSound(w);
    case NewEvent => NewSound(w);
    case WakeEvent(r, level) => WakeSound(w, r, level);
    case SendEvent(r, m) => SendSound(w, r, m);
    case ReceiveEvent => ReceiveSound(w);
    case WaitEvent(x) => WaitSound(w, x);
    case FinishEvent(code) => FinishSound(w, code);
  }

  // ----- runs

  /** Each event of the run is legal where it happens. */
  ghost predicate LegalRun(w: World, es: seq<Event>)
    decreases |es|
  {
    es == [] || (Inv(w.s) && Legal(w, es[0]) && LegalRun(Apply(w, es[0]), es[1..]))
  }

  ghost function RunAll(w: World, es: seq<Event>): World
    requires LegalRun(w, es)
    decreases |es|
  {
    if es == [] then w else RunAll(Apply(w, es[0]), es[1..])
  }

  lemma {:induction false} RunSound(w: World, es: seq<Event>)
    requires Sound(w) && LegalRun(w, es)
    ensures Sound(RunAll(w, es))
    decreases |es|
  {
    hide Sound, Legal, Apply, Inv;
    if es != [] {
      StepSound(w, es[0]);
      RunSound(Apply(w, es[0]), es[1..]);
    }
  }

  // ----- what becomes of one task

  /** The task u that e wakes. */
  ghost predicate Wakes(w: World, e: Event, u: TaskId)
    requires Inv(w.s)
  {
    || (e.WakeEvent? && e.task == u) || (e.SendEvent? && e.task == u)
    || (e.FinishEvent? && Cur(w.s) in w.s.finishWaiter && w.s.finishWaiter[Cur(w.s)] == u)
  }

  /** e lets the current task u sleep: it has no mail, or what it waits for has not finished. */
  ghost predicate Blocks(w: World, e: Event, u: TaskId)
    requires Inv(w.s)
  {
    Cur(w.s) == u && ((e.ReceiveEvent? && w.s.Mail(u) == []) || (e.WaitEvent? && e.on !in w.s.finishTasks))
  }

  /** The message that u takes in e. */
  ghost function TakenIn(w: World, e: Event, u: TaskId): seq<Message>
    requires Inv(w.s)
  {
    if e.ReceiveEvent? && Cur(w.s) == u && w.s.Mail(u) != [] then [w.s.Mail(u)[0]] else []
  }

  function SentIn(e: Event, u: TaskId): seq<Message> {
    if e.SendEvent? && e.task == u then [e.msg] else []
  }

  /**
   * Everything that an event does to a task: only a wakeup that names a level changes its level; it starts or stops
   * running only as said above; mail is taken from the front of the mailbox and comes in at the end.
   */
  ghost predicate StepsTo(w: World, e: Event, s': Sched, u: TaskId)
    requires Inv(w.s)
  {
    && s'.Level(u) == (if e.WakeEvent? && e.task == u && e.level >= 0 then e.level else w.s.Level(u))
    && s'.Running(u) == (Wakes(w, e, u) || (w.s.Running(u) && !Blocks(w, e, u)))
    && TakenIn(w, e, u) + s'.Mail(u) == w.s.Mail(u) + SentIn(e, u)
  }

  lemma TaskStep(w: World, e: Event, u: TaskId)
    requires Sound(w) && Legal(w, e) && u in w.s.tasks && u in Apply(w, e).s.tasks
    ensures StepsTo(w, e, Apply(w, e).s, u)
  {
    hide Sound, Inv, StepsTo, Apply, Legal;
    match e
    case SwitchEvent => StartStep(w, e, u);
    case NewEvent => StartStep(w, e, u);
    case WakeEvent(r, level) => WakeStep(w, r, level, u);
    case SendEvent(r, m) => SendStep(w, r, m, u);
    case ReceiveEvent => ReceiveStep(w, u);
    case WaitEvent(x) => WaitStep(w, x, u);
    case FinishEvent(code) => FinishStep(w, code, u);
  }

  lemma StartStep(w: World, e: Event, u: TaskId)
    requires Sound(w) && Legal(w, e) && u in w.s.tasks && (e.SwitchEvent? || e.NewEvent?)
    ensures StepsTo(w, e, Apply(w, e).s, u)
  {
    hide Inv, Wakeup, Rotate, AllBlocked, Codes, Waiters;
    NewTaskKeeps(w.s);
    WakeupTasks(NewTask(w.s), w.s.latestId + 1, -1);
    RotateTasks(w.s, false);
  }

  lemma WakeStep(w: World, r: TaskId, level: int, u: TaskId)
    requires Sound(w) && Legal(w, WakeEvent(r, level)) && u in w.s.tasks
    ensures StepsTo(w, WakeEvent(r, level), Apply(w, WakeEvent(r, level)).s, u)
  {
    hide Inv, Wakeup, AllBlocked, Codes, Waiters;
    WakeupTasks(w.s, r, level);
  }

  lemma SendStep(w: World, r: TaskId, m: Message, u: TaskId)
    requires Sound(w) && u in w.s.tasks
    ensures StepsTo(w, SendEvent(r, m), Apply(w, SendEvent(r, m)).s, u)
  {
    hide Inv, Send, AllBlocked, Codes, Waiters;
    if r in w.s.tasks {
      SendTasks(w.s, r, m);
    } else {
      SendNobody(w.s, r, m);
    }
  }

  lemma ReceiveStep(w: World, u: TaskId)
    requires Sound(w) && Legal(w, ReceiveEvent) && u in w.s.tasks
    ensures StepsTo(w, ReceiveEvent, Apply(w, ReceiveEvent).s, u)
  {
    hide Inv, Sleep, StepsTo, AllBlocked, Codes, Waiters;
    CurIsTask(w.s);
    if w.s.Mail(Cur(w.s)) == [] {
      SleepTasks(w.s, Cur(w.s));
      NoMailStep(w, Sleep(w.s, Cur(w.s)), u);
    } else {
      MailStep(w, u);
    }
  }

  lemma NoMailStep(w: World, s': Sched, u: TaskId)
    requires Inv(w.s) && Cur(w.s) in w.s.tasks && u in w.s.tasks && w.s.Mail(Cur(w.s)) == []
    requires var t := Cur(w.s);
             && t in s'.tasks && s'.tasks[t] == Task(w.s.tasks[t].level, false, w.s.tasks[t].msgs)
             && s'.tasks.Keys == w.s.tasks.Keys && forall r :: r in w.s.tasks && r != t ==> s'.tasks[r] == w.s.tasks[r]
    ensures StepsTo(w, ReceiveEvent, s', u)
  {
    hide Inv;
  }

  lemma MailStep(w: World, u: TaskId)
    requires Inv(w.s) && Cur(w.s) in w.s.tasks && u in w.s.tasks && w.s.Mail(Cur(w.s)) != []
    ensures StepsTo(w, ReceiveEvent, Received(w.s, Cur(w.s)), u)
  {
    hide Inv;
    var q := w.s.Mail(u);
    assert q != [] ==> [q[0]] + q[1..] == q;
  }

  lemma WaitStep(w: World, x: TaskId, u: TaskId)
    requires Sound(w) && Legal(w, WaitEvent(x)) && u in w.s.tasks
    ensures StepsTo(w, WaitEvent(x), Apply(w, WaitEvent(x)).s, u)
  {
    hide Inv, Sleep, AllBlocked, Codes, Waiters;
    CurIsTask(w.s);
    if x !in w.s.finishTasks {
      var s1 := w.s.(finishWaiter := w.s.finishWaiter[x := Cur(w.s)]);
      WaitersOf(w.s, s1);
      SleepTasks(s1, Cur(w.s));
    }
  }

  lemma FinishStep(w: World, code: int, u: TaskId)
    requires Sound(w) && Legal(w, FinishEvent(code)) && u in w.s.tasks && u in Apply(w, FinishEvent(code)).s.tasks
    ensures StepsTo(w, FinishEvent(code), Apply(w, FinishEvent(code)).s, u)
  {
    hide Inv, Finish, Blocked, Codes, OtherRunnable;
    IdleRuns(w, Cur(w.s));
    FinishTasks(w.s, code);
    WaiterIsOther(w, Cur(w.s));
  }

  lemma SendNobody(s: Sched, r: TaskId, m: Message)
    requires Inv(s) && r !in s.tasks
    ensures Send(s, r, m) == s
  {
  }

  /** The processor is given away only by a timer switch, by a task that blocks, and by one that finishes. */
  lemma CurrentStays(w: World, e: Event)
    requires Sound(w) && Legal(w, e)
    requires !e.SwitchEvent? && !e.FinishEvent? && !Blocks(w, e, Cur(w.s))
    ensures Inv(Apply(w, e).s) && Cur(Apply(w, e).s) == Cur(w.s)
  {
    StepSound(w, e);
    hide Inv, Wakeup, Send, AllBlocked, Codes, Waiters;
    CurIsTask(w.s);
    match e
    case NewEvent =>
      NewTaskKeeps(w.s);
      WakeupCurrent(NewTask(w.s), w.s.latestId + 1, -1);
    case WakeEvent(r, level) => WakeupCurrent(w.s, r, level);
    case SendEvent(r, m) => SendCurrent(w.s, r, m);
    case ReceiveEvent =>
    case WaitEvent(x) =>
  }

  lemma SendCurrent(s: Sched, r: TaskId, m: Message)
    requires Inv(s)
    ensures Inv(Send(s, r, m)) && Send(s, r, m).Current() == s.Current()
  {
    hide Inv, Wakeup;
    SendKeeps(s, r, m);
    if r in s.tasks {
      var s1 := s.(tasks := s.tasks[r := s.tasks[r].(msgs := s.tasks[r].msgs + [m])]);
      MailKeeps(s, s1);
      CurIsTask(s);
      WakeupCurrent(s1, r, -1);
    }
  }

  /** A new task gets a number that no task had, runs at level 1, and has no mail. */
  lemma NewTaskRuns(w: World)
    requires Sound(w)
    ensures var s', id := Apply(w, NewEvent).s, w.s.latestId + 1;
            && id !in w.s.tasks && id !in w.exits
            && s'.Level(id) == 1 && s'.Running(id) && s'.Mail(id) == [] && s'.latestId == id
  {
    hide Inv, Wakeup, AllBlocked, Waiters;
    NewTaskKeeps(w.s);
    WakeupTasks(NewTask(w.s), w.s.latestId + 1, -1);
  }

  /** u is there throughout the run. */
  ghost predicate Lives(w: World, es: seq<Event>, u: TaskId)
    requires LegalRun(w, es)
    decreases |es|
  {
    u in w.s.tasks && (es == [] || Lives(Apply(w, es[0]), es[1..], u))
  }

  /** The messages that u has taken during the run, and those that have been sent to it. */
  ghost function Taken(w: World, es: seq<Event>, u: TaskId): seq<Message>
    requires LegalRun(w, es)
    decreases |es|
  {
    if es == [] then [] else TakenIn(w, es[0], u) + Taken(Apply(w, es[0]), es[1..], u)
  }

  function Sent(es: seq<Event>, u: TaskId): seq<Message> {
    if es == [] then [] else SentIn(es[0], u) + Sent(es[1..], u)
  }

  /** No message is lost, doubled or overtaken: what u has taken and what it has is what was sent to it, in order. */
  lemma {:induction false} MailInOrder(w: World, es: seq<Event>, u: TaskId)
    requires Sound(w) && LegalRun(w, es) && Lives(w, es, u)
    ensures Taken(w, es, u) + RunAll(w, es).s.Mail(u) == w.s.Mail(u) + Sent(es, u)
    decreases |es|
  {
    hide Sound, Legal, Apply, Inv, TakenIn, SentIn;
    if es != [] {
      StepSound(w, es[0]);
      var w1, rest := Apply(w, es[0]), es[1..];
      LivesOn(w1, rest, u);
      TaskStep(w, es[0], u);
      MailInOrder(w1, rest, u);
      var a, b, c, m := TakenIn(w, es[0], u), Taken(w1, rest, u), RunAll(w1, rest).s.Mail(u), w1.s.Mail(u);
      assert (a + b) + c == a + (b + c) == a + (m + Sent(rest, u)) == (a + m) + Sent(rest, u);
      assert (w.s.Mail(u) + SentIn(es[0], u)) + Sent(rest, u) == w.s.Mail(u) + (SentIn(es[0], u) + Sent(rest, u));
    }
  }

  lemma LivesOn(w: World, es: seq<Event>, u: TaskId)
    requires LegalRun(w, es) && Lives(w, es, u)
    ensures u in w.s.tasks
  {
  }

  /** Over any run, a task stays at its level until a wakeup names another one. */
  lemma {:induction false} LevelStays(w: World, es: seq<Event>, u: TaskId)
    requires Sound(w) && LegalRun(w, es) && Lives(w, es, u)
    requires forall k :: 0 <= k < |es| && es[k].WakeEvent? && es[k].task == u ==> es[k].level < 0
    ensures RunAll(w, es).s.Level(u) == w.s.Level(u)
    decreases |es|
  {
    hide Sound, Legal, Apply, Inv;
    if es != [] {
      StepSound(w, es[0]);
      LivesOn(Apply(w, es[0]), es[1..], u);
      TaskStep(w, es[0], u);
      LevelStays(Apply(w, es[0]), es[1..], u);
    }
  }

  /** The scheduler's invariant and the absence of lost wakeups, after any run from boot. */
  lemma NoLostWakeup(es: seq<Event>)
    requires LegalRun(Start(), es)
    ensures var w := RunAll(Start(), es);
            && Inv(w.s)
            && w.ctl.Keys == w.s.tasks.Keys
            && (forall t :: t in w.s.tasks && !w.s.tasks[t].running && w.ctl[t].Receiving? ==> w.s.tasks[t].msgs == [])
            && (forall t :: t in w.s.tasks && !w.s.tasks[t].running && w.ctl[t].Waiting? ==> w.ctl[t].on !in w.exits)
            && (forall t :: t in w.s.tasks && !w.s.tasks[t].running ==> !w.ctl[t].Busy?)
  {
    StartSound();
    RunSound(Start(), es);
    var w := RunAll(Start(), es);
    hide Inv, Codes, Waiters, Apply, Legal;
    forall t | t in w.s.tasks ensures Blocked(w, t) {
    }
  }

  /** WaitFinish returns the code that the task finished with, and returns it to one caller only. */
  lemma ExitCodeOnce(es: seq<Event>, x: TaskId)
    requires LegalRun(Start(), es)
    requires Inv(RunAll(Start(), es).s) && Legal(RunAll(Start(), es), WaitEvent(x))
    ensures var w := RunAll(Start(), es);
            var w' := Apply(w, WaitEvent(x));
            if x in w.exits then
              && x in w'.collected && w'.collected[x] == w.exits[x] && x !in w.collected && x !in w'.s.finishTasks
              && w'.ctl[Cur(w.s)].Busy? && Cur(w'.s) == Cur(w.s)
            else
              && w'.collected == w.collected && !w'.s.Running(Cur(w.s)) && w'.ctl[Cur(w.s)] == Waiting(x)
  {
    StartSound();
    RunSound(Start(), es);
    var w := RunAll(Start(), es);
    var w' := Apply(w, WaitEvent(x));
    CurIsTask(w.s);
    assert Codes(w);
    if x !in w.exits {
      assert x !in w.s.finishTasks;
      var s1 := w.s.(finishWaiter := w.s.finishWaiter[x := Cur(w.s)]);
      WaitersOf(w.s, s1);
      SleepTasks(s1, Cur(w.s));
    }
  }
}
