/**
 * The run queues of the multi-level scheduler (kernel/task.cpp) as values: what each critical section
 * does to them, and the invariant that all of them keep.
 */
module Scheduler {
  import opened Common

  type TaskId = nat

  const MAX_LEVEL: int := 3
  const DEFAULT_LEVEL: int := 1

  datatype Message = Message(kind: nat, payload: seq<nat>)

  datatype Task = Task(level: int, running: bool, msgs: seq<Message>)

  /** The fields of TaskManager; queues is running_, one queue of task ids per level. */
  datatype Sched = Sched(
    tasks: map<TaskId, Task>,
    latestId: TaskId,
    queues: seq<seq<TaskId>>,
    currentLevel: int,
    levelChanged: bool,
    finishTasks: map<TaskId, int>,
    finishWaiter: map<TaskId, TaskId>)
  {
    /** CurrentTask: the front of the current level's queue. */
    function Current(): TaskId
      requires 0 <= currentLevel < |queues| && queues[currentLevel] != []
    {
      queues[currentLevel][0]
    }

    function Level(t: TaskId): int { if t in tasks then tasks[t].level else 0 }
    predicate Running(t: TaskId) { t in tasks && tasks[t].running }
    function Mail(t: TaskId): seq<Message> { if t in tasks then tasks[t].msgs else [] }
  }

  // ----- the invariant

  predicate NoDuplicates(q: seq<TaskId>) {
    forall i, j :: 0 <= i < j < |q| ==> q[i] != q[j]
  }

  /** The queue of a level holds exactly the runnable tasks of that level, each once. */
  ghost predicate GoodQueue(tasks: map<TaskId, Task>, q: seq<TaskId>, level: int) {
    && NoDuplicates(q)
    && forall t: TaskId :: t in q <==> t in tasks && tasks[t].running && tasks[t].level == level
  }

  ghost predicate Queued(s: Sched) {
    && |s.queues| == MAX_LEVEL + 1
    && (forall l :: 0 <= l <= MAX_LEVEL ==> GoodQueue(s.tasks, s.queues[l], l))
    && (forall t :: t in s.tasks ==> 0 <= s.tasks[t].level <= MAX_LEVEL && t <= s.latestId)
  }

  /** There is a current task, and none of a higher level unless a rotation has been asked for. */
  ghost predicate Inv(s: Sched) {
    && Queued(s)
    && 0 <= s.currentLevel <= MAX_LEVEL && s.queues[s.currentLevel] != []
    && (s.levelChanged || TopLevel(s))
  }

  /** The current level is the highest one with a runnable task. */
  ghost predicate TopLevel(s: Sched)
    requires |s.queues| == MAX_LEVEL + 1 && 0 <= s.currentLevel
  {
    forall l :: s.currentLevel < l <= MAX_LEVEL ==> s.queues[l] == []
  }

  // ----- the critical sections

  /** Erase: the queue without a task. */
  function Without(q: seq<TaskId>, t: TaskId): seq<TaskId> {
    if q == [] then [] else if q[0] == t then Without(q[1..], t) else [q[0]] + Without(q[1..], t)
  }

  /** The highest level from l down that has a runnable task, or else the given one. */
  function Highest(queues: seq<seq<TaskId>>, l: int, otherwise: int): int
    requires l < |queues|
    decreases l
  {
    if l < 0 then otherwise else if queues[l] != [] then l else Highest(queues, l - 1, otherwise)
  }

  /** RotateCurrentRunQueue: the current task goes to the back of its queue, or leaves it to sleep. */
  function Rotate(s: Sched, currentSleep: bool): Sched
    requires |s.queues| == MAX_LEVEL + 1 && 0 <= s.currentLevel <= MAX_LEVEL && s.queues[s.currentLevel] != []
  {
    var q := s.queues[s.currentLevel];
    var q' := if currentSleep then q[1..] else q[1..] + [q[0]];
    var queues := s.queues[s.currentLevel := q'];
    if s.levelChanged || q' == [] then
      s.(queues := queues, levelChanged := false, currentLevel := Highest(queues, MAX_LEVEL, s.currentLevel))
    else
      s.(queues := queues)
  }

  function SetRunning(s: Sched, t: TaskId, running: bool): Sched
    requires t in s.tasks
  {
    s.(tasks := s.tasks[t := s.tasks[t].(running := running)])
  }

  function Sleep(s: Sched, t: TaskId): Sched
    requires t in s.tasks && 0 <= s.tasks[t].level <= MAX_LEVEL
    requires |s.queues| == MAX_LEVEL + 1 && 0 <= s.currentLevel <= MAX_LEVEL && s.queues[s.currentLevel] != []
  {
    if !s.tasks[t].running then s
    else
      var s1 := SetRunning(s, t, false);
      var l := s.tasks[t].level;
      if t == s.Current() then Rotate(s1, true) else s1.(queues := s1.queues[l := Without(s1.queues[l], t)])
  }

  function ChangeLevelRunning(s: Sched, t: TaskId, level: int): Sched
    requires t in s.tasks && 0 <= s.tasks[t].level <= MAX_LEVEL && level <= MAX_LEVEL
    requires |s.queues| == MAX_LEVEL + 1 && 0 <= s.currentLevel <= MAX_LEVEL && s.queues[s.currentLevel] != []
  {
    var from := s.tasks[t].level;
    if level < 0 || level == from then s
    else if t != s.Current() then
      var queues := s.queues[from := Without(s.queues[from], t)];
      s.(queues := queues[level := queues[level] + [t]],
         tasks := s.tasks[t := s.tasks[t].(level := level)],
         levelChanged := s.levelChanged || level > s.currentLevel)
    else
      var queues := s.queues[s.currentLevel := s.queues[s.currentLevel][1..]];
      s.(queues := queues[level := [t] + queues[level]],
         tasks := s.tasks[t := s.tasks[t].(level := level)],
         currentLevel := level,
         levelChanged := s.levelChanged || level < s.currentLevel)
  }

  /** Wakeup with a level, or with a negative one for the task's own. */
  function Wakeup(s: Sched, t: TaskId, level: int): Sched
    requires t in s.tasks && 0 <= s.tasks[t].level <= MAX_LEVEL && level <= MAX_LEVEL
    requires |s.queues| == MAX_LEVEL + 1 && 0 <= s.currentLevel <= MAX_LEVEL && s.queues[s.currentLevel] != []
  {
    if s.tasks[t].running then ChangeLevelRunning(s, t, level)
    else
      var l := if level < 0 then s.tasks[t].level else level;
      s.(tasks := s.tasks[t := s.tasks[t].(level := l, running := true)],
         queues := s.queues[l := s.queues[l] + [t]],
         levelChanged := s.levelChanged || l > s.currentLevel)
  }

  function NewTask(s: Sched): Sched {
    s.(latestId := s.latestId + 1, tasks := s.tasks[s.latestId + 1 := Task(DEFAULT_LEVEL, false, [])])
  }

  /** SendMessage by id: the message is queued and the task woken; an unknown id changes nothing. */
  function Send(s: Sched, t: TaskId, m: Message): Sched
    requires Inv(s)
  {
    if t !in s.tasks then s
    else
      var s1 := s.(tasks := s.tasks[t := s.tasks[t].(msgs := s.tasks[t].msgs + [m])]);
      Wakeup(s1, t, -1)
  }

  /** What the constructor leaves: the main task on the highest level, the idle task on the lowest. */
  function Initial(): Sched {
    Sched(map[1 := Task(MAX_LEVEL, true, []), 2 := Task(0, true, [])], 2, [[2], [], [], [1]], MAX_LEVEL, false,
      map[], map[])
  }

  // ----- each of them keeps the invariant

  lemma CurrentIsTask(s: Sched)
    requires Inv(s)
    ensures |s.queues| == MAX_LEVEL + 1 && 0 <= s.currentLevel <= MAX_LEVEL && s.queues[s.currentLevel] != []
    ensures var t := s.Current();
            t in s.tasks && s.tasks[t].running && s.tasks[t].level == s.currentLevel && t <= s.latestId
  {
    assert GoodQueue(s.tasks, s.queues[s.currentLevel], s.currentLevel);
    assert s.Current() in s.queues[s.currentLevel];
  }

  lemma {:induction false} WithoutMember(q: seq<TaskId>, t: TaskId)
    ensures forall x: TaskId :: x in Without(q, t) <==> x in q && x != t
  {
    if q != [] {
      WithoutMember(q[1..], t);
      assert q == [q[0]] + q[1..];
    }
  }

  lemma {:induction false} WithoutNoDuplicates(q: seq<TaskId>, t: TaskId)
    requires NoDuplicates(q)
    ensures NoDuplicates(Without(q, t))
    ensures q != [] && q[0] != t ==> Without(q, t) != [] && Without(q, t)[0] == q[0]
  {
    if q != [] {
      assert NoDuplicates(q[1..]);
      WithoutNoDuplicates(q[1..], t);
      WithoutMember(q[1..], t);
      assert q[0] !in q[1..];
    }
  }

  /** Highest finds a non-empty level with nothing above it, if there is a non-empty level at all. */
  lemma {:induction false} HighestIsTop(queues: seq<seq<TaskId>>, l: int, otherwise: int)
    requires l < |queues|
    ensures var h := Highest(queues, l, otherwise);
            || (0 <= h <= l && queues[h] != [] && forall k :: h < k <= l ==> queues[k] == [])
            || (h == otherwise && forall k :: 0 <= k <= l ==> queues[k] == [])
    decreases l
  {
    if l >= 0 && queues[l] == [] {
      HighestIsTop(queues, l - 1, otherwise);
    }
  }

  /** At boot the main task, 1, runs at the highest level, and the idle task, 2, waits at the lowest. */
  lemma InitialTasks()
    ensures Inv(Initial())
    ensures var s := Initial();
            && s.Current() == 1 && s.Level(1) == 3 && s.Level(2) == 0 && !s.levelChanged
            && (forall t :: t in s.tasks <==> t == 1 || t == 2)
            && (forall t :: t in s.tasks ==> s.Running(t) && s.Mail(t) == [])
  {
    InitialInv();
  }

  lemma InitialInv()
    ensures Inv(Initial())
  {
    var s := Initial();
    assert s.queues[0] == [2] && s.queues[3] == [1] && s.queues[1] == [] && s.queues[2] == [];
    forall l | 0 <= l <= MAX_LEVEL ensures GoodQueue(s.tasks, s.queues[l], l) {
    }
  }

  /** Rotating to the back keeps a queue's members. */
  lemma RotatedQueue(tasks: map<TaskId, Task>, q: seq<TaskId>, level: int)
    requires GoodQueue(tasks, q, level) && q != []
    ensures GoodQueue(tasks, q[1..] + [q[0]], level)
  {
    var q' := q[1..] + [q[0]];
    assert q == [q[0]] + q[1..];
    forall t: TaskId ensures t in q' <==> t in q {
    }
  }

  /** After a rotation the deferred choice has been made: the current task has maximal priority. */
  lemma RotateChooses(s: Sched, currentSleep: bool)
    requires |s.queues| == MAX_LEVEL + 1 && 0 <= s.currentLevel <= MAX_LEVEL && s.queues[s.currentLevel] != []
    requires s.levelChanged || TopLevel(s)
    requires currentSleep ==>
              exists l :: 0 <= l <= MAX_LEVEL && s.queues[l] != [] && (l != s.currentLevel || |s.queues[l]| > 1)
    ensures var s' := Rotate(s, currentSleep);
            && |s'.queues| == MAX_LEVEL + 1 && !s'.levelChanged
            && 0 <= s'.currentLevel <= MAX_LEVEL && s'.queues[s'.currentLevel] != [] && TopLevel(s')
  {
    hide GoodQueue;
    var q := s.queues[s.currentLevel];
    var q' := if currentSleep then q[1..] else q[1..] + [q[0]];
    var queues := s.queues[s.currentLevel := q'];
    HighestIsTop(queues, MAX_LEVEL, s.currentLevel);
    if currentSleep {
      var l :| 0 <= l <= MAX_LEVEL && s.queues[l] != [] && (l != s.currentLevel || |s.queues[l]| > 1);
      assert queues[l] != [];
    } else {
      assert queues[s.currentLevel] != [];
    }
  }

  lemma SwitchKeeps(s: Sched)
    requires Inv(s)
    ensures Inv(Rotate(s, false)) && TopLevel(Rotate(s, false)) && !Rotate(s, false).levelChanged
  {
    RotateChooses(s, false);
    RotatedQueue(s.tasks, s.queues[s.currentLevel], s.currentLevel);
  }

  /** A task that stops running leaves its level's queue and concerns no other. */
  lemma StopQueues(tasks: map<TaskId, Task>, q: seq<TaskId>, l: int, t: TaskId)
    requires GoodQueue(tasks, q, l) && t in tasks && tasks[t].running
    ensures var tasks' := tasks[t := tasks[t].(running := false)];
            if l == tasks[t].level then GoodQueue(tasks', Without(q, t), l) else GoodQueue(tasks', q, l)
  {
    WithoutMember(q, t);
    WithoutNoDuplicates(q, t);
  }

  /** Without the front element, a queue is its tail. */
  lemma WithoutFront(q: seq<TaskId>)
    requires NoDuplicates(q) && q != []
    ensures Without(q, q[0]) == q[1..]
  {
    assert q[0] !in q[1..];
    WithoutAbsent(q[1..], q[0]);
  }

  lemma {:induction false} WithoutAbsent(q: seq<TaskId>, t: TaskId)
    requires t !in q
    ensures Without(q, t) == q
  {
    if q != [] {
      WithoutAbsent(q[1..], t);
    }
  }

  /** A task other than the idle one that is put to sleep leaves somebody to run. */
  ghost predicate OtherRunnable(s: Sched, t: TaskId) {
    exists r :: r != t && r in s.tasks && s.tasks[r].running
  }

  lemma SleepKeeps(s: Sched, t: TaskId)
    requires Inv(s) && t in s.tasks && OtherRunnable(s, t)
    ensures Inv(Sleep(s, t))
    ensures t == s.Current() ==> TopLevel(Sleep(s, t)) && !Sleep(s, t).levelChanged
    ensures !Sleep(s, t).Running(t) && Sleep(s, t).Level(t) == s.Level(t)
  {
    hide GoodQueue, Without, TopLevel;
    if s.tasks[t].running {
      if t == s.Current() {
        SleepCurrentKeeps(s, t);
      } else {
        SleepOtherKeeps(s, t);
      }
    } else {
      SleepAsleep(s, t);
    }
  }

  lemma SleepAsleep(s: Sched, t: TaskId)
    requires Inv(s) && t in s.tasks && !s.tasks[t].running
    ensures Sleep(s, t) == s && t != s.Current()
  {
    assert GoodQueue(s.tasks, s.queues[s.currentLevel], s.currentLevel);
  }

  lemma SleepCurrentKeeps(s: Sched, t: TaskId)
    requires Inv(s) && t in s.tasks && OtherRunnable(s, t) && s.tasks[t].running && t == s.Current()
    ensures Inv(Sleep(s, t)) && TopLevel(Sleep(s, t)) && !Sleep(s, t).levelChanged && !Sleep(s, t).Running(t)
  {
    var l := s.tasks[t].level;
    var queues := s.queues[l := Without(s.queues[l], t)];
    SleepQueues(s, t, queues);
    assert GoodQueue(s.tasks, s.queues[s.currentLevel], s.currentLevel);
    WithoutFront(s.queues[l]);
    SomebodyElse(s, t);
    hide GoodQueue;
    RotateChooses(SetRunning(s, t, false), true);
  }

  lemma SleepOtherKeeps(s: Sched, t: TaskId)
    requires Inv(s) && t in s.tasks && s.tasks[t].running && t != s.Current()
    ensures Inv(Sleep(s, t)) && !Sleep(s, t).Running(t)
  {
    var l := s.tasks[t].level;
    var queues := s.queues[l := Without(s.queues[l], t)];
    SleepQueues(s, t, queues);
    assert GoodQueue(s.tasks, s.queues[s.currentLevel], s.currentLevel);
    WithoutNoDuplicates(s.queues[l], t);
    hide GoodQueue;
  }

  lemma SleepQueues(s: Sched, t: TaskId, queues: seq<seq<TaskId>>)
    requires Inv(s) && t in s.tasks && s.tasks[t].running
    requires var l := s.tasks[t].level; queues == s.queues[l := Without(s.queues[l], t)]
    ensures |queues| == MAX_LEVEL + 1
    ensures forall k :: 0 <= k <= MAX_LEVEL ==> GoodQueue(SetRunning(s, t, false).tasks, queues[k], k)
  {
    hide GoodQueue, Without;
    forall k | 0 <= k <= MAX_LEVEL ensures GoodQueue(SetRunning(s, t, false).tasks, queues[k], k) {
      StopQueues(s.tasks, s.queues[k], k, t);
    }
  }

  lemma SomebodyElse(s: Sched, t: TaskId)
    requires Queued(s) && OtherRunnable(s, t) && t in s.tasks && s.tasks[t].running
    ensures exists l :: 0 <= l <= MAX_LEVEL && s.queues[l] != [] && (l != s.tasks[t].level || |s.queues[l]| > 1)
  {
    var r :| r != t && r in s.tasks && s.tasks[r].running;
    var l := s.tasks[r].level;
    assert GoodQueue(s.tasks, s.queues[l], l);
    assert r in s.queues[l];
    if l == s.tasks[t].level {
      assert t in s.queues[l];
    }
  }

  /** A task that starts to run, or to run at a level, joins that level's queue and concerns no other. */
  lemma StartQueues(tasks: map<TaskId, Task>, q: seq<TaskId>, l: int, t: TaskId, level: int)
    requires GoodQueue(tasks, q, l) && t in tasks && !tasks[t].running
    ensures var tasks' := tasks[t := tasks[t].(running := true, level := level)];
            if l == level then GoodQueue(tasks', q + [t], l) && GoodQueue(tasks', [t] + q, l)
            else GoodQueue(tasks', q, l)
  {
  }

  /** Only levels and running flags matter to the queues. */
  lemma SameQueues(tasks: map<TaskId, Task>, tasks': map<TaskId, Task>, q: seq<TaskId>, l: int)
    requires GoodQueue(tasks, q, l) && tasks'.Keys == tasks.Keys
    requires forall t :: t in tasks ==> tasks'[t].level == tasks[t].level && tasks'[t].running == tasks[t].running
    ensures GoodQueue(tasks', q, l)
  {
  }

  lemma WakeupKeeps(s: Sched, t: TaskId, level: int)
    requires Inv(s) && t in s.tasks && level <= MAX_LEVEL
    ensures Inv(Wakeup(s, t, level)) && Wakeup(s, t, level).Running(t)
    ensures Wakeup(s, t, level).Level(t) == if level >= 0 then level else s.Level(t)
  {
    if s.tasks[t].running {
      ChangeLevelKeeps(s, t, level);
    } else {
      var l := if level < 0 then s.tasks[t].level else level;
      var s' := Wakeup(s, t, level);
      forall k | 0 <= k <= MAX_LEVEL ensures GoodQueue(s'.tasks, s'.queues[k], k) {
        StartQueues(s.tasks, s.queues[k], k, t, l);
      }
      hide GoodQueue;
    }
  }

  lemma ChangeLevelKeeps(s: Sched, t: TaskId, level: int)
    requires Inv(s) && t in s.tasks && s.tasks[t].running && level <= MAX_LEVEL
    ensures Inv(ChangeLevelRunning(s, t, level)) && ChangeLevelRunning(s, t, level).Running(t)
    ensures ChangeLevelRunning(s, t, level).Level(t) == if level >= 0 then level else s.Level(t)
    ensures t == s.Current() ==> ChangeLevelRunning(s, t, level).Current() == t
  {
    var from := s.tasks[t].level;
    if level >= 0 && level != from {
      assert GoodQueue(s.tasks, s.queues[s.currentLevel], s.currentLevel);
      assert GoodQueue(s.tasks, s.queues[from], from);
      if t == s.Current() {
        WithoutFront(s.queues[from]);
      } else {
        WithoutNoDuplicates(s.queues[from], t);
      }
      ChangeLevelQueues(s, t, level);
      hide GoodQueue, Without;
    }
  }

  lemma ChangeLevelQueues(s: Sched, t: TaskId, level: int)
    requires Inv(s) && t in s.tasks && s.tasks[t].running && 0 <= level <= MAX_LEVEL && level != s.tasks[t].level
    requires var from := s.tasks[t].level;
             t == s.Current() ==>
               && s.currentLevel == from && s.queues[from] != [] && s.queues[from][0] == t
               && Without(s.queues[from], t) == s.queues[from][1..]
    ensures var s' := ChangeLevelRunning(s, t, level);
            && |s'.queues| == MAX_LEVEL + 1
            && forall k :: 0 <= k <= MAX_LEVEL ==> GoodQueue(s'.tasks, s'.queues[k], k)
  {
    hide GoodQueue, Without;
    var from := s.tasks[t].level;
    var stopped := s.tasks[t := s.tasks[t].(running := false)];
    var s' := ChangeLevelRunning(s, t, level);
    assert s'.tasks == stopped[t := stopped[t].(running := true, level := level)];
    forall k | 0 <= k <= MAX_LEVEL ensures GoodQueue(s'.tasks, s'.queues[k], k) {
      StopQueues(s.tasks, s.queues[k], k, t);
      StartQueues(stopped, if k == from then Without(s.queues[k], t) else s.queues[k], k, t, level);
    }
  }

  // ----- the other tasks keep their order

  /** In every queue, the tasks other than t are in the same order as before. */
  ghost predicate OthersInOrder(s: Sched, s': Sched, t: TaskId) {
    && |s.queues| == |s'.queues| == MAX_LEVEL + 1
    && forall k :: 0 <= k <= MAX_LEVEL ==> Without(s'.queues[k], t) == Without(s.queues[k], t)
  }

  lemma {:induction false} WithoutBack(q: seq<TaskId>, t: TaskId)
    ensures Without(q + [t], t) == Without(q, t)
  {
    if q == [] {
      assert q + [t] == [t];
    } else {
      assert (q + [t])[1..] == q[1..] + [t];
      WithoutBack(q[1..], t);
    }
  }

  lemma {:induction false} WithoutTwice(q: seq<TaskId>, t: TaskId)
    ensures Without(Without(q, t), t) == Without(q, t)
  {
    if q != [] {
      WithoutTwice(q[1..], t);
      if q[0] != t {
        assert ([q[0]] + Without(q[1..], t))[1..] == Without(q[1..], t);
      }
    }
  }

  lemma WithoutHead(q: seq<TaskId>, t: TaskId)
    ensures Without([t] + q, t) == Without(q, t)
  {
    assert ([t] + q)[1..] == q;
  }

  /** A task that is woken, or moved without being the current one, joins the end of a queue; nobody else is moved. */
  lemma WakeupOrder(s: Sched, t: TaskId, level: int)
    requires Inv(s) && t in s.tasks && level <= MAX_LEVEL
    ensures OthersInOrder(s, Wakeup(s, t, level), t)
    ensures var s' := Wakeup(s, t, level);
            !s.Running(t) || (t != s.Current() && level >= 0 && level != s.Level(t)) ==>
              0 <= s'.Level(t) <= MAX_LEVEL && var q := s'.queues[s'.Level(t)]; q != [] && q[|q| - 1] == t
  {
    hide GoodQueue, Without;
    var s' := Wakeup(s, t, level);
    forall k | 0 <= k <= MAX_LEVEL ensures Without(s'.queues[k], t) == Without(s.queues[k], t) {
      var q := s.queues[k];
      WithoutBack(q, t);
      WithoutTwice(q, t);
      WithoutBack(Without(q, t), t);
      WithoutHead(q, t);
      if q != [] && q[0] == t {
        WithoutHead(q[1..], t);
        assert [t] + q[1..] == q;
      }
      CurrentIsFront(s);
    }
  }

  /** A task that is awake and not moved to another level stays where it is, and nothing else changes either. */
  lemma WakeupAwake(s: Sched, t: TaskId, level: int)
    requires Inv(s) && s.Running(t) && (level < 0 || level == s.Level(t))
    ensures Wakeup(s, t, level) == s
  {
  }

  /** Who runs is not changed by waking or moving any task; only a rotation asks for that. */
  lemma WakeupCurrent(s: Sched, t: TaskId, level: int)
    requires Inv(s) && t in s.tasks && level <= MAX_LEVEL
    ensures Inv(Wakeup(s, t, level)) && Wakeup(s, t, level).Current() == s.Current()
    ensures Wakeup(s, t, level).currentLevel == Wakeup(s, t, level).Level(s.Current())
  {
    hide GoodQueue, Without;
    WakeupKeeps(s, t, level);
    CurrentIsFront(s);
    CurrentIsFront(Wakeup(s, t, level));
    if s.Running(t) && t != s.Current() {
      WithoutFirst(s.queues[s.currentLevel], t);
    }
  }

  lemma WithoutFirst(q: seq<TaskId>, t: TaskId)
    requires q != [] && q[0] != t
    ensures Without(q, t) != [] && Without(q, t)[0] == q[0]
  {
  }

  /** Nor by putting another task to sleep. */
  lemma SleepCurrent(s: Sched, t: TaskId)
    requires Inv(s) && t in s.tasks && t != s.Current()
    ensures Sleep(s, t).currentLevel == s.currentLevel && Sleep(s, t).queues[s.currentLevel] != []
    ensures Sleep(s, t).Current() == s.Current() && Sleep(s, t).levelChanged == s.levelChanged
  {
    hide Without;
    WithoutFirst(s.queues[s.currentLevel], t);
  }

  /** A rotation puts the current task at the end of its queue, or takes it out; nobody else is moved. */
  lemma RotateOrder(s: Sched, currentSleep: bool)
    requires Inv(s)
    ensures OthersInOrder(s, Rotate(s, currentSleep), s.Current())
    ensures var q := Rotate(s, currentSleep).queues[s.currentLevel];
            if currentSleep then s.Current() !in q else q != [] && q[|q| - 1] == s.Current()
  {
    assert GoodQueue(s.tasks, s.queues[s.currentLevel], s.currentLevel);
    hide GoodQueue, Without, Highest;
    var t, q, s' := s.Current(), s.queues[s.currentLevel], Rotate(s, currentSleep);
    assert q == [t] + q[1..];
    WithoutHead(q[1..], t);
    WithoutBack(q[1..], t);
    assert t !in q[1..];
  }

  lemma CurrentIsFront(s: Sched)
    requires Inv(s)
    ensures s.Current() in s.tasks && s.Level(s.Current()) == s.currentLevel
    ensures s.queues[s.currentLevel][0] == s.Current()
  {
    assert GoodQueue(s.tasks, s.queues[s.currentLevel], s.currentLevel);
  }

  /** A task that goes to sleep leaves its queue; nobody else is moved. */
  lemma SleepOrder(s: Sched, t: TaskId)
    requires Inv(s) && t in s.tasks
    ensures OthersInOrder(s, Sleep(s, t), t)
  {
    hide GoodQueue, Without;
    CurrentIsFront(s);
    var s' := Sleep(s, t);
    forall k | 0 <= k <= MAX_LEVEL ensures Without(s'.queues[k], t) == Without(s.queues[k], t) {
      var q := s.queues[k];
      WithoutTwice(q, t);
      if q != [] && q[0] == t {
        WithoutHead(q[1..], t);
        assert [t] + q[1..] == q;
      }
    }
  }

  lemma SendKeeps(s: Sched, t: TaskId, m: Message)
    requires Inv(s)
    ensures Inv(Send(s, t, m))
    ensures t in s.tasks ==> Send(s, t, m).Running(t) && Send(s, t, m).Mail(t) == s.Mail(t) + [m]
    ensures Send(s, t, m).Level(t) == s.Level(t)
  {
    if t in s.tasks {
      var s1 := s.(tasks := s.tasks[t := s.tasks[t].(msgs := s.tasks[t].msgs + [m])]);
      MailKeeps(s, s1);
      WakeupKeeps(s1, t, -1);
    }
  }

  /** Mailboxes do not matter to the run queues. */
  lemma MailKeeps(s: Sched, s1: Sched)
    requires Inv(s) && s1 == s.(tasks := s1.tasks) && s1.tasks.Keys == s.tasks.Keys
    requires forall t :: t in s.tasks ==>
              s1.tasks[t].level == s.tasks[t].level && s1.tasks[t].running == s.tasks[t].running
    ensures Inv(s1)
  {
    forall k | 0 <= k <= MAX_LEVEL ensures GoodQueue(s1.tasks, s1.queues[k], k) {
      SameQueues(s.tasks, s1.tasks, s.queues[k], k);
    }
    hide GoodQueue;
  }

  lemma NewTaskKeeps(s: Sched)
    requires Inv(s)
    ensures Inv(NewTask(s)) && s.latestId + 1 !in s.tasks
  {
    var s' := NewTask(s);
    forall k | 0 <= k <= MAX_LEVEL ensures GoodQueue(s'.tasks, s'.queues[k], k) {
      assert GoodQueue(s.tasks, s.queues[k], k);
    }
    hide GoodQueue;
  }

  /** Finish: the current task leaves its queue for good, its exit code is kept, and its waiter is woken. */
  function Finish(s: Sched, exitCode: int): Sched
    requires Inv(s)
  {
    var t := s.Current();
    var s1 := Rotate(s, true);
    var s2 := s1.(tasks := s1.tasks - {t}, finishTasks := s1.finishTasks[t := exitCode]);
    if t in s2.finishWaiter then
      var waiter := s2.finishWaiter[t];
      var s3 := s2.(finishWaiter := s2.finishWaiter - {t});
      if waiter in s3.tasks && 0 <= s3.tasks[waiter].level <= MAX_LEVEL && s3.queues[s3.currentLevel] != []
      then Wakeup(s3, waiter, -1) else s3
    else s2
  }

  lemma LeaveKeeps(s: Sched)
    requires Inv(s) && OtherRunnable(s, s.Current())
    ensures var t := s.Current();
            var s1 := Rotate(s, true);
            Inv(s1.(tasks := s1.tasks - {t})) && TopLevel(s1) && !s1.levelChanged
  {
    var t := s.Current();
    var l := s.currentLevel;
    var tasks := s.tasks - {t};
    assert GoodQueue(s.tasks, s.queues[l], l);
    var queues := s.queues[l := s.queues[l][1..]];
    forall k | 0 <= k <= MAX_LEVEL ensures GoodQueue(tasks, queues[k], k) {
      assert GoodQueue(s.tasks, s.queues[k], k);
      if k == l {
        assert s.queues[l] == [t] + s.queues[l][1..];
      }
    }
    SomebodyElse(s, t);
    hide GoodQueue;
    RotateChooses(s, true);
  }

  lemma FinishKeeps(s: Sched, exitCode: int)
    requires Inv(s) && OtherRunnable(s, s.Current())
    ensures Inv(Finish(s, exitCode))
  {
    hide GoodQueue;
    LeaveKeeps(s);
    var t := s.Current();
    var s1 := Rotate(s, true);
    var s2 := s1.(tasks := s1.tasks - {t}, finishTasks := s1.finishTasks[t := exitCode]);
    assert Inv(s2);
    if t in s2.finishWaiter {
      var s3 := s2.(finishWaiter := s2.finishWaiter - {t});
      assert Inv(s3);
      if s2.finishWaiter[t] in s3.tasks {
        WakeupKeeps(s3, s2.finishWaiter[t], -1);
      }
    }
  }

  /** Only the finished task leaves, and only its waiter is woken: all others keep their order. */
  lemma FinishOrder(s: Sched, exitCode: int, w: TaskId, k: int)
    requires Inv(s) && OtherRunnable(s, s.Current()) && 0 <= k <= MAX_LEVEL
    requires s.Current() in s.finishWaiter ==> w == s.finishWaiter[s.Current()]
    ensures var t := s.Current();
            && |Finish(s, exitCode).queues| == MAX_LEVEL + 1
            && Without(Without(Finish(s, exitCode).queues[k], t), w) == Without(Without(s.queues[k], t), w)
  {
    hide GoodQueue, Without, Wakeup, Highest;
    RotateOrder(s, true);
    LeaveKeeps(s);
    var t, s1 := s.Current(), Rotate(s, true);
    var s2 := s1.(tasks := s1.tasks - {t}, finishTasks := s1.finishTasks[t := exitCode]);
    assert Inv(s2);
    if t in s2.finishWaiter {
      var s3 := s2.(finishWaiter := s2.finishWaiter - {t});
      assert Inv(s3);
      if w in s3.tasks {
        WakeupOrder(s3, w, -1);
        var s4 := Wakeup(s3, w, -1);
        assert Finish(s, exitCode) == s4 && Without(s4.queues[k], w) == Without(s3.queues[k], w);
        WithoutBoth(s4.queues[k], t, w);
        WithoutBoth(s1.queues[k], t, w);
      }
    }
  }

  lemma {:induction false} WithoutBoth(q: seq<TaskId>, t: TaskId, w: TaskId)
    ensures Without(Without(q, t), w) == Without(Without(q, w), t)
  {
    if q != [] {
      WithoutBoth(q[1..], t, w);
      WithoutHeads(q[0], Without(q[1..], t), w);
      WithoutHeads(q[0], Without(q[1..], w), t);
    }
  }

  lemma WithoutHeads(x: TaskId, q: seq<TaskId>, t: TaskId)
    ensures Without([x] + q, t) == if x == t then Without(q, t) else [x] + Without(q, t)
  {
    assert ([x] + q)[1..] == q;
  }

  // ----- round robin

  /** k timer switches in a row. */
  function Switches(s: Sched, k: nat): Sched
    requires Inv(s)
    decreases k
  {
    if k == 0 then s else (SwitchKeeps(s); Switches(Rotate(s, false), k - 1))
  }

  /** Tasks of the top level run in the cyclic order of their queue; in particular each one's turn comes. */
  lemma {:induction false} RoundRobin(s: Sched, k: nat)
    decreases k
    requires Inv(s) && !s.levelChanged
    ensures var s' := Switches(s, k);
            && Inv(s') && s'.currentLevel == s.currentLevel && s'.tasks == s.tasks
            && s'.Current() == s.queues[s.currentLevel][k % |s.queues[s.currentLevel]|]
  {
    if k > 0 {
      var q := s.queues[s.currentLevel];
      var q1 := q[1..] + [q[0]];
      SwitchKeeps(s);
      assert Rotate(s, false).queues[s.currentLevel] == q1;
      RoundRobin(Rotate(s, false), k - 1);
      NextTurn(k, |q|);
      assert q1[(k - 1) % |q|] == q[k % |q|];
    }
  }

  lemma NextTurn(k: nat, n: nat)
    requires k > 0 && n > 0
    ensures k % n == if (k - 1) % n + 1 == n then 0 else (k - 1) % n + 1
  {
    var i, j := (k - 1) / n, (k - 1) % n;
    assert k == i * n + (j + 1);
    if j + 1 == n {
      assert k == (i + 1) * n + 0;
      ModIs(k, n, i + 1, 0);
    } else {
      ModIs(k, n, i, j + 1);
    }
  }

  lemma {:induction false} AtLeast(a: nat, n: nat)
    requires a > 0
    ensures a * n >= n
  {
    if a > 1 {
      AtLeast(a - 1, n);
      assert a * n == (a - 1) * n + n;
    }
  }

  lemma ModIs(k: nat, n: nat, i: nat, r: nat)
    requires n > 0 && k == i * n + r && r < n
    ensures k % n == r
  {
    var d, m := k / n, k % n;
    assert d * n + m == i * n + r;
    if d < i {
      AtLeast(i - d, n);
    } else if d > i {
      AtLeast(d - i, n);
    }
  }

  /** From the back of the queue to the processor takes no longer than one round. */
  lemma TurnComes(s: Sched, t: TaskId)
    requires Inv(s) && !s.levelChanged && t in s.tasks && s.tasks[t].running && s.tasks[t].level == s.currentLevel
    ensures exists k :: 0 <= k < |s.queues[s.currentLevel]| && Inv(Switches(s, k)) && Switches(s, k).Current() == t
  {
    var q := s.queues[s.currentLevel];
    assert GoodQueue(s.tasks, q, s.currentLevel);
    var k :| 0 <= k < |q| && q[k] == t;
    RoundRobin(s, k);
    ModIs(k, |q|, 0, k);
    assert Inv(Switches(s, k));
  }
}
