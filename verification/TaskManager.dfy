/** The TaskManager class of kernel/task.cpp: its methods do what Scheduler says. */
module TaskManager {
  import opened Common
  import opened Scheduler

  /** std::remove followed by erase. */
  method Erase(c: seq<TaskId>, value: TaskId) returns (r: seq<TaskId>)
    ensures r == Without(c, value)
  {
    r := [];
    var i := 0;
    while i < |c|
      invariant 0 <= i <= |c|
      invariant r + Without(c[i..], value) == Without(c, value)
    {
      if c[i] != value {
        r := r + [c[i]];
      }
      i := i + 1;
    }
  }

  class TaskManager {
    var tasks: map<TaskId, Task>
    var latestId: TaskId
    /** running_: one queue per level. */
    var running: seq<seq<TaskId>>
    var currentLevel: int
    var levelChanged: bool
    var finishTasks: map<TaskId, int>
    var finishWaiter: map<TaskId, TaskId>

    ghost function S(): Sched
      reads this
    {
      Sched(tasks, latestId, running, currentLevel, levelChanged, finishTasks, finishWaiter)
    }

    constructor ()
      ensures S() == Initial() && Inv(S())
    {
      tasks, latestId := map[], 0;
      running := [[], [], [], []];
      currentLevel, levelChanged := MAX_LEVEL, false;
      finishTasks, finishWaiter := map[], map[];
      new;
      var main := AddTask();
      tasks := tasks[main := tasks[main].(level := currentLevel, running := true)];
      running := running[currentLevel := running[currentLevel] + [main]];
      var idle := AddTask();
      tasks := tasks[idle := tasks[idle].(level := 0, running := true)];
      running := running[0 := running[0] + [idle]];
      assert [] + [main] == [1] && [] + [idle] == [2];
      assert running == [[2], [], [], [1]];
      InitialInv();
    }

    /** NewTask. */
    method AddTask() returns (id: TaskId)
      modifies this`tasks, this`latestId
      ensures id == old(latestId) + 1 && S() == NewTask(old(S()))
    {
      latestId := latestId + 1;
      tasks := tasks[latestId := Task(DEFAULT_LEVEL, false, [])];
      return latestId;
    }

    method CurrentTask() returns (t: TaskId)
      requires Inv(S())
      ensures t == S().Current()
    {
      return running[currentLevel][0];
    }

    method RotateCurrentRunQueue(currentSleep: bool) returns (currentTask: TaskId)
      requires |running| == MAX_LEVEL + 1 && 0 <= currentLevel <= MAX_LEVEL && running[currentLevel] != []
      modifies this`running, this`levelChanged, this`currentLevel
      ensures currentTask == old(running[currentLevel][0])
      ensures S() == Rotate(old(S()), currentSleep)
    {
      var level := currentLevel;
      currentTask := running[level][0];
      running := running[level := running[level][1..]];
      if !currentSleep {
        running := running[level := running[level] + [currentTask]];
      }
      if running[level] == [] {
        levelChanged := true;
      }
      if levelChanged {
        levelChanged := false;
        var lv := MAX_LEVEL;
        while lv >= 0
          invariant -1 <= lv <= MAX_LEVEL
          invariant currentLevel == level
          invariant Highest(running, MAX_LEVEL, level) == Highest(running, lv, level)
        {
          if running[lv] != [] {
            currentLevel := lv;
            break;
          }
          lv := lv - 1;
        }
      }
    }

    /** Called by the timer interrupt. The contexts are switched when the current task has changed. */
    method SwitchTask() returns (switched: bool)
      requires Inv(S())
      modifies this`running, this`levelChanged, this`currentLevel
      ensures S() == Rotate(old(S()), false) && Inv(S()) && TopLevel(S())
      ensures switched <==> S().Current() != old(S()).Current()
    {
      SwitchKeeps(S());
      var previous := RotateCurrentRunQueue(false);
      var now := CurrentTask();
      switched := now != previous;
    }

    method SleepTask(task: TaskId)
      requires Inv(S()) && task in tasks && OtherRunnable(S(), task)
      modifies this`tasks, this`running, this`levelChanged, this`currentLevel
      ensures S() == Sleep(old(S()), task) && Inv(S())
    {
      SleepKeeps(S(), task);
      if !tasks[task].running {
        return;
      }
      ghost var before := S();
      tasks := tasks[task := tasks[task].(running := false)];
      if task == running[currentLevel][0] {
        var _ := RotateCurrentRunQueue(true);
        return;
      }
      var level := tasks[task].level;
      var rest := Erase(running[level], task);
      running := running[level := rest];
    }

    method ChangeLevel(task: TaskId, level: int)
      requires Inv(S()) && task in tasks && tasks[task].running && level <= MAX_LEVEL
      modifies this`tasks, this`running, this`levelChanged, this`currentLevel
      ensures S() == ChangeLevelRunning(old(S()), task, level) && Inv(S())
    {
      ChangeLevelKeeps(S(), task, level);
      if level < 0 || level == tasks[task].level {
        return;
      }
      if task != running[currentLevel][0] {
        var rest := Erase(running[tasks[task].level], task);
        running := running[tasks[task].level := rest];
        running := running[level := running[level] + [task]];
        tasks := tasks[task := tasks[task].(level := level)];
        if level > currentLevel {
          levelChanged := true;
        }
        return;
      }
      CurrentIsTask(S());
      running := running[currentLevel := running[currentLevel][1..]];
      running := running[level := [task] + running[level]];
      tasks := tasks[task := tasks[task].(level := level)];
      if level >= currentLevel {
        currentLevel := level;
      } else {
        currentLevel := level;
        levelChanged := true;
      }
    }

    method WakeupTask(task: TaskId, level: int)
      requires Inv(S()) && task in tasks && level <= MAX_LEVEL
      modifies this`tasks, this`running, this`levelChanged, this`currentLevel
      ensures S() == Wakeup(old(S()), task, level) && Inv(S())
    {
      WakeupKeeps(S(), task, level);
      if tasks[task].running {
        ChangeLevel(task, level);
        return;
      }
      var l := level;
      if l < 0 {
        l := tasks[task].level;
      }
      tasks := tasks[task := tasks[task].(level := l)];
      tasks := tasks[task := tasks[task].(running := true)];
      running := running[l := running[l] + [task]];
      if l > currentLevel {
        levelChanged := true;
      }
    }

    method SendMessage(id: TaskId, msg: Message) returns (err: Error)
      requires Inv(S())
      modifies this`tasks, this`running, this`levelChanged, this`currentLevel
      ensures S() == Send(old(S()), id, msg) && Inv(S())
      ensures err == if id in old(tasks) then Success else NoSuchTask
    {
      SendKeeps(S(), id, msg);
      if id !in tasks {
        return NoSuchTask;
      }
      ghost var before := S();
      tasks := tasks[id := tasks[id].(msgs := tasks[id].msgs + [msg])];
      MailKeeps(before, S());
      WakeupTask(id, -1);
      return Success;
    }

    method ReceiveMessage(task: TaskId) returns (msg: Option<Message>)
      requires Inv(S()) && task in tasks
      modifies this`tasks
      ensures Inv(S())
      ensures msg == if old(tasks)[task].msgs == [] then None else Some(old(tasks)[task].msgs[0])
      ensures tasks == if msg.None? then old(tasks)
                else old(tasks)[task := old(tasks)[task].(msgs := old(tasks)[task].msgs[1..])]
    {
      if tasks[task].msgs == [] {
        return None;
      }
      ghost var before := S();
      msg := Some(tasks[task].msgs[0]);
      tasks := tasks[task := tasks[task].(msgs := tasks[task].msgs[1..])];
      MailKeeps(before, S());
    }

    method FinishTask(exitCode: int)
      requires Inv(S()) && OtherRunnable(S(), S().Current())
      modifies this
      ensures S() == Finish(old(S()), exitCode) && Inv(S())
    {
      FinishKeeps(S(), exitCode);
      LeaveKeeps(S());
      var currentTask := RotateCurrentRunQueue(true);
      tasks := tasks - {currentTask};
      finishTasks := finishTasks[currentTask := exitCode];
      if currentTask in finishWaiter {
        var waiter := finishWaiter[currentTask];
        finishWaiter := finishWaiter - {currentTask};
        if waiter in tasks {
          WakeupTask(waiter, -1);
        }
      }
    }

    /** One turn of WaitFinish's loop by the current task: the exit code, or nothing and the task sleeps. */
    method WaitFinishTurn(taskId: TaskId) returns (exitCode: Option<int>)
      requires Inv(S()) && OtherRunnable(S(), S().Current())
      modifies this
      ensures Inv(S())
      ensures taskId in old(finishTasks) ==>
                && exitCode == Some(old(finishTasks)[taskId])
                && S() == old(S()).(finishTasks := old(finishTasks) - {taskId})
      ensures taskId !in old(finishTasks) ==>
                && exitCode == None
                && S().Running(old(S()).Current()) == false
                && S() == Sleep(old(S()).(finishWaiter := old(finishWaiter)[taskId := old(S()).Current()]),
                     old(S()).Current())
    {
      CurrentIsTask(S());
      var currentTask := CurrentTask();
      if taskId in finishTasks {
        exitCode := Some(finishTasks[taskId]);
        finishTasks := finishTasks - {taskId};
        return;
      }
      finishWaiter := finishWaiter[taskId := currentTask];
      SleepKeeps(S(), currentTask);
      SleepTask(currentTask);
      return None;
    }
  }
}
