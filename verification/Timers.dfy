/** Tick-driven timers (kernel/timer.cpp, kernel/timer.hpp). */
module Timers {
  import opened Common

  /** The largest unsigned long: the timeout of the sentinel. */
  const NEVER: nat := 0xffff_ffff_ffff_ffff
  const TASK_TIMER_PERIOD: nat := 2
  /** The largest int: the value that marks the timer which drives task switching. */
  const TASK_TIMER_VALUE: int := 0x7fff_ffff

  /** addedAt, the tick at which a timer was added, is recorded only to state when it must fire. */
  datatype Timer = Timer(timeout: nat, value: int, taskId: nat, addedAt: nat) {
    predicate Ordinary() { value != TASK_TIMER_VALUE && timeout < NEVER }

    /** The first tick at which the timer can fire. */
    function Due(): nat { Max(timeout, addedAt + 1) }
  }

  datatype Fired = Fired(at: nat, timer: Timer)

  /** What has happened to all timers so far. */
  datatype History = History(tick: nat, queue: seq<Timer>, added: multiset<Timer>, log: seq<Fired>)

  function Timers(log: seq<Fired>): seq<Timer> {
    seq(|log|, i requires 0 <= i < |log| => log[i].timer)
  }

  function Stamped(at: nat, fired: seq<Timer>): seq<Fired> {
    seq(|fired|, i requires 0 <= i < |fired| => Fired(at, fired[i]))
  }

  const SENTINEL: Timer := Timer(NEVER, 0, 0, 0)

  ghost predicate Queue(h: History) {
    && SENTINEL in h.queue
    && (forall t :: t in h.queue ==> t.addedAt <= h.tick && (t.timeout > h.tick || t.addedAt == h.tick))
  }

  /** Every delivery was on its tick, and deliveries are in the order of ticks and, within a tick, of deadlines. */
  ghost predicate OnTime(h: History) {
    && (forall i :: 0 <= i < |h.log| ==> h.log[i].timer.Ordinary() && h.log[i].at == h.log[i].timer.Due() <= h.tick)
    && (forall i, j :: 0 <= i < j < |h.log| ==>
          h.log[i].at < h.log[j].at || (h.log[i].at == h.log[j].at && h.log[i].timer.timeout <= h.log[j].timer.timeout))
  }

  /** An ordinary timer that was added is either still queued or has been delivered. */
  ghost predicate Conserved(h: History) {
    forall t: Timer :: t.Ordinary() ==> h.added[t] == multiset(h.queue)[t] + multiset(Timers(h.log))[t]
  }

  ghost predicate Good(h: History) {
    Queue(h) && OnTime(h) && Conserved(h)
  }

  /** Every ordinary timer is delivered as often as it was added, from its due tick on, and not before. */
  lemma ExactlyOnce(h: History, t: Timer)
    requires Good(h) && t.Ordinary()
    ensures multiset(Timers(h.log))[t] == if t.Due() <= h.tick then h.added[t] else 0
  {
    if t.Due() <= h.tick {
      assert t !in h.queue;
    } else {
      forall i | 0 <= i < |h.log| ensures Timers(h.log)[i] != t {
        assert h.log[i].timer.Due() <= h.tick;
      }
    }
  }

  function Remove(q: seq<Timer>, i: nat): seq<Timer>
    requires i < |q|
  {
    q[..i] + q[i + 1..]
  }

  lemma RemoveCounts(q: seq<Timer>, i: nat)
    requires i < |q|
    ensures multiset(q) == multiset(Remove(q, i)) + multiset{q[i]}
  {
    assert q == q[..i] + ([q[i]] + q[i + 1..]);
  }

  /** How many timers of the queue are due. */
  function DueCount(q: seq<Timer>, tick: nat): nat {
    if q == [] then 0 else (if q[0].timeout <= tick then 1 else 0) + DueCount(q[1..], tick)
  }

  lemma {:induction false} DueCountJoin(q: seq<Timer>, r: seq<Timer>, tick: nat)
    ensures DueCount(q + r, tick) == DueCount(q, tick) + DueCount(r, tick)
  {
    if q == [] {
      assert q + r == r;
    } else {
      assert (q + r)[1..] == q[1..] + r;
      DueCountJoin(q[1..], r, tick);
    }
  }

  lemma DueCountRemove(q: seq<Timer>, i: nat, tick: nat)
    requires i < |q| && q[i].timeout <= tick
    ensures DueCount(Remove(q, i), tick) + 1 == DueCount(q, tick)
  {
    assert q == q[..i] + ([q[i]] + q[i + 1..]);
    DueCountJoin(q[..i], [q[i]] + q[i + 1..], tick);
    assert ([q[i]] + q[i + 1..])[1..] == q[i + 1..];
    DueCountJoin(q[..i], q[i + 1..], tick);
  }

  lemma DueCountAgain(q: seq<Timer>, again: Timer, tick: nat)
    requires again.timeout > tick
    ensures DueCount(q + [again], tick) == DueCount(q, tick)
  {
    DueCountJoin(q, [again], tick);
  }

  /** When the timers that drive task switching are due. */
  function TaskDues(q: seq<Timer>): multiset<nat> {
    if q == [] then multiset{}
    else (if q[0].value == TASK_TIMER_VALUE then multiset{q[0].timeout} else multiset{}) + TaskDues(q[1..])
  }

  lemma {:induction false} TaskDuesJoin(q: seq<Timer>, r: seq<Timer>)
    ensures TaskDues(q + r) == TaskDues(q) + TaskDues(r)
  {
    if q == [] {
      assert q + r == r;
    } else {
      assert (q + r)[1..] == q[1..] + r;
      TaskDuesJoin(q[1..], r);
    }
  }

  lemma TaskDuesOne(t: Timer)
    ensures TaskDues([t]) == if t.value == TASK_TIMER_VALUE then multiset{t.timeout} else multiset{}
  {
    assert [t][1..] == [];
  }

  lemma TaskDuesRemove(q: seq<Timer>, i: nat)
    requires i < |q|
    ensures TaskDues(q) == TaskDues(Remove(q, i)) + TaskDues([q[i]])
  {
    hide TaskDues;
    assert q == q[..i] + ([q[i]] + q[i + 1..]);
    TaskDuesJoin(q[..i], [q[i]] + q[i + 1..]);
    TaskDuesJoin([q[i]], q[i + 1..]);
    TaskDuesJoin(q[..i], q[i + 1..]);
  }

  lemma {:induction false} TaskDuesOf(q: seq<Timer>, d: nat)
    ensures d in TaskDues(q) <==> exists t :: t in q && t.value == TASK_TIMER_VALUE && t.timeout == d
  {
    if q != [] {
      TaskDuesOf(q[1..], d);
      assert q == [q[0]] + q[1..];
    }
  }

  /** No task timer is lost or doubled: those due by that tick begin another period, the others go on. */
  ghost predicate DuesMove(dues: multiset<nat>, dues': multiset<nat>, tick: nat) {
    && |dues'| == |dues|
    && forall d: nat :: d != tick + TASK_TIMER_PERIOD ==> dues'[d] == if d <= tick then 0 else dues[d]
  }

  /** The same in the middle of a tick, when some of them have been moved. */
  ghost predicate DuesMoving(dues: multiset<nat>, dues': multiset<nat>, tick: nat) {
    && |dues'| == |dues|
    && forall d: nat :: d != tick + TASK_TIMER_PERIOD ==> if d <= tick then dues'[d] <= dues[d] else dues'[d] == dues[d]
  }

  lemma DuesStart(dues: multiset<nat>, tick: nat)
    ensures DuesMoving(dues, dues, tick)
  {
  }

  lemma DueMoves(dues: multiset<nat>, q: seq<Timer>, i: nat, tick: nat)
    requires DuesMoving(dues, TaskDues(q), tick) && i < |q| && q[i].timeout <= tick
    ensures q[i].value != TASK_TIMER_VALUE ==> TaskDues(Remove(q, i)) == TaskDues(q)
    ensures q[i].value == TASK_TIMER_VALUE ==>
              var again := Timer(tick + TASK_TIMER_PERIOD, TASK_TIMER_VALUE, 1, tick);
              DuesMoving(dues, TaskDues(Remove(q, i) + [again]), tick)
  {
    hide TaskDues, Remove;
    var again := Timer(tick + TASK_TIMER_PERIOD, TASK_TIMER_VALUE, 1, tick);
    TaskDuesRemove(q, i);
    TaskDuesOne(q[i]);
    TaskDuesOne(again);
    TaskDuesJoin(Remove(q, i), [again]);
  }

  lemma DuesMoved(dues: multiset<nat>, q: seq<Timer>, tick: nat)
    requires DuesMoving(dues, TaskDues(q), tick) && forall t :: t in q ==> t.timeout > tick
    ensures DuesMove(dues, TaskDues(q), tick)
  {
    hide TaskDues;
    forall d: nat | d <= tick ensures d !in TaskDues(q) {
      TaskDuesOf(q, d);
    }
  }

  predicate IsEarliest(q: seq<Timer>, i: nat) {
    i < |q| && forall j :: 0 <= j < |q| ==> q[i].timeout <= q[j].timeout
  }

  /** A non-empty queue has an earliest timer. */
  lemma {:induction false} Earliest(q: seq<Timer>) returns (i: nat)
    requires q != []
    ensures IsEarliest(q, i)
  {
    i := 0;
    if |q| > 1 {
      var k := Earliest(q[1..]);
      if q[k + 1].timeout < q[0].timeout {
        i := k + 1;
      }
      assert q[1..][k] == q[k + 1];
      forall j | 0 <= j < |q| ensures q[i].timeout <= q[j].timeout {
        if j > 0 {
          assert q[1..][j - 1] == q[j];
        }
      }
    }
  }

  class TimerManager {
    var tick: nat
    /** The contents of the priority queue, in no particular order. */
    var timers: seq<Timer>
    ghost var added: multiset<Timer>
    ghost var log: seq<Fired>

    ghost function H(): History
      reads this
    {
      History(tick, timers, added, log)
    }

    constructor ()
      ensures Good(H()) && tick == 0 && added == multiset{} && log == []
    {
      tick, timers := 0, [SENTINEL];
      added, log := multiset{}, [];
    }

    method AddTimer(timeout: nat, value: int, taskId: nat)
      requires Good(H())
      modifies this`timers, this`added
      ensures Good(H())
      ensures var t := Timer(timeout, value, taskId, tick);
              timers == old(timers) + [t] && added == old(added) + multiset{t}
      ensures TaskDues(timers) ==
                TaskDues(old(timers)) + if value == TASK_TIMER_VALUE then multiset{timeout} else multiset{}
    {
      var t := Timer(timeout, value, taskId, tick);
      TaskDuesJoin(timers, [t]);
      TaskDuesOne(t);
      timers := timers + [t];
      added := added + multiset{t};
    }

    /** top: some timer whose timeout is minimal. */
    method Top() returns (i: nat)
      requires timers != []
      ensures IsEarliest(timers, i)
    {
      ghost var k := Earliest(timers);
      hide IsEarliest;
      i :| 0 <= i < |timers| && IsEarliest(timers, i);
    }

    /** One timer interrupt. fired are the timers handed to SendMessage, in that order. */
    method Tick() returns (taskTimerTimeout: bool, ghost fired: seq<Timer>)
      requires Good(H()) && tick + 1 < NEVER
      modifies this`tick, this`timers, this`log
      ensures Good(H()) && tick == old(tick) + 1
      ensures log == old(log) + Stamped(tick, fired)
      ensures forall t :: t in timers ==> t.timeout > tick
      ensures taskTimerTimeout <==> exists t :: t in old(timers) && t.value == TASK_TIMER_VALUE && t.timeout <= tick
      ensures taskTimerTimeout ==> Timer(tick + TASK_TIMER_PERIOD, TASK_TIMER_VALUE, 1, tick) in timers
      ensures DuesMove(TaskDues(old(timers)), TaskDues(timers), tick)
    {
      hide Loop, Good, Remove, DuesMove, DuesMoving, TaskDues, DueCount;
      LoopStarts(H());
      tick := tick + 1;
      taskTimerTimeout := false;
      fired := [];
      ghost var log0 := log;
      DuesStart(TaskDues(timers), tick);
      while true
        invariant tick == old(tick) + 1 && added == old(added)
        invariant Loop(History(old(tick), old(timers), added, log0), tick, timers, fired, taskTimerTimeout)
        invariant log == log0 + Stamped(tick, fired)
        invariant DuesMoving(TaskDues(old(timers)), TaskDues(timers), tick)
        decreases DueCount(timers, tick)
      {
        QueueNotEmpty(History(old(tick), old(timers), added, log0), tick, timers, fired, taskTimerTimeout);
        var i := Top();
        var t := timers[i];
        if t.timeout > tick {
          assert forall u :: u in timers ==> u.timeout > tick;
          break;
        }
        DueCountRemove(timers, i, tick);
        DueMoves(TaskDues(old(timers)), timers, i, tick);
        if t.value == TASK_TIMER_VALUE {
          var again := Timer(tick + TASK_TIMER_PERIOD, TASK_TIMER_VALUE, 1, tick);
          DueCountAgain(Remove(timers, i), again, tick);
          Rearmed(History(old(tick), old(timers), added, log0), tick, timers, fired, taskTimerTimeout, i);
          taskTimerTimeout := true;
          timers := Remove(timers, i);
          timers := timers + [again];
          continue;
        }
        assert Stamped(tick, fired + [t]) == Stamped(tick, fired) + [Fired(tick, t)];
        Sent(History(old(tick), old(timers), added, log0), tick, timers, fired, taskTimerTimeout, i);
        fired := fired + [t];
        log := log + [Fired(tick, t)];
        timers := Remove(timers, i);
      }
      DuesMoved(TaskDues(old(timers)), timers, tick);
      Ticked(History(old(tick), old(timers), added, log0), H(), fired, taskTimerTimeout);
    }

    /** The timer interrupt when there is one task timer: tasks are switched exactly when it is due. */
    method OnInterrupt(ghost due: nat) returns (switched: bool)
      requires Good(H()) && tick + 1 < NEVER
      requires TaskDues(timers) == multiset{due} && tick < due
      modifies this
      ensures Good(H()) && tick == old(tick) + 1
      ensures switched <==> tick == due
      ensures TaskDues(timers) == multiset{if tick == due then due + 2 else due}
    {
      hide Good, DuesMove, TaskDues, Stamped;
      OneDue(timers, due);
      TaskDuesOf(timers, due);
      ghost var dues := TaskDues(timers);
      ghost var fired;
      switched, fired := Tick();
      OneMoves(dues, TaskDues(timers), due, tick);
    }

    /**
     * A run with one task timer. switches are the ticks at which the interrupt handler switches tasks: the timer's due
     * tick and then every second tick, whatever other timers there are.
     */
    method Run(events: seq<Event>, ghost due: nat) returns (switches: seq<nat>)
      requires Good(H()) && tick + |events| < NEVER
      requires TaskDues(timers) == multiset{due} && tick < due
      requires forall i :: 0 <= i < |events| && events[i].Add? ==> events[i].value != TASK_TIMER_VALUE
      modifies this
      ensures Good(H()) && tick == old(tick) + Interrupts(events)
      ensures Beat(switches, due, tick) && TaskDues(timers) == multiset{due + 2 * |switches|}
    {
      hide Good, TaskDues, Interrupts, Beat;
      switches := [];
      BeatBegins(due, tick);
      assert events[..|events|] == events && events[..0] == [];
      NoInterrupts();
      for i := 0 to |events|
        invariant Good(H()) && tick == old(tick) + Interrupts(events[..i]) <= old(tick) + i
        invariant Beat(switches, due, tick) && TaskDues(timers) == multiset{due + 2 * |switches|}
      {
        InterruptsNext(events, i);
        match events[i]
        case Add(timeout, value, taskId) =>
          AddTimer(timeout, value, taskId);
        case Interrupt =>
          BeatGoesOn(switches, due, tick);
          var switched := OnInterrupt(due + 2 * |switches|);
          if switched {
            switches := switches + [tick];
          }
      }
    }
  }

  datatype Event = Add(timeout: nat, value: int, taskId: nat) | Interrupt

  /** The timer interrupts among the events. */
  function Interrupts(events: seq<Event>): nat {
    if events == [] then 0
    else Interrupts(events[..|events| - 1]) + if events[|events| - 1].Interrupt? then 1 else 0
  }

  /** Up to a tick, tasks were switched when the timer was due and then at every second tick. */
  predicate Beat(switches: seq<nat>, due: nat, tick: nat) {
    && tick < due + 2 * |switches|
    && forall i :: 0 <= i < |switches| ==> switches[i] == due + 2 * i <= tick
  }

  lemma BeatBegins(due: nat, tick: nat)
    requires tick < due
    ensures Beat([], due, tick)
  {
  }

  lemma BeatGoesOn(switches: seq<nat>, due: nat, tick: nat)
    requires Beat(switches, due, tick)
    ensures tick < due + 2 * |switches|
    ensures var next := due + 2 * |switches|;
            if tick + 1 == next then Beat(switches + [tick + 1], due, tick + 1) else Beat(switches, due, tick + 1)
  {
  }

  lemma NoInterrupts()
    ensures Interrupts([]) == 0
  {
  }

  lemma InterruptsNext(events: seq<Event>, i: nat)
    requires i < |events|
    ensures Interrupts(events[..i + 1]) == Interrupts(events[..i]) + if events[i].Interrupt? then 1 else 0
  {
    assert events[..i + 1][..i] == events[..i];
  }

  lemma OneDue(q: seq<Timer>, due: nat)
    requires TaskDues(q) == multiset{due}
    ensures forall t :: t in q && t.value == TASK_TIMER_VALUE ==> t.timeout == due
  {
    hide TaskDues;
    forall t | t in q && t.value == TASK_TIMER_VALUE ensures t.timeout == due {
      TaskDuesOf(q, t.timeout);
    }
  }

  lemma OneMoves(dues: multiset<nat>, dues': multiset<nat>, due: nat, tick: nat)
    requires dues == multiset{due} && due >= tick && DuesMove(dues, dues', tick)
    ensures dues' == multiset{if due == tick then due + TASK_TIMER_PERIOD else due}
  {
    if due == tick || due == tick + TASK_TIMER_PERIOD {
      assert forall d: nat :: d != tick + TASK_TIMER_PERIOD ==> dues'[d] == 0;
      assert dues' == multiset{}[tick + TASK_TIMER_PERIOD := dues'[tick + TASK_TIMER_PERIOD]];
    } else {
      assert dues'[due] == 1;
      var rest := dues' - multiset{due};
      assert |rest| == 0;
    }
  }

  /** During a tick: what has been fired so far, in order, and what is left. h is the history before. */
  ghost predicate Loop(h: History, tick: nat, timers: seq<Timer>, fired: seq<Timer>, taskTimer: bool) {
    && SENTINEL in timers
    && (forall t :: t in timers ==> t.addedAt <= tick && (t.timeout > h.tick || t.addedAt == h.tick))
    && (forall t :: t in timers && t.addedAt == tick ==> t.timeout > tick)
    && (forall i :: 0 <= i < |fired| ==> fired[i].Ordinary() && fired[i].Due() == tick)
    && (forall i, j :: 0 <= i < j < |fired| ==> fired[i].timeout <= fired[j].timeout)
    && (forall i, t :: 0 <= i < |fired| && t in timers ==> fired[i].timeout <= t.timeout)
    && (forall t: Timer :: t.Ordinary() ==> multiset(h.queue)[t] == multiset(timers)[t] + multiset(fired)[t])
    && (taskTimer ==> Timer(tick + TASK_TIMER_PERIOD, TASK_TIMER_VALUE, 1, tick) in timers
                      && exists t :: t in h.queue && t.value == TASK_TIMER_VALUE && t.timeout <= tick)
    && (!taskTimer ==> forall t :: t in h.queue && t.value == TASK_TIMER_VALUE ==> t in timers)
    && (forall t :: t in timers && t.value == TASK_TIMER_VALUE && t.timeout <= tick ==> t in h.queue)
  }

  lemma RemoveMembers(q: seq<Timer>, i: nat)
    requires i < |q|
    ensures forall t :: t in Remove(q, i) ==> t in q
    ensures forall t :: t in q && t != q[i] ==> t in Remove(q, i)
  {
    RemoveCounts(q, i);
    forall t | t in q && t != q[i] ensures t in Remove(q, i) {
      assert multiset(q)[t] > 0;
      assert multiset(Remove(q, i))[t] > 0;
    }
  }

  lemma Sent(h: History, tick: nat, timers: seq<Timer>, fired: seq<Timer>, taskTimer: bool, i: nat)
    requires Loop(h, tick, timers, fired, taskTimer) && tick == h.tick + 1 < NEVER
    requires IsEarliest(timers, i)
    requires timers[i].timeout <= tick && timers[i].value != TASK_TIMER_VALUE
    ensures Loop(h, tick, Remove(timers, i), fired + [timers[i]], taskTimer)
  {
    hide Remove;
    SentCounts(h, tick, timers, fired, taskTimer, i);
    SentFired(h, tick, timers, fired, taskTimer, i);
    RemoveMembers(timers, i);
    assert timers[i] in timers;
    assert SENTINEL != timers[i];
    hide IsEarliest, Timer.Due;
  }

  /** No ordinary timer is lost or doubled. */
  lemma SentCounts(h: History, tick: nat, timers: seq<Timer>, fired: seq<Timer>, taskTimer: bool, i: nat)
    requires Loop(h, tick, timers, fired, taskTimer) && i < |timers|
    ensures forall t: Timer :: t.Ordinary() ==>
              multiset(h.queue)[t] == multiset(Remove(timers, i))[t] + multiset(fired + [timers[i]])[t]
  {
    hide Remove;
    RemoveCounts(timers, i);
    assert multiset(fired + [timers[i]]) == multiset(fired) + multiset{timers[i]};
  }

  /** The one that is sent is ordinary, due, and not earlier than those before it. */
  lemma SentFired(h: History, tick: nat, timers: seq<Timer>, fired: seq<Timer>, taskTimer: bool, i: nat)
    requires Loop(h, tick, timers, fired, taskTimer) && tick == h.tick + 1 < NEVER
    requires IsEarliest(timers, i)
    requires timers[i].timeout <= tick && timers[i].value != TASK_TIMER_VALUE
    ensures var fired' := fired + [timers[i]];
            && (forall k :: 0 <= k < |fired'| ==> fired'[k].Ordinary() && fired'[k].Due() == tick)
            && (forall k, j :: 0 <= k < j < |fired'| ==> fired'[k].timeout <= fired'[j].timeout)
            && (forall k, t :: 0 <= k < |fired'| && t in Remove(timers, i) ==> fired'[k].timeout <= t.timeout)
  {
    hide Remove;
    var t := timers[i];
    RemoveMembers(timers, i);
    assert t in timers;
    assert t.Ordinary() && t.Due() == tick;
    forall u | u in Remove(timers, i) ensures t.timeout <= u.timeout {
      assert u in timers;
    }
    hide IsEarliest, Timer.Due;
  }

  lemma Rearmed(h: History, tick: nat, timers: seq<Timer>, fired: seq<Timer>, taskTimer: bool, i: nat)
    requires Loop(h, tick, timers, fired, taskTimer) && tick == h.tick + 1 < NEVER
    requires i < |timers| && timers[i].timeout <= tick && timers[i].value == TASK_TIMER_VALUE
    ensures Loop(h, tick, Remove(timers, i) + [Timer(tick + TASK_TIMER_PERIOD, TASK_TIMER_VALUE, 1, tick)], fired, true)
  {
    hide Remove;
    var again := Timer(tick + TASK_TIMER_PERIOD, TASK_TIMER_VALUE, 1, tick);
    var rest := Remove(timers, i);
    var timers' := rest + [again];
    RemoveMembers(timers, i);
    RemoveCounts(timers, i);
    assert multiset(timers') == multiset(rest) + multiset{again};
    assert timers[i] in timers;
    assert again in timers';
    forall u ensures u in timers' <==> u in rest || u == again {
    }
  }

  /** The sentinel keeps the queue from running empty. */
  lemma QueueNotEmpty(h: History, tick: nat, timers: seq<Timer>, fired: seq<Timer>, taskTimer: bool)
    requires Loop(h, tick, timers, fired, taskTimer)
    ensures timers != []
  {
  }

  lemma LoopStarts(h: History)
    requires Good(h)
    ensures Loop(h, h.tick + 1, h.queue, [], false)
  {
  }

  lemma LogGrows(h: History, h': History, fired: seq<Timer>)
    requires h'.log == h.log + Stamped(h'.tick, fired)
    ensures Timers(h'.log) == Timers(h.log) + fired
    ensures multiset(Timers(h'.log)) == multiset(Timers(h.log)) + multiset(fired)
    ensures forall i :: |h.log| <= i < |h'.log| ==> h'.log[i] == Fired(h'.tick, fired[i - |h.log|])
  {
    assert forall i :: |h.log| <= i < |h'.log| ==> h'.log[i] == Fired(h'.tick, fired[i - |h.log|]);
    assert Timers(h'.log) == Timers(h.log) + fired;
  }

  lemma LogOnTime(h: History, h': History, fired: seq<Timer>)
    requires OnTime(h) && h'.tick == h.tick + 1 && h'.log == h.log + Stamped(h'.tick, fired)
    requires forall i :: 0 <= i < |fired| ==> fired[i].Ordinary() && fired[i].Due() == h'.tick
    requires forall i, j :: 0 <= i < j < |fired| ==> fired[i].timeout <= fired[j].timeout
    ensures OnTime(h')
  {
    LogGrows(h, h', fired);
    hide Stamped;
  }

  lemma Ticked(h: History, h': History, fired: seq<Timer>, taskTimer: bool)
    requires Good(h) && h'.tick == h.tick + 1 && h'.added == h.added
    requires Loop(h, h'.tick, h'.queue, fired, taskTimer) && forall t :: t in h'.queue ==> t.timeout > h'.tick
    requires h'.log == h.log + Stamped(h'.tick, fired)
    ensures Good(h')
    ensures taskTimer <==> exists t :: t in h.queue && t.value == TASK_TIMER_VALUE && t.timeout <= h'.tick
    ensures taskTimer ==> Timer(h'.tick + TASK_TIMER_PERIOD, TASK_TIMER_VALUE, 1, h'.tick) in h'.queue
  {
    hide Stamped, OnTime, Timers;
    LogGrows(h, h', fired);
    LogOnTime(h, h', fired);
  }
}
