/** Transfer, command and event rings (kernel/usb/xhci/ring.cpp): one word at a time, with a cycle bit. */
module Rings {
  import opened Common

  type Word32 = x: nat | x < 0x1_0000_0000

  type TRB = t: seq<Word32> | |t| == 4 witness [0, 0, 0, 0]

  /** Which value of the cycle bit belongs to a lap: 1 in the first one, and memory is all 0 before that. */
  predicate Even(lap: int) {
    lap % 2 == 0
  }

  predicate Cycle(word3: Word32) {
    word3 % 2 == 1
  }

  /** (word & 0xfffffffe) | cycle. */
  function WithCycle(word3: Word32, cycle: bool): (r: Word32)
    ensures Cycle(r) == cycle && r / 2 == word3 / 2
  {
    word3 - word3 % 2 + if cycle then 1 else 0
  }

  predicate IsLink(t: TRB) {
    t[3] / 1024 % 64 == 6
  }

  predicate Toggles(t: TRB) {
    t[3] / 2 % 2 == 1
  }

  /** The same TRB but for the cycle bit. */
  predicate Same(s: TRB, t: TRB) {
    s[0] == t[0] && s[1] == t[1] && s[2] == t[2] && s[3] / 2 == t[3] / 2
  }

  function Address(t: TRB): nat {
    t[0] as int + t[1] as int * 0x1_0000_0000
  }

  /** The data slots of a ring, whether a Link TRB stands behind them, and the ring's address. */
  datatype Config = Config(slots: nat, link: bool, base: nat)

  predicate ValidConfig(c: Config) {
    c.slots >= 2 && c.base < 0x1_0000_0000 * 0x1_0000_0000
  }

  /** The Link TRB back to the ring's beginning, with its toggle-cycle bit. */
  function LinkTo(base: nat): (r: TRB)
    requires base < 0x1_0000_0000 * 0x1_0000_0000
    ensures IsLink(r) && Toggles(r) && Address(r) == base
  {
    [base % 0x1_0000_0000, base / 0x1_0000_0000, 0, 6 * 1024 + 2]
  }

  /** What the producer is in the middle of, and how many words of it are in memory. */
  datatype Producing = Idle | Data(trb: TRB, written: nat) | Link(written: nat)

  /** What the consumer is in the middle of; Lost if it has followed a link to somewhere else. */
  datatype Consuming = Looking | Reading(got: seq<Word32>, word3: Word32) | Lost

  /** Both sides, the memory between them, how often each has wrapped, and what went in and came out. */
  datatype Machine = Machine(
    buf: seq<TRB>,
    writeIndex: nat, cycleBit: bool, producing: Producing, laps: nat,
    readIndex: nat, expected: bool, consuming: Consuming, readLaps: nat,
    pushed: seq<TRB>, delivered: seq<TRB>)

  /** One step of either side: a memory access, or the begin of a push. */
  datatype Step = Push(trb: TRB) | Write | Look | Read | Take

  function Outstanding(m: Machine): int {
    |m.pushed| - |m.delivered|
  }

  predicate Legal(c: Config, m: Machine, step: Step) {
    match step
    case Push(t) => m.producing.Idle? && !IsLink(t) && Outstanding(m) + 1 <= c.slots - 1
    case Write => !m.producing.Idle?
    case Look => m.consuming.Looking?
    case Read => m.consuming.Reading? && |m.consuming.got| < 3
    case Take => m.consuming.Reading? && |m.consuming.got| == 3
  }

  predicate Shaped(c: Config, m: Machine) {
    && ValidConfig(c) && |m.buf| == c.slots + (if c.link then 1 else 0)
    && m.writeIndex < |m.buf| && m.readIndex < |m.buf|
    && (m.producing.Data? ==> m.producing.written <= 3 && m.writeIndex < c.slots)
    && (m.producing.Link? ==> m.producing.written <= 3 && c.link)
  }

  function PutWord(buf: seq<TRB>, slot: nat, i: nat, word: Word32): seq<TRB>
    requires slot < |buf| && i < 4
  {
    buf[slot := buf[slot][i := word]]
  }

  /** The next word of the TRB that is being written; behind the last word, the private fields move on. */
  function ProducerStep(c: Config, m: Machine): Machine
    requires Shaped(c, m) && !m.producing.Idle?
  {
    match m.producing
    case Data(t, n) =>
      if n < 3 then m.(buf := PutWord(m.buf, m.writeIndex, n, t[n]), producing := Data(t, n + 1))
      else
        var next := m.(buf := PutWord(m.buf, m.writeIndex, 3, WithCycle(t[3], m.cycleBit)),
                       writeIndex := m.writeIndex + 1, producing := Idle, pushed := m.pushed + [t]);
        if next.writeIndex < c.slots then next
        else if c.link then next.(producing := Link(0))
        else Wrapped(next)
    case Link(n) =>
      var t := LinkTo(c.base);
      if n < 3 then m.(buf := PutWord(m.buf, c.slots, n, t[n]), producing := Link(n + 1))
      else Wrapped(m.(buf := PutWord(m.buf, c.slots, 3, WithCycle(t[3], m.cycleBit)), producing := Idle))
  }

  function Wrapped(m: Machine): Machine {
    m.(writeIndex := 0, cycleBit := !m.cycleBit, laps := m.laps + 1)
  }

  /** A consumer trusts the cycle bit, reads the TRB, and follows links. */
  function ConsumerTake(c: Config, m: Machine): Machine
    requires Shaped(c, m) && m.consuming.Reading? && |m.consuming.got| == 3
  {
    var t: TRB := m.consuming.got + [m.consuming.word3];
    var next := m.(consuming := Looking);
    if c.link && IsLink(t) then
      if Address(t) != c.base then next.(consuming := Lost)
      else next.(readIndex := 0, expected := m.expected != Toggles(t), readLaps := m.readLaps + 1)
    else
      Popped(c, next.(delivered := m.delivered + [t]))
  }

  /** The next slot; on an event ring the consumer wraps by itself. */
  function Popped(c: Config, m: Machine): Machine {
    if !c.link && m.readIndex + 1 == c.slots
    then m.(readIndex := 0, expected := !m.expected, readLaps := m.readLaps + 1)
    else m.(readIndex := m.readIndex + 1)
  }

  function Apply(c: Config, m: Machine, step: Step): Machine
    requires Shaped(c, m) && Legal(c, m, step)
  {
    match step
    case Push(t) => m.(producing := Data(t, 0))
    case Write => ProducerStep(c, m)
    case Look =>
      var word3 := m.buf[m.readIndex][3];
      if Cycle(word3) == m.expected then m.(consuming := Reading([], word3)) else m
    case Read => m.(consuming := Reading(m.consuming.got + [m.buf[m.readIndex][|m.consuming.got|]], m.consuming.word3))
    case Take => ConsumerTake(c, m)
  }

  // ----- the invariant

  /** How far the producer is ahead: in the same lap, or one lap on but behind the consumer. */
  predicate Ahead(c: Config, m: Machine) {
    || (m.laps == m.readLaps && Outstanding(m) == m.writeIndex - m.readIndex)
    || (m.laps == m.readLaps + 1 && Outstanding(m) == c.slots - m.readIndex + m.writeIndex)
  }

  predicate Bounded(c: Config, m: Machine) {
    && 0 <= Outstanding(m) <= c.slots - 1 && (m.producing.Data? ==> Outstanding(m) <= c.slots - 2)
    && (m.writeIndex == c.slots <==> m.producing.Link?)
    && (c.link || (m.writeIndex < c.slots && m.readIndex < c.slots))
    && m.cycleBit == Even(m.laps) && m.expected == Even(m.readLaps)
  }

  /** The cycle bits say who wrote last: this lap before writeIndex, the lap before from there on. */
  predicate Bits(c: Config, m: Machine)
    requires Shaped(c, m)
  {
    && (forall i :: 0 <= i < c.slots ==> Cycle(m.buf[i][3]) == Even(if i < m.writeIndex then m.laps else m.laps - 1))
    && (c.link ==>
         Cycle(m.buf[c.slots][3]) == Even(m.laps - 1) && (m.laps >= 1 ==> Same(m.buf[c.slots], LinkTo(c.base))))
  }

  /** The slot of the k-th push, which has not been taken yet. */
  function SlotOf(c: Config, m: Machine, k: nat): int {
    var p := m.readIndex + k - |m.delivered|;
    if p < c.slots then p else p - c.slots
  }

  predicate Unread(c: Config, m: Machine)
    requires Shaped(c, m)
  {
    forall k :: |m.delivered| <= k < |m.pushed| ==>
      0 <= SlotOf(c, m, k) < c.slots && Same(m.buf[SlotOf(c, m, k)], m.pushed[k])
  }

  /** What has been delivered is a prefix of what has been pushed, whole and in order. */
  predicate Delivered(m: Machine) {
    && |m.delivered| <= |m.pushed|
    && (forall k :: 0 <= k < |m.delivered| ==> Same(m.delivered[k], m.pushed[k]))
    && (forall k :: 0 <= k < |m.pushed| ==> !IsLink(m.pushed[k]))
  }

  predicate PartlyWritten(c: Config, m: Machine)
    requires Shaped(c, m)
  {
    match m.producing
    case Idle => true
    case Data(t, n) => !IsLink(t) && forall i :: 0 <= i < n ==> m.buf[m.writeIndex][i] == t[i]
    case Link(n) => forall i :: 0 <= i < n ==> m.buf[c.slots][i] == LinkTo(c.base)[i]
  }

  predicate PartlyRead(c: Config, m: Machine)
    requires Shaped(c, m)
  {
    match m.consuming
    case Looking => true
    case Reading(got, word3) =>
      && |got| <= 3 && word3 == m.buf[m.readIndex][3] && Cycle(word3) == m.expected
      && (if m.readIndex < c.slots then Outstanding(m) > 0 else m.laps == m.readLaps + 1)
      && forall i :: 0 <= i < |got| ==> got[i] == m.buf[m.readIndex][i]
    case Lost => false
  }

  predicate Inv(c: Config, m: Machine) {
    && Shaped(c, m) && Ahead(c, m) && Bounded(c, m) && Bits(c, m) && Unread(c, m) && Delivered(m)
    && PartlyWritten(c, m) && PartlyRead(c, m)
  }

  // ----- every step keeps it

  lemma PushKeeps(c: Config, m: Machine, t: TRB)
    requires Inv(c, m) && Legal(c, m, Push(t))
    ensures Inv(c, Apply(c, m, Push(t)))
  {
    hide Same, LinkTo, IsLink, Cycle, Even;
  }

  /** A slot that is being written is neither unread nor being read. */
  lemma NotInTheWay(c: Config, m: Machine)
    requires Inv(c, m) && !m.producing.Idle?
    ensures m.producing.Data? && m.readIndex == m.writeIndex ==> !m.consuming.Reading?
    ensures m.producing.Data? ==> forall k :: |m.delivered| <= k < |m.pushed| ==> SlotOf(c, m, k) != m.writeIndex
    ensures m.producing.Link? ==> m.laps == m.readLaps && (m.readIndex == c.slots ==> !m.consuming.Reading?)
  {
  }

  lemma WriteWordCounts(c: Config, m: Machine)
    requires Inv(c, m) && !m.producing.Idle? && m.producing.written < 3
    ensures var m' := Apply(c, m, Write); Shaped(c, m') && Ahead(c, m') && Bounded(c, m') && Delivered(m')
  {
    hide Bits, Unread, PartlyRead;
    NotInTheWay(c, m);
  }

  lemma WriteWordBits(c: Config, m: Machine)
    requires Inv(c, m) && !m.producing.Idle? && m.producing.written < 3
    ensures var m' := Apply(c, m, Write); Shaped(c, m') && Bits(c, m')
  {
    hide Delivered, PartlyRead, Unread;
    NotInTheWay(c, m);
  }

  lemma WriteWordUnread(c: Config, m: Machine)
    requires Inv(c, m) && !m.producing.Idle? && m.producing.written < 3
    ensures var m' := Apply(c, m, Write); Shaped(c, m') && Unread(c, m')
  {
    hide Delivered, PartlyRead, Bits, LinkTo;
    NotInTheWay(c, m);
  }

  lemma WriteWordPartly(c: Config, m: Machine)
    requires Inv(c, m) && !m.producing.Idle? && m.producing.written < 3
    ensures var m' := Apply(c, m, Write); Shaped(c, m') && PartlyWritten(c, m') && PartlyRead(c, m')
  {
    hide Bits, Unread, Delivered;
    NotInTheWay(c, m);
  }

  lemma WriteWordKeeps(c: Config, m: Machine)
    requires Inv(c, m) && !m.producing.Idle? && m.producing.written < 3
    ensures Inv(c, Apply(c, m, Write))
  {
    hide Ahead, Bounded, Bits, Unread, Delivered, PartlyRead, PartlyWritten, Apply;
    WriteWordCounts(c, m);
    WriteWordBits(c, m);
    WriteWordUnread(c, m);
    WriteWordPartly(c, m);
  }

  lemma CommitCounts(c: Config, m: Machine)
    requires Inv(c, m) && m.producing.Data? && m.producing.written == 3
    ensures var m' := Apply(c, m, Write); Shaped(c, m') && Ahead(c, m') && Bounded(c, m') && Delivered(m')
  {
    hide Bits, Unread, PartlyRead;
    NotInTheWay(c, m);
  }

  lemma CommitBits(c: Config, m: Machine)
    requires Inv(c, m) && m.producing.Data? && m.producing.written == 3
    ensures var m' := Apply(c, m, Write); Shaped(c, m') && Bits(c, m')
  {
    hide Delivered, PartlyRead, Unread;
    NotInTheWay(c, m);
  }

  lemma CommitUnread(c: Config, m: Machine)
    requires Inv(c, m) && m.producing.Data? && m.producing.written == 3
    ensures var m' := Apply(c, m, Write); Shaped(c, m') && Unread(c, m')
  {
    hide Delivered, PartlyRead, Bits, LinkTo;
    NotInTheWay(c, m);
  }

  lemma CommitPartly(c: Config, m: Machine)
    requires Inv(c, m) && m.producing.Data? && m.producing.written == 3
    ensures var m' := Apply(c, m, Write); Shaped(c, m') && PartlyWritten(c, m') && PartlyRead(c, m')
  {
    hide Bits, Unread, Delivered;
    NotInTheWay(c, m);
  }

  lemma CommitKeeps(c: Config, m: Machine)
    requires Inv(c, m) && m.producing.Data? && m.producing.written == 3
    ensures Inv(c, Apply(c, m, Write))
  {
    hide Ahead, Bounded, Bits, Unread, Delivered, PartlyRead, PartlyWritten, Apply;
    CommitCounts(c, m);
    CommitBits(c, m);
    CommitUnread(c, m);
    CommitPartly(c, m);
  }

  lemma LinkKeeps(c: Config, m: Machine)
    requires Inv(c, m) && m.producing.Link? && m.producing.written == 3
    ensures Inv(c, Apply(c, m, Write))
  {
    NotInTheWay(c, m);
  }

  /** The consumer sees a matching cycle bit exactly when there is something for it. */
  lemma SeesExactly(c: Config, m: Machine)
    requires Inv(c, m)
    ensures Cycle(m.buf[m.readIndex][3]) == m.expected
       <==> if m.readIndex < c.slots then Outstanding(m) > 0 else m.laps == m.readLaps + 1
  {
  }

  lemma LookCounts(c: Config, m: Machine)
    requires Inv(c, m) && Legal(c, m, Look)
    ensures var m' := Apply(c, m, Look); Shaped(c, m') && Ahead(c, m') && Bounded(c, m') && Delivered(m')
  {
    hide Bits, Unread, PartlyRead;
    SeesExactly(c, m);
  }

  lemma LookBits(c: Config, m: Machine)
    requires Inv(c, m) && Legal(c, m, Look)
    ensures var m' := Apply(c, m, Look); Shaped(c, m') && Bits(c, m')
  {
    hide Delivered, PartlyRead, Unread;
  }

  lemma LookUnread(c: Config, m: Machine)
    requires Inv(c, m) && Legal(c, m, Look)
    ensures var m' := Apply(c, m, Look); Shaped(c, m') && Unread(c, m')
  {
    hide Delivered, PartlyRead, Bits, LinkTo;
  }

  lemma LookPartly(c: Config, m: Machine)
    requires Inv(c, m) && Legal(c, m, Look)
    ensures var m' := Apply(c, m, Look); Shaped(c, m') && PartlyWritten(c, m') && PartlyRead(c, m')
  {
    hide Bits, Unread, Delivered;
    SeesExactly(c, m);
  }

  lemma LookKeeps(c: Config, m: Machine)
    requires Inv(c, m) && Legal(c, m, Look)
    ensures Inv(c, Apply(c, m, Look))
  {
    hide Ahead, Bounded, Bits, Unread, Delivered, PartlyRead, PartlyWritten, Apply;
    LookCounts(c, m);
    LookBits(c, m);
    LookUnread(c, m);
    LookPartly(c, m);
  }

  lemma ReadCounts(c: Config, m: Machine)
    requires Inv(c, m) && Legal(c, m, Read)
    ensures var m' := Apply(c, m, Read); Shaped(c, m') && Ahead(c, m') && Bounded(c, m') && Delivered(m')
  {
    hide Bits, Unread, PartlyRead;
  }

  lemma ReadBits(c: Config, m: Machine)
    requires Inv(c, m) && Legal(c, m, Read)
    ensures var m' := Apply(c, m, Read); Shaped(c, m') && Bits(c, m')
  {
    hide Delivered, PartlyRead, Unread;
  }

  lemma ReadUnread(c: Config, m: Machine)
    requires Inv(c, m) && Legal(c, m, Read)
    ensures var m' := Apply(c, m, Read); Shaped(c, m') && Unread(c, m')
  {
    hide Delivered, PartlyRead, Bits, LinkTo;
  }

  lemma ReadPartly(c: Config, m: Machine)
    requires Inv(c, m) && Legal(c, m, Read)
    ensures var m' := Apply(c, m, Read); Shaped(c, m') && PartlyWritten(c, m') && PartlyRead(c, m')
  {
    hide Bits, Unread, Delivered;
  }

  lemma ReadKeeps(c: Config, m: Machine)
    requires Inv(c, m) && Legal(c, m, Read)
    ensures Inv(c, Apply(c, m, Read))
  {
    hide Ahead, Bounded, Bits, Unread, Delivered, PartlyRead, PartlyWritten, Apply;
    ReadCounts(c, m);
    ReadBits(c, m);
    ReadUnread(c, m);
    ReadPartly(c, m);
  }

  /** What has been read word by word is what the slot holds. */
  lemma Taken(c: Config, m: Machine)
    requires Inv(c, m) && Legal(c, m, Take)
    ensures m.consuming.got + [m.consuming.word3] == m.buf[m.readIndex]
    ensures m.readIndex < c.slots ==> Outstanding(m) > 0 && Same(m.buf[m.readIndex], m.pushed[|m.delivered|])
                                      && !IsLink(m.buf[m.readIndex])
    ensures m.readIndex == c.slots ==>
              c.link && m.laps == m.readLaps + 1 && IsLink(m.buf[c.slots]) && Toggles(m.buf[c.slots])
                                       && Address(m.buf[c.slots]) == c.base
  {
    hide Bits, Delivered, PartlyWritten;
    var t: TRB := m.consuming.got + [m.consuming.word3];
    assert t == m.buf[m.readIndex];
    if m.readIndex < c.slots {
      assert SlotOf(c, m, |m.delivered|) == m.readIndex;
      SameLink(m.buf[m.readIndex], m.pushed[|m.delivered|]);
      PushedNoLinks(m, |m.delivered|);
    } else {
      LinkThere(c, m);
      SameLink(m.buf[c.slots], LinkTo(c.base));
    }
  }

  lemma PushedNoLinks(m: Machine, k: nat)
    requires Delivered(m) && k < |m.pushed|
    ensures !IsLink(m.pushed[k])
  {
  }

  lemma LinkThere(c: Config, m: Machine)
    requires Inv(c, m) && c.link && m.laps >= 1
    ensures Same(m.buf[c.slots], LinkTo(c.base))
  {
  }

  lemma SameLink(s: TRB, t: TRB)
    requires Same(s, t)
    ensures IsLink(s) == IsLink(t) && Toggles(s) == Toggles(t) && Address(s) == Address(t)
  {
    assert s[3] / 1024 == s[3] / 2 / 512 && t[3] / 1024 == t[3] / 2 / 512;
  }

  lemma TakeCounts(c: Config, m: Machine)
    requires Inv(c, m) && Legal(c, m, Take)
    ensures var m' := Apply(c, m, Take); Shaped(c, m') && Ahead(c, m') && Bounded(c, m') && Delivered(m')
  {
    hide Bits, Unread, PartlyRead;
    Taken(c, m);
  }

  lemma TakeBits(c: Config, m: Machine)
    requires Inv(c, m) && Legal(c, m, Take)
    ensures var m' := Apply(c, m, Take); Shaped(c, m') && Bits(c, m')
  {
    hide Delivered, PartlyRead, Unread;
    Taken(c, m);
  }

  lemma TakeUnread(c: Config, m: Machine)
    requires Inv(c, m) && Legal(c, m, Take)
    ensures var m' := Apply(c, m, Take); Shaped(c, m') && Unread(c, m')
  {
    hide Delivered, PartlyRead, Bits, LinkTo;
    Taken(c, m);
  }

  lemma TakePartly(c: Config, m: Machine)
    requires Inv(c, m) && Legal(c, m, Take)
    ensures var m' := Apply(c, m, Take); Shaped(c, m') && PartlyWritten(c, m') && PartlyRead(c, m')
  {
    hide Bits, Unread, Delivered;
    Taken(c, m);
  }

  lemma TakeKeeps(c: Config, m: Machine)
    requires Inv(c, m) && Legal(c, m, Take)
    ensures Inv(c, Apply(c, m, Take))
  {
    hide Ahead, Bounded, Bits, Unread, Delivered, PartlyRead, PartlyWritten, Apply;
    TakeCounts(c, m);
    TakeBits(c, m);
    TakeUnread(c, m);
    TakePartly(c, m);
  }

  lemma StepKeeps(c: Config, m: Machine, step: Step)
    requires Inv(c, m) && Legal(c, m, step)
    ensures Inv(c, Apply(c, m, step))
  {
    hide Ahead, Bounded, Bits, Unread, Delivered, PartlyRead, Apply;
    match step
    case Push(t) => PushKeeps(c, m, t);
    case Write =>
      if m.producing.written < 3 {
        WriteWordKeeps(c, m);
      } else if m.producing.Data? {
        CommitKeeps(c, m);
      } else {
        LinkKeeps(c, m);
      }
    case Look => LookKeeps(c, m);
    case Read => ReadKeeps(c, m);
    case Take => TakeKeeps(c, m);
  }

  // ----- whole runs

  predicate LegalAll(c: Config, m: Machine, steps: seq<Step>)
    decreases |steps|
  {
    steps == [] || (Shaped(c, m) && Legal(c, m, steps[0]) && LegalAll(c, Apply(c, m, steps[0]), steps[1..]))
  }

  function ApplyAll(c: Config, m: Machine, steps: seq<Step>): Machine
    requires LegalAll(c, m, steps)
    decreases |steps|
  {
    if steps == [] then m else ApplyAll(c, Apply(c, m, steps[0]), steps[1..])
  }

  function Zeros(n: nat): (r: seq<TRB>)
    ensures |r| == n && forall i :: 0 <= i < n ==> r[i] == [0, 0, 0, 0]
  {
    if n == 0 then [] else Zeros(n - 1) + [[0, 0, 0, 0]]
  }

  function Initial(c: Config): Machine {
    Machine(Zeros(c.slots + if c.link then 1 else 0), 0, true, Idle, 0, 0, true, Looking, 0, [], [])
  }

  lemma InitialInv(c: Config)
    requires ValidConfig(c)
    ensures Inv(c, Initial(c))
  {
  }

  lemma {:induction false} RunKeeps(c: Config, m: Machine, steps: seq<Step>)
    requires Inv(c, m) && LegalAll(c, m, steps)
    ensures Inv(c, ApplyAll(c, m, steps))
    decreases |steps|
  {
    if steps != [] {
      StepKeeps(c, m, steps[0]);
      RunKeeps(c, Apply(c, m, steps[0]), steps[1..]);
    }
  }

  /** Any interleaving of the words' stores and loads, over any number of wraps: TRBs arrive whole and in order. */
  lemma ArrivesInOrder(c: Config, steps: seq<Step>)
    requires ValidConfig(c) && LegalAll(c, Initial(c), steps)
    ensures var m := ApplyAll(c, Initial(c), steps);
            && |m.delivered| <= |m.pushed|
            && (forall k :: 0 <= k < |m.delivered| ==> Same(m.delivered[k], m.pushed[k]))
            && m.consuming != Lost
  {
    InitialInv(c);
    RunKeeps(c, Initial(c), steps);
  }

  const TAKE_ONE: seq<Step> := [Look, Read, Read, Read, Take]

  /** The consumer's steps for one slot. */
  lemma TakeOne(c: Config, m: Machine)
    requires Inv(c, m) && m.consuming.Looking? && Cycle(m.buf[m.readIndex][3]) == m.expected
    ensures LegalAll(c, m, TAKE_ONE)
    ensures var r := m.(consuming := Reading(m.buf[m.readIndex][..3], m.buf[m.readIndex][3]));
            Inv(c, r) && Legal(c, r, Take) && ApplyAll(c, m, TAKE_ONE) == ConsumerTake(c, r)
  {
    hide Ahead, Bounded, Bits, Unread, Delivered, PartlyRead, PartlyWritten, ConsumerTake;
    var t := m.buf[m.readIndex];
    StepKeeps(c, m, Look);
    var m1 := Apply(c, m, Look);
    assert m1 == m.(consuming := Reading([], t[3]));
    ReadOne(c, m1, t, 0);
    var m2 := Apply(c, m1, Read);
    ReadOne(c, m2, t, 1);
    var m3 := Apply(c, m2, Read);
    ReadOne(c, m3, t, 2);
    var m4 := Apply(c, m3, Read);
    assert t[..3] == [t[0], t[1], t[2]];
    Unrolled(c, m, m1, m2, m3, m4);
  }

  lemma ReadOne(c: Config, m: Machine, t: TRB, n: nat)
    requires Inv(c, m) && n < 3 && m.consuming == Reading(t[..n], t[3]) && t == m.buf[m.readIndex]
    ensures Legal(c, m, Read) && Inv(c, Apply(c, m, Read))
    ensures Apply(c, m, Read) == m.(consuming := Reading(t[..n + 1], t[3]))
  {
    hide Ahead, Bounded, Bits, Unread, Delivered, PartlyRead, PartlyWritten;
    StepKeeps(c, m, Read);
    assert t[..n + 1] == t[..n] + [t[n]];
  }

  lemma Unrolled(c: Config, m: Machine, m1: Machine, m2: Machine, m3: Machine, m4: Machine)
    requires Shaped(c, m) && Legal(c, m, Look) && m1 == Apply(c, m, Look)
    requires Shaped(c, m1) && Legal(c, m1, Read) && m2 == Apply(c, m1, Read)
    requires Shaped(c, m2) && Legal(c, m2, Read) && m3 == Apply(c, m2, Read)
    requires Shaped(c, m3) && Legal(c, m3, Read) && m4 == Apply(c, m3, Read)
    requires Shaped(c, m4) && Legal(c, m4, Take)
    ensures LegalAll(c, m, TAKE_ONE) && ApplyAll(c, m, TAKE_ONE) == Apply(c, m4, Take)
  {
    hide Shaped, Legal, Apply;
    var s1: seq<Step>, s2: seq<Step> := [Read, Read, Read, Take], [Read, Read, Take];
    var s3: seq<Step>, s4: seq<Step> := [Read, Take], [Take];
    assert TAKE_ONE[1..] == s1 && s1[1..] == s2 && s2[1..] == s3 && s3[1..] == s4 && s4[1..] == [];
    assert LegalAll(c, m4, s4) && ApplyAll(c, m4, s4) == Apply(c, m4, Take);
    assert LegalAll(c, m3, s3) && ApplyAll(c, m3, s3) == Apply(c, m4, Take);
    assert LegalAll(c, m2, s2) && ApplyAll(c, m2, s2) == Apply(c, m4, Take);
    assert LegalAll(c, m1, s1) && ApplyAll(c, m1, s1) == Apply(c, m4, Take);
  }

  /** A consumer that looks finds the next TRB, behind a link at most; and it finds nothing when there is nothing. */
  lemma Progress(c: Config, m: Machine)
    requires Inv(c, m) && m.consuming.Looking? && Outstanding(m) > 0
    ensures LegalAll(c, m, TAKE_ONE)
    ensures var m' := ApplyAll(c, m, TAKE_ONE);
            Inv(c, m') && m'.consuming.Looking? && m'.pushed == m.pushed
            && (if m.readIndex < c.slots
                then |m'.delivered| == |m.delivered| + 1 && Same(m'.delivered[|m.delivered|], m.pushed[|m.delivered|])
                else m'.delivered == m.delivered && m'.readIndex == 0)
  {
    hide Bits, Unread, Delivered, PartlyRead, PartlyWritten, ApplyAll, LegalAll;
    SeesExactly(c, m);
    TakeOne(c, m);
    var r := m.(consuming := Reading(m.buf[m.readIndex][..3], m.buf[m.readIndex][3]));
    Taken(c, r);
    StepKeeps(c, r, Take);
  }

  // ----- why there must be room

  /** Producer steps until the push is done, n at most. */
  function Writes(c: Config, m: Machine, n: nat): Machine
    decreases n
  {
    if n == 0 || !Shaped(c, m) || m.producing.Idle? then m else Writes(c, ProducerStep(c, m), n - 1)
  }

  /** The slot and the TRB that the producer is writing. */
  function Target(c: Config, m: Machine): nat {
    if m.producing.Link? then c.slots else m.writeIndex
  }

  function Source(c: Config, m: Machine): TRB
    requires ValidConfig(c)
  {
    if m.producing.Data? then m.producing.trb else LinkTo(c.base)
  }

  /** One of the first three words. */
  lemma WordWritten(c: Config, m: Machine)
    requires Shaped(c, m) && !m.producing.Idle? && m.producing.written < 3
    ensures var m' := ProducerStep(c, m);
            && Shaped(c, m') && !m'.producing.Idle? && m'.producing.written == m.producing.written + 1
            && Target(c, m') == Target(c, m) && Source(c, m') == Source(c, m)
            && m' == m.(buf := PutWord(m.buf, Target(c, m), m.producing.written, Source(c, m)[m.producing.written]),
                        producing := m'.producing)
  {
  }

  /** The TRB is whole: what follows is private to the producer. */
  function Completed(c: Config, m: Machine, buf: seq<TRB>): Machine
    requires ValidConfig(c)
  {
    if m.producing.Data? then
      var next :=
        m.(buf := buf, writeIndex := m.writeIndex + 1, producing := Idle, pushed := m.pushed + [Source(c, m)]);
      if next.writeIndex < c.slots then next else if c.link then next.(producing := Link(0)) else Wrapped(next)
    else Wrapped(m.(buf := buf, producing := Idle))
  }

  /** Four stores are a whole TRB, with the producer's cycle bit. */
  lemma FourWrites(c: Config, m: Machine)
    requires Shaped(c, m) && !m.producing.Idle? && m.producing.written == 0
    ensures var t := Source(c, m);
            Writes(c, m, 4) == Completed(c, m, m.buf[Target(c, m) := t[3 := WithCycle(t[3], m.cycleBit)]])
  {
    var t, slot := Source(c, m), Target(c, m);
    WordWritten(c, m);
    var m1 := ProducerStep(c, m);
    WordWritten(c, m1);
    var m2 := ProducerStep(c, m1);
    WordWritten(c, m2);
    var m3 := ProducerStep(c, m2);
    var done := t[3 := WithCycle(t[3], m.cycleBit)];
    assert m3.buf[slot][3 := done[3]] == done;
    assert PutWord(m3.buf, slot, 3, done[3]) == m.buf[slot := done];
    assert ProducerStep(c, m3) == Completed(c, m, m.buf[slot := done]);
    assert Writes(c, m, 4) == Writes(c, m1, 3) == Writes(c, m2, 2) == Writes(c, m3, 1);
  }

  /** The stores of a whole push, and of the link's TRB if it is due. */
  function Pushed(c: Config, m: Machine, t: TRB): Machine {
    Writes(c, Writes(c, m.(producing := Data(t, 0)), 4), 4)
  }

  lemma PushedIs(c: Config, m: Machine, t: TRB)
    requires Shaped(c, m) && c.link && m.producing.Idle? && m.writeIndex < c.slots
    ensures var buf := m.buf[m.writeIndex := t[3 := WithCycle(t[3], m.cycleBit)]];
            var link := LinkTo(c.base)[3 := WithCycle(LinkTo(c.base)[3], m.cycleBit)];
            var next := m.(pushed := m.pushed + [t]);
            Pushed(c, m, t) == if m.writeIndex + 1 < c.slots then next.(buf := buf, writeIndex := m.writeIndex + 1)
                               else Wrapped(next.(buf := buf[c.slots := link]))
  {
    hide WithCycle, LinkTo;
    var m0 := m.(producing := Data(t, 0));
    FourWrites(c, m0);
    var m1 := Writes(c, m0, 4);
    if m.writeIndex + 1 < c.slots {
      assert m1.producing.Idle?;
    } else {
      assert m1.producing == Link(0);
      FourWrites(c, m1);
    }
  }

  /**
   * One TRB more than the invariant allows: with buf_size - 2 TRBs in the ring, another push leaves the consumer seeing
   * what is there if and only if it does not stand at the link, whose cycle bit the push turns.
   */
  lemma OneTooMany(c: Config, m: Machine, t: TRB)
    requires Inv(c, m) && c.link && m.producing.Idle? && m.consuming.Looking? && Outstanding(m) == c.slots - 1
    ensures var m' := Pushed(c, m, t);
            && Shaped(c, m') && m'.producing.Idle? && m'.consuming.Looking? && Outstanding(m') == c.slots
            && (Cycle(m'.buf[m'.readIndex][3]) == m'.expected <==> m.readIndex < c.slots)
            && (Apply(c, m', Look) == m' <==> m.readIndex == c.slots)
  {
    hide Unread, Delivered, PartlyRead, PartlyWritten, Pushed, LinkTo;
    PushedIs(c, m, t);
    SeesExactly(c, m);
  }

  lemma {:induction false} LegalJoin(c: Config, m: Machine, a: seq<Step>, b: seq<Step>)
    requires LegalAll(c, m, a) && LegalAll(c, ApplyAll(c, m, a), b)
    ensures LegalAll(c, m, a + b) && ApplyAll(c, m, a + b) == ApplyAll(c, ApplyAll(c, m, a), b)
    decreases |a|
  {
    hide Shaped, Legal, Apply;
    if a == [] {
      assert a + b == b;
    } else {
      assert (a + b)[1..] == a[1..] + b;
      LegalJoin(c, Apply(c, m, a[0]), a[1..], b);
    }
  }

  /** How many stores are missing. */
  function Missing(m: Machine): int {
    match m.producing
    case Idle => 0
    case Data(_, n) => 8 - n
    case Link(n) => 4 - n
  }

  ghost predicate SameConsumer(m: Machine, m': Machine) {
    && m'.readIndex == m.readIndex && m'.readLaps == m.readLaps && m'.consuming == m.consuming
    && m'.delivered == m.delivered
  }

  /** The producer can always finish what it is writing. */
  lemma {:induction false} Finish(c: Config, m: Machine) returns (steps: seq<Step>)
    requires Inv(c, m)
    ensures LegalAll(c, m, steps)
    ensures var m' := ApplyAll(c, m, steps);
            && Inv(c, m') && m'.producing.Idle? && SameConsumer(m, m')
            && |m'.pushed| == |m.pushed| + (if m.producing.Data? then 1 else 0)
    decreases Missing(m)
  {
    hide Ahead, Bounded, Bits, Unread, Delivered, PartlyRead, PartlyWritten;
    if m.producing.Idle? {
      steps := [];
    } else {
      StepKeeps(c, m, Write);
      var rest := Finish(c, Apply(c, m, Write));
      steps := [Write] + rest;
    }
  }

  /** A push that there is room for. */
  lemma PushOne(c: Config, m: Machine, t: TRB) returns (steps: seq<Step>)
    requires Inv(c, m) && m.producing.Idle? && !IsLink(t) && Outstanding(m) + 1 <= c.slots - 1
    ensures LegalAll(c, m, steps)
    ensures var m' := ApplyAll(c, m, steps);
            Inv(c, m') && m'.producing.Idle? && SameConsumer(m, m') && |m'.pushed| == |m.pushed| + 1
  {
    hide Ahead, Bounded, Bits, Unread, Delivered, PartlyRead, PartlyWritten;
    StepKeeps(c, m, Push(t));
    var rest := Finish(c, Apply(c, m, Push(t)));
    steps := [Push(t)] + rest;
  }

  /** Nothing in the ring, and the consumer at slot i of its first lap. */
  ghost predicate EmptyAt(c: Config, m: Machine, i: nat) {
    && Inv(c, m) && m.producing.Idle? && m.consuming.Looking? && Outstanding(m) == 0
    && m.readIndex == i && m.readLaps == 0
  }

  /** Pushing and taking one TRB. */
  lemma OneRound(c: Config, m: Machine, t: TRB, i: nat) returns (steps: seq<Step>)
    requires c.link && EmptyAt(c, m, i) && i < c.slots && !IsLink(t)
    ensures LegalAll(c, m, steps) && EmptyAt(c, ApplyAll(c, m, steps), i + 1)
  {
    hide Ahead, Bounded, Bits, Unread, Delivered, PartlyRead, PartlyWritten, ApplyAll, LegalAll;
    var push := PushOne(c, m, t);
    var m1 := ApplyAll(c, m, push);
    SeesExactly(c, m1);
    TakeOne(c, m1);
    var r := m1.(consuming := Reading(m1.buf[i][..3], m1.buf[i][3]));
    Taken(c, r);
    StepKeeps(c, r, Take);
    LegalJoin(c, m, push, TAKE_ONE);
    steps := push + TAKE_ONE;
  }

  lemma {:induction false} Rounds(c: Config, m: Machine, t: TRB, i: nat) returns (steps: seq<Step>)
    requires c.link && EmptyAt(c, m, i) && i <= c.slots && !IsLink(t)
    ensures LegalAll(c, m, steps) && EmptyAt(c, ApplyAll(c, m, steps), c.slots)
    decreases c.slots - i
  {
    hide EmptyAt, Inv;
    if i == c.slots {
      steps := [];
    } else {
      var round := OneRound(c, m, t, i);
      var rest := Rounds(c, ApplyAll(c, m, round), t, i + 1);
      LegalJoin(c, m, round, rest);
      steps := round + rest;
    }
  }

  lemma {:induction false} Fills(c: Config, m: Machine, t: TRB, n: nat) returns (steps: seq<Step>)
    requires Inv(c, m) && m.producing.Idle? && !IsLink(t) && Outstanding(m) + n == c.slots - 1
    ensures LegalAll(c, m, steps)
    ensures var m' := ApplyAll(c, m, steps);
            Inv(c, m') && m'.producing.Idle? && SameConsumer(m, m') && Outstanding(m') == c.slots - 1
    decreases n
  {
    hide Inv;
    if n == 0 {
      steps := [];
    } else {
      var push := PushOne(c, m, t);
      var rest := Fills(c, ApplyAll(c, m, push), t, n - 1);
      LegalJoin(c, m, push, rest);
      steps := push + rest;
    }
  }

  /**
   * That can happen on every ring: from its beginning, with room for every push, a run leads to buf_size - 2 TRBs
   * in the ring and the consumer at the link; after one push more the ring is full and its consumer sees nothing.
   */
  lemma OneTooManyReached(c: Config, t: TRB) returns (steps: seq<Step>)
    requires ValidConfig(c) && c.link && !IsLink(t)
    ensures LegalAll(c, Initial(c), steps)
    ensures var m := ApplyAll(c, Initial(c), steps);
            var m' := Pushed(c, m, t);
            && Inv(c, m) && Shaped(c, m') && m'.consuming.Looking?
            && Outstanding(m) == c.slots - 1 && Outstanding(m') == c.slots && Apply(c, m', Look) == m'
  {
    hide Inv, Pushed;
    assert EmptyAt(c, Initial(c), 0) by { InitialInv(c); }
    var rounds := Rounds(c, Initial(c), t, 0);
    var m := ApplyAll(c, Initial(c), rounds);
    var fill := Fills(c, m, t, c.slots - 1);
    LegalJoin(c, Initial(c), rounds, fill);
    steps := rounds + fill;
    OneTooMany(c, ApplyAll(c, m, fill), t);
  }

  // ----- the classes

  /** The producer's class. */
  class Ring {
    const buf: array<TRB>
    const base: nat
    var cycleBit: bool
    var writeIndex: nat

    /** Initialize. */
    constructor (bufSize: nat, base: nat)
      requires bufSize >= 3 && base < 0x1_0000_0000 * 0x1_0000_0000
      ensures buf.Length == bufSize && this.base == base && fresh(buf) && Holds(Initial(Layout()))
    {
      var zeros := Zeros(bufSize);
      buf := new TRB[bufSize](i requires 0 <= i < |zeros| => zeros[i]);
      this.base := base;
      cycleBit, writeIndex := true, 0;
      new;
      assert buf[..] == zeros;
    }

    function Layout(): Config
      reads this
    {
      Config(if buf.Length == 0 then 0 else buf.Length - 1, true, base)
    }

    /** The object is the producer's side of m. */
    ghost predicate Holds(m: Machine)
      reads this, buf
    {
      buf.Length >= 3 && Shaped(Layout(), m) && buf[..] == m.buf && cycleBit == m.cycleBit && writeIndex == m.writeIndex
    }

    /** CopyToLast: the trace is the memory after each store; each is one step of the machine. */
    method CopyToLast(data: TRB, ghost m: Machine) returns (ghost trace: seq<seq<TRB>>)
      requires Holds(m) && !m.producing.Idle? && m.producing.written == 0
      requires data == Source(Layout(), m) && writeIndex == Target(Layout(), m)
      modifies buf
      ensures buf[..] == Writes(Layout(), m, 4).buf && |trace| == 4
      ensures forall i :: 0 <= i < 4 ==> trace[i] == Writes(Layout(), m, i + 1).buf
    {
      hide WithCycle, LinkTo, Writes, ProducerStep, Source, Target;
      ghost var c, st := Layout(), m;
      WritesNone(c, m);
      trace := [];
      var i: nat := 0;
      while i < 3
        invariant i <= 3 && |trace| == i
        invariant Shaped(c, st) && !st.producing.Idle? && st.producing.written == i && buf[..] == st.buf
        invariant Target(c, st) == writeIndex && Source(c, st) == data && st.cycleBit == m.cycleBit
        invariant st == Writes(c, m, i) && forall k :: 0 <= k < i ==> trace[k] == Writes(c, m, k + 1).buf
      {
        WordWritten(c, st);
        WritesNext(c, m, i);
        ghost var before := buf[..];
        buf[writeIndex] := buf[writeIndex][i := data[i]];
        st := ProducerStep(c, st);
        assert buf[..] == PutWord(before, writeIndex, i, data[i]);
        trace := trace + [buf[..]];
        i := i + 1;
      }
      WritesNext(c, m, 3);
      LastWord(c, st);
      ghost var before := buf[..];
      buf[writeIndex] := buf[writeIndex][3 := WithCycle(data[3], cycleBit)];
      assert buf[..] == PutWord(before, writeIndex, 3, WithCycle(data[3], cycleBit));
      trace := trace + [buf[..]];
    }

    /** Push: the stores of the data TRB, then at the ring's end those of the link, and the index of the TRB. */
    method Push(data: TRB, ghost m: Machine) returns (index: nat, ghost trace: seq<seq<TRB>>, ghost m': Machine)
      requires Holds(m) && m.producing.Idle? && m.writeIndex < Layout().slots
      modifies this`writeIndex, this`cycleBit, buf
      ensures index == old(writeIndex) && Holds(m') && m'.producing.Idle?
      ensures m' == Writes(Layout(), m.(producing := Data(data, 0)), 8) && m'.pushed == m.pushed + [data]
      ensures |trace| <= 8 && m' == Writes(Layout(), m.(producing := Data(data, 0)), |trace|)
      ensures forall i :: 0 <= i < |trace| ==> trace[i] == Writes(Layout(), m.(producing := Data(data, 0)), i + 1).buf
    {
      hide Writes, WithCycle;
      ghost var c, st := Layout(), m.(producing := Data(data, 0));
      index := writeIndex;
      FourWrites(c, st);
      trace := CopyToLast(data, st);
      m' := Writes(c, st, 4);
      writeIndex := writeIndex + 1;
      if writeIndex == buf.Length - 1 {
        var link := LinkTo(base);
        FourWrites(c, m');
        ghost var more := CopyToLast(link, m');
        forall k: nat | k <= 4 ensures Writes(c, st, 4 + k) == Writes(c, m', k) {
          WritesAdd(c, st, 4, k);
        }
        trace := trace + more;
        m' := Writes(c, m', 4);
        writeIndex := 0;
        cycleBit := !cycleBit;
      } else {
        WritesDone(c, st);
      }
    }
  }

  lemma WritesNone(c: Config, m: Machine)
    ensures Writes(c, m, 0) == m
  {
  }

  lemma LastWord(c: Config, m: Machine)
    requires Shaped(c, m) && !m.producing.Idle? && m.producing.written == 3
    ensures ProducerStep(c, m).buf == PutWord(m.buf, Target(c, m), 3, WithCycle(Source(c, m)[3], m.cycleBit))
  {
  }

  lemma {:induction false} WritesNext(c: Config, m: Machine, n: nat)
    ensures Shaped(c, Writes(c, m, n)) && !Writes(c, m, n).producing.Idle? ==>
              Writes(c, m, n + 1) == ProducerStep(c, Writes(c, m, n))
    decreases n
  {
    hide ProducerStep;
    if n > 0 && Shaped(c, m) && !m.producing.Idle? {
      WritesNext(c, ProducerStep(c, m), n - 1);
    }
  }

  lemma {:induction false} WritesAdd(c: Config, m: Machine, n: nat, k: nat)
    ensures Writes(c, m, n + k) == Writes(c, Writes(c, m, n), k)
    decreases n
  {
    hide ProducerStep;
    if n > 0 && Shaped(c, m) && !m.producing.Idle? {
      WritesAdd(c, ProducerStep(c, m), n - 1, k);
    }
  }

  lemma WritesDone(c: Config, m: Machine)
    requires Writes(c, m, 4).producing.Idle?
    ensures Writes(c, m, 8) == Writes(c, m, 4)
  {
    WritesAdd(c, m, 4, 4);
  }

  /** The consumer's class, for an event ring: its producer is the controller. */
  class EventRing {
    const buf: array<TRB>
    var cycleBit: bool
    var dequeue: nat

    /** Initialize. */
    constructor (bufSize: nat)
      requires bufSize >= 2
      ensures buf.Length == bufSize && fresh(buf) && Holds(Initial(Layout()))
    {
      var zeros := Zeros(bufSize);
      buf := new TRB[bufSize](i requires 0 <= i < |zeros| => zeros[i]);
      cycleBit, dequeue := true, 0;
      new;
      assert buf[..] == zeros;
    }

    function Layout(): Config
      reads this
    {
      Config(buf.Length, false, 0)
    }

    /** The object is the consumer's side of m. */
    ghost predicate Holds(m: Machine)
      reads this, buf
    {
      buf.Length >= 2 && Inv(Layout(), m) && buf[..] == m.buf && cycleBit == m.expected && dequeue == m.readIndex
      && m.consuming.Looking?
    }

    /** HasFront: there is an event exactly when one is outstanding. */
    method HasFront(ghost m: Machine) returns (has: bool)
      requires Holds(m)
      ensures has <==> Outstanding(m) > 0
    {
      SeesExactly(Layout(), m);
      has := Cycle(buf[dequeue][3]) == cycleBit;
    }

    /** Front: the oldest outstanding event. */
    method Front(ghost m: Machine) returns (t: TRB)
      requires Holds(m) && Outstanding(m) > 0
      ensures Same(t, m.pushed[|m.delivered|])
    {
      t := buf[dequeue];
      assert SlotOf(Layout(), m, |m.delivered|) == m.readIndex;
    }

    /** Pop: that event is delivered. */
    method Pop(ghost m: Machine) returns (ghost m': Machine)
      requires Holds(m) && Outstanding(m) > 0
      modifies this`dequeue, this`cycleBit
      ensures LegalAll(Layout(), m, TAKE_ONE) && m' == ApplyAll(Layout(), m, TAKE_ONE) && Holds(m')
      ensures |m'.delivered| == |m.delivered| + 1 && Same(m'.delivered[|m.delivered|], m.pushed[|m.delivered|])
    {
      hide Ahead, Bounded, Bits, Unread, Delivered, PartlyRead, PartlyWritten, LegalAll, ApplyAll;
      EventTaken(Layout(), m);
      m' := ApplyAll(Layout(), m, TAKE_ONE);
      var p := dequeue + 1;
      if p == buf.Length {
        p := 0;
        cycleBit := !cycleBit;
      }
      dequeue := p;
    }
  }

  /** Without a link, taking an event moves to the next slot, around the end. */
  lemma EventTaken(c: Config, m: Machine)
    requires Inv(c, m) && !c.link && m.consuming.Looking? && Outstanding(m) > 0
    ensures LegalAll(c, m, TAKE_ONE)
    ensures var m' := ApplyAll(c, m, TAKE_ONE);
            && Inv(c, m') && m' == Popped(c, m.(delivered := m.delivered + [m.buf[m.readIndex]]))
            && Same(m'.delivered[|m.delivered|], m.pushed[|m.delivered|])
  {
    hide Bits, Unread, Delivered, PartlyRead, PartlyWritten, ApplyAll, LegalAll, Ahead, Same, Cycle, Even, IsLink,
      Toggles, Apply;
    SeesExactly(c, m);
    TakeOne(c, m);
    Progress(c, m);
    var t := m.buf[m.readIndex];
    assert t[..3] + [t[3]] == t;
  }
}
