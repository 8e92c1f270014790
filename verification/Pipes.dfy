/** Pipes between tasks (kernel/terminal.cpp:1003-1066): a byte stream in messages of at most 16 bytes. */
module Pipes {
  import opened Common

  const PAYLOAD: nat := 16

  /** Messages of the reading task; a pipe message without bytes ends the stream. */
  datatype TaskMessage = Pipe(payload: seq<Byte>) | Other

  /**
   * The reader's mailbox, what it has left of the last message, and whether it has seen the end; and for the theorems,
   * what was written before the end, what was read, and whether the end was written.
   */
  datatype State = State(msgs: seq<TaskMessage>, left: seq<Byte>, closed: bool,
                         written: seq<Byte>, read: seq<Byte>, finished: bool)

  /** One critical section each: chunks of a Write, other messages to the task, FinishWrite, and calls of Read. */
  datatype Event = Send(payload: seq<Byte>) | SendOther | Finish | Read(len: nat)

  predicate Legal(e: Event) {
    e.Send? ==> 0 < |e.payload| <= PAYLOAD
  }

  // ----- what the calls do

  function Sent(s: State, payload: seq<Byte>): State {
    s.(msgs := s.msgs + [Pipe(payload)],
       written := if s.finished then s.written else s.written + payload,
       finished := s.finished || payload == [])
  }

  /** Read's loop: messages of other types are dropped; None if the task goes to sleep. */
  function Receive(s: State, len: nat): (State, Option<seq<Byte>>)
    decreases |s.msgs|
  {
    if s.msgs == [] then (s, None)
    else
      var rest := s.(msgs := s.msgs[1..]);
      match s.msgs[0]
      case Other => Receive(rest, len)
      case Pipe(p) =>
        if p == [] then (rest.(closed := true), Some([]))
        else
          var n := Min(|p|, len);
          (rest.(left := p[n..], read := s.read + p[..n]), Some(p[..n]))
  }

  function ReadOnce(s: State, len: nat): (State, Option<seq<Byte>>) {
    if s.left != [] then
      var n := Min(|s.left|, len);
      (s.(left := s.left[n..], read := s.read + s.left[..n]), Some(s.left[..n]))
    else if s.closed then (s, Some([]))
    else Receive(s, len)
  }

  function Apply(s: State, e: Event): State {
    match e
    case Send(payload) => Sent(s, payload)
    case SendOther => s.(msgs := s.msgs + [Other])
    case Finish => Sent(s, [])
    case Read(len) => ReadOnce(s, len).0
  }

  // ----- conservation

  /** Whether the end of the stream is in the mailbox. */
  predicate HasEnd(msgs: seq<TaskMessage>) {
    Pipe([]) in msgs
  }

  /** The bytes in the mailbox before the end of the stream. */
  function Queued(msgs: seq<TaskMessage>): seq<Byte> {
    if msgs == [] || msgs[0] == Pipe([]) then []
    else (if msgs[0].Pipe? then msgs[0].payload else []) + Queued(msgs[1..])
  }

  predicate Small(msgs: seq<TaskMessage>) {
    forall i :: 0 <= i < |msgs| && msgs[i].Pipe? ==> |msgs[i].payload| <= PAYLOAD
  }

  predicate Inv(s: State) {
    && |s.left| <= PAYLOAD && Small(s.msgs)
    && (s.closed ==> s.finished && s.left == [] && s.read == s.written)
    && (!s.closed ==> (s.finished <==> HasEnd(s.msgs)) && s.written == s.read + s.left + Queued(s.msgs))
  }

  lemma {:induction false} QueuedAppend(msgs: seq<TaskMessage>, m: TaskMessage)
    ensures Queued(msgs + [m]) == if HasEnd(msgs) || m == Other then Queued(msgs) else Queued(msgs) + m.payload
  {
    if msgs == [] {
      assert msgs + [m] == [m] && [m][1..] == [];
    } else {
      assert (msgs + [m])[1..] == msgs[1..] + [m];
      QueuedAppend(msgs[1..], m);
      assert HasEnd(msgs) <==> msgs[0] == Pipe([]) || HasEnd(msgs[1..]);
    }
  }

  lemma SendKeeps(s: State, payload: seq<Byte>)
    requires Inv(s) && |payload| <= PAYLOAD
    ensures Inv(Sent(s, payload))
  {
    hide Queued, HasEnd;
    QueuedAppend(s.msgs, Pipe(payload));
    HasEndAppend(s.msgs, Pipe(payload));
    assert s.read + s.left + (Queued(s.msgs) + payload) == (s.read + s.left + Queued(s.msgs)) + payload;
  }

  lemma HasEndAppend(msgs: seq<TaskMessage>, m: TaskMessage)
    ensures HasEnd(msgs + [m]) <==> HasEnd(msgs) || m == Pipe([])
  {
  }

  lemma OtherKeeps(s: State)
    requires Inv(s)
    ensures Inv(s.(msgs := s.msgs + [Other]))
  {
    hide Queued, HasEnd;
    QueuedAppend(s.msgs, Other);
    HasEndAppend(s.msgs, Other);
  }

  /** The bytes of the first pipe message, if there is one. */
  function FirstPipe(msgs: seq<TaskMessage>): Option<seq<Byte>> {
    if msgs == [] then None else if msgs[0].Pipe? then Some(msgs[0].payload) else FirstPipe(msgs[1..])
  }

  /** What a call of Read takes its bytes from: never from two messages. */
  function Next(s: State): Option<seq<Byte>> {
    if s.left != [] then Some(s.left) else if s.closed then Some([]) else FirstPipe(s.msgs)
  }

  /** What a call of Read gives, when it returns. Without a message it goes to sleep. */
  predicate Gives(s: State, s': State, len: nat, r: Option<seq<Byte>>) {
    && s'.written == s.written && s'.finished == s.finished && (r.Some? <==> Next(s).Some?)
    && match r {
         case None => s'.read == s.read && s'.left == [] && Queued(s'.msgs) == [] && !s.finished
         case Some(bytes) => s'.read == s.read + bytes && |bytes| == Min(len, |Next(s).value|)
       }
  }

  lemma {:induction false} ReceiveKeeps(s: State, len: nat)
    requires Inv(s) && s.left == [] && !s.closed
    ensures var (s', r) := Receive(s, len); Inv(s') && Gives(s, s', len, r)
    decreases |s.msgs|
  {
    hide Receive, Queued, HasEnd, Small, FirstPipe;
    InvSmall(s);
    ReceiveStep(s, len);
    FirstStep(s.msgs);
    MailboxStep(s.msgs);
    if s.msgs != [] {
      var rest := s.(msgs := s.msgs[1..]);
      match s.msgs[0]
      case Other => ReceiveKeeps(rest, len);
      case Pipe(p) =>
        if p != [] {
          PartTaken(s.read, p, Min(|p|, len), Queued(rest.msgs));
        }
    }
  }

  /** The next message is the end exactly when everything before the end has been read. */
  lemma {:induction false} ReceiveEnd(s: State, len: nat)
    requires Inv(s) && s.left == [] && !s.closed
    ensures Receive(s, len).1 == Some([]) && len > 0 ==> s.finished && s.read == s.written
    ensures s.finished && s.read == s.written ==> Receive(s, len).1 == Some([])
    decreases |s.msgs|
  {
    hide Receive, Queued, HasEnd, Small;
    InvSmall(s);
    ReceiveStep(s, len);
    MailboxStep(s.msgs);
    if s.msgs != [] {
      var rest := s.(msgs := s.msgs[1..]);
      match s.msgs[0]
      case Other => ReceiveEnd(rest, len);
      case Pipe(p) =>
        if p != [] {
          NotAllRead(s.read, p, Queued(rest.msgs));
        }
    }
  }

  lemma FirstStep(msgs: seq<TaskMessage>)
    ensures FirstPipe(msgs) == if msgs == [] then None else if msgs[0].Pipe? then Some(msgs[0].payload)
                               else FirstPipe(msgs[1..])
  {
  }

  lemma PartTaken(read: seq<Byte>, p: seq<Byte>, n: nat, more: seq<Byte>)
    requires n <= |p|
    ensures read + [] + (p + more) == (read + p[..n]) + p[n..] + more
  {
    assert p == p[..n] + p[n..];
  }

  lemma NotAllRead(read: seq<Byte>, p: seq<Byte>, more: seq<Byte>)
    requires p != []
    ensures read + [] + (p + more) != read
  {
    assert |read + [] + (p + more)| > |read|;
  }

  lemma MailboxStep(msgs: seq<TaskMessage>)
    ensures msgs == [] ==> Queued(msgs) == [] && !HasEnd(msgs)
    ensures msgs != [] && msgs[0] == Pipe([]) ==> Queued(msgs) == [] && HasEnd(msgs)
    ensures msgs != [] && msgs[0] == Other ==>
              Queued(msgs) == Queued(msgs[1..]) && (HasEnd(msgs) <==> HasEnd(msgs[1..]))
    ensures msgs != [] && msgs[0].Pipe? && msgs[0].payload != [] ==>
              Queued(msgs) == msgs[0].payload + Queued(msgs[1..]) && (HasEnd(msgs) <==> HasEnd(msgs[1..]))
  {
  }

  lemma ReadKeeps(s: State, len: nat)
    requires Inv(s)
    ensures var (s', r) := ReadOnce(s, len); Inv(s') && Gives(s, s', len, r)
  {
    if s.left != [] {
      var n := Min(|s.left|, len);
      assert s.left == s.left[..n] + s.left[n..];
      assert s.read + s.left + Queued(s.msgs) == (s.read + s.left[..n]) + s.left[n..] + Queued(s.msgs);
    } else if !s.closed {
      ReceiveKeeps(s, len);
    }
  }

  lemma EventKeeps(s: State, e: Event)
    requires Inv(s) && Legal(e)
    ensures Inv(Apply(s, e))
  {
    match e
    case Send(payload) => SendKeeps(s, payload);
    case SendOther => OtherKeeps(s);
    case Finish => SendKeeps(s, []);
    case Read(len) => ReadKeeps(s, len);
  }

  /**
   * End of stream: a read of at least one byte returns nothing exactly when the end has been written and everything
   * before it has been read.
   */
  lemma EndExactly(s: State, len: nat)
    requires Inv(s) && len > 0
    ensures ReadOnce(s, len).1 == Some([]) <==> s.finished && s.read == s.written
  {
    if s.left == [] && !s.closed {
      ReceiveEnd(s, len);
    }
  }

  /** A read of no bytes returns nothing at any time: it must not be taken for the end. */
  lemma ZeroRead(payload: seq<Byte>)
    requires payload != []
    ensures var s := Sent(Initial(), payload); ReadOnce(s, 0).1 == Some([]) && !s.finished
  {
  }

  function Initial(): State {
    State([], [], false, [], [], false)
  }

  function Run(s: State, events: seq<Event>): State
    decreases |events|
  {
    if events == [] then s else Run(Apply(s, events[0]), events[1..])
  }

  lemma {:induction false} RunKeeps(s: State, events: seq<Event>)
    requires Inv(s) && forall i :: 0 <= i < |events| ==> Legal(events[i])
    ensures Inv(Run(s, events))
    decreases |events|
  {
    if events != [] {
      EventKeeps(s, events[0]);
      RunKeeps(Apply(s, events[0]), events[1..]);
    }
  }

  /** Over any run, nothing is lost, doubled or reordered: what was read is the beginning of what was written. */
  lemma Conservation(events: seq<Event>)
    requires forall i :: 0 <= i < |events| ==> Legal(events[i])
    ensures var s := Run(Initial(), events);
            && s.read <= s.written
            && (!s.closed ==> s.written == s.read + s.left + Queued(s.msgs))
            && (s.closed ==> s.finished && s.read == s.written)
  {
    hide Run, Inv, Initial, Queued;
    InitialInv();
    RunKeeps(Initial(), events);
    InvSays(Run(Initial(), events));
  }

  lemma InitialInv()
    ensures Inv(Initial())
  {
  }

  lemma InvSays(s: State)
    requires Inv(s)
    ensures s.read <= s.written
    ensures !s.closed ==> s.written == s.read + s.left + Queued(s.msgs)
    ensures s.closed ==> s.finished && s.read == s.written
  {
    hide Queued, HasEnd;
    if !s.closed {
      assert s.read + s.left + Queued(s.msgs) == s.read + (s.left + Queued(s.msgs));
    }
  }

  // ----- Write divides its bytes

  /** The messages of one Write. */
  function Chunks(buf: seq<Byte>): (r: seq<seq<Byte>>)
    ensures forall i :: 0 <= i < |r| ==> 0 < |r[i]| <= PAYLOAD
    ensures forall i :: 0 <= i < |r| - 1 ==> |r[i]| == PAYLOAD
    decreases |buf|
  {
    if buf == [] then []
    else
      var n := Min(|buf|, PAYLOAD);
      [buf[..n]] + Chunks(buf[n..])
  }

  function SentAll(s: State, chunks: seq<seq<Byte>>): State
    decreases |chunks|
  {
    if chunks == [] then s else SentAll(Sent(s, chunks[0]), chunks[1..])
  }

  /** A Write adds exactly its bytes to what was written. */
  lemma {:induction false} WriteAdds(s: State, buf: seq<Byte>)
    requires Inv(s) && !s.finished
    ensures var s' := SentAll(s, Chunks(buf));
            Inv(s') && !s'.finished && s'.written == s.written + buf && s'.read == s.read
    decreases |buf|
  {
    hide Inv, SentAll, Chunks;
    if buf == [] {
      NoChunks(s);
    } else {
      var n := Min(|buf|, PAYLOAD);
      SendKeeps(s, buf[..n]);
      NextChunk(s, buf);
      WriteAdds(Sent(s, buf[..n]), buf[n..]);
      assert buf == buf[..n] + buf[n..];
      assert s.written + (buf[..n] + buf[n..]) == (s.written + buf[..n]) + buf[n..];
    }
  }

  class PipeDescriptor {
    var msgs: seq<TaskMessage>
    const data: array<Byte>
    var len: nat
    var closed: bool
    ghost var written: seq<Byte>
    ghost var read: seq<Byte>
    ghost var finished: bool

    constructor ()
      ensures fresh(data) && Valid() && AsState() == Initial()
    {
      data := new Byte[PAYLOAD](_ => 0);
      msgs, len, closed := [], 0, false;
      written, read, finished := [], [], false;
    }

    ghost predicate Valid()
      reads this, data
    {
      data.Length == PAYLOAD && len <= PAYLOAD && Inv(AsState())
    }

    ghost function AsState(): State
      reads this, data
    {
      State(msgs, if len <= data.Length then data[..len] else [], closed, written, read, finished)
    }

    /** memcpy or memmove to the beginning of data_. */
    method Keep(bytes: seq<Byte>)
      requires data.Length == PAYLOAD && |bytes| <= PAYLOAD
      modifies this`len, data
      ensures len == |bytes| && data[..len] == bytes
    {
      len := |bytes|;
      forall i | 0 <= i < len {
        data[i] := bytes[i];
      }
    }

    /** Read; None stands for going to sleep, to be called again when there are messages. */
    method Read(size: nat) returns (r: Option<seq<Byte>>)
      requires Valid()
      modifies this, data
      ensures Valid() && (AsState(), r) == ReadOnce(old(AsState()), size)
    {
      hide Inv, Receive, Small;
      ReadKeeps(AsState(), size);
      ghost var before := AsState();
      if len > 0 {
        var copyBytes := Min(len, size);
        r := Some(data[..copyBytes]);
        read := read + data[..copyBytes];
        assert data[copyBytes..len] == before.left[copyBytes..] && data[..copyBytes] == before.left[..copyBytes];
        Keep(data[copyBytes..len]);
        return;
      }
      if closed {
        return Some([]);
      }
      assert Small(msgs) by {
        InvSmall(before);
      }
      while msgs != []
        invariant Small(msgs) && len == 0
        invariant AsState() == before.(msgs := msgs) && Receive(AsState(), size) == Receive(before, size)
        decreases |msgs|
      {
        ReceiveStep(AsState(), size);
        var msg := msgs[0];
        msgs := msgs[1..];
        if msg == Other {
          continue;
        }
        if |msg.payload| == 0 {
          closed := true;
          return Some([]);
        }
        var copyBytes := Min(|msg.payload|, size);
        r := Some(msg.payload[..copyBytes]);
        read := read + msg.payload[..copyBytes];
        Keep(msg.payload[copyBytes..]);
        return;
      }
      ReceiveStep(AsState(), size);
      r := None;
    }

    /** Write: messages of at most 16 bytes. */
    method Write(buf: seq<Byte>) returns (size: nat)
      requires Valid()
      modifies this
      ensures Valid() && AsState() == SentAll(old(AsState()), Chunks(buf)) && size == |buf|
    {
      hide Inv, Sent, SentAll, Chunks;
      var sent: nat := 0;
      ghost var before := AsState();
      assert buf[0..] == buf;
      while sent < |buf|
        invariant sent <= |buf| && Valid()
        invariant SentAll(AsState(), Chunks(buf[sent..])) == SentAll(before, Chunks(buf))
      {
        var n := Min(|buf| - sent, PAYLOAD);
        ghost var rest := buf[sent..];
        assert buf[sent..sent + n] == rest[..n] && buf[sent + n..] == rest[n..];
        NextChunk(AsState(), rest);
        SendKeeps(AsState(), rest[..n]);
        SendMessage(buf[sent..sent + n]);
        sent := sent + n;
      }
      assert buf[sent..] == [];
      NoChunks(AsState());
      return |buf|;
    }

    method FinishWrite()
      requires Valid()
      modifies this
      ensures Valid() && AsState() == Sent(old(AsState()), [])
    {
      SendKeeps(AsState(), []);
      SendMessage([]);
    }

    method SendMessage(payload: seq<Byte>)
      requires Valid() && Inv(Sent(AsState(), payload))
      modifies this
      ensures Valid() && AsState() == Sent(old(AsState()), payload)
    {
      msgs := msgs + [Pipe(payload)];
      if !finished {
        written := written + payload;
      }
      finished := finished || payload == [];
    }
  }

  lemma InvSmall(s: State)
    requires Inv(s)
    ensures Small(s.msgs)
  {
  }

  /** One message of Read's loop. */
  lemma ReceiveStep(s: State, len: nat)
    requires Small(s.msgs)
    ensures s.msgs == [] ==> Receive(s, len) == (s, None)
    ensures s.msgs != [] ==>
              var m, rest := s.msgs[0], s.(msgs := s.msgs[1..]);
              && Small(rest.msgs) && (m.Pipe? ==> |m.payload| <= PAYLOAD)
              && (m == Other ==> Receive(s, len) == Receive(rest, len))
              && (m == Pipe([]) ==> Receive(s, len) == (rest.(closed := true), Some([])))
              && (m.Pipe? && m.payload != [] ==>
                    var n := Min(|m.payload|, len);
                    Receive(s, len) ==
                      (rest.(left := m.payload[n..], read := s.read + m.payload[..n]), Some(m.payload[..n])))
  {
  }

  lemma NextChunk(s: State, buf: seq<Byte>)
    requires buf != []
    ensures var n := Min(|buf|, PAYLOAD); SentAll(s, Chunks(buf)) == SentAll(Sent(s, buf[..n]), Chunks(buf[n..]))
  {
    hide Sent;
    var n := Min(|buf|, PAYLOAD);
    assert Chunks(buf)[1..] == Chunks(buf[n..]);
  }

  lemma NoChunks(s: State)
    ensures SentAll(s, Chunks([])) == s
  {
  }
}
