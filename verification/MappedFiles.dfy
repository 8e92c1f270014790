/** The parts of a task that decide how its page faults are answered: demand-paged heap and file windows. */
module MappedFiles {
  import opened Common
  import opened FrameAllocator
  import opened PageTables
  import FileBytes
  import FileDescriptors

  const PAGE_SIZE: nat := 4096

  datatype FileMapping = FileMapping(fd: nat, vaddrBegin: nat, vaddrEnd: nat) {
    predicate Contains(vaddr: nat) { vaddrBegin <= vaddr < vaddrEnd }
  }

  /** Addresses are byte addresses; files holds what each descriptor's file contains. */
  datatype TaskMem = TaskMem(
    dpagingBegin: nat, dpagingEnd: nat, fileMapEnd: nat, fileMaps: seq<FileMapping>, files: seq<Option<seq<Byte>>>)
  {
    predicate Open(fd: int) { 0 <= fd < |files| && files[fd].Some? }
    function Size(fd: nat): nat requires Open(fd) { |files[fd].value| }
    /** The window for a file still fits below the others. */
    predicate Fits(fd: int) { Open(fd) && Size(fd) <= fileMapEnd }
  }

  /** A task as it is created. */
  function NewTask(): TaskMem {
    TaskMem(0, 0, 0, [], [])
  }

  function AlignDown(v: nat): nat {
    v / PAGE_SIZE * PAGE_SIZE
  }

  function AlignUp(v: nat): nat {
    AlignDown(v + 4095)
  }

  /** The virtual address of a page of the app half. */
  function VAddr(a: Addr): nat {
    0xffff_0000_0000_0000 + a.PageNo() * PAGE_SIZE
  }

  /** The lowest page of the 16-page stack, and the page of the arguments above it. */
  const STACK_PAGE: Addr := Addr(511, 511, 511, 495)
  const ARGS_PAGE: Addr := Addr(511, 511, 511, 511)

  /** What ExecuteFile sets before it calls the app: its files, an empty heap behind the image, no file windows. */
  function Started(t: TaskMem, vaddrEnd: nat, files: seq<Option<seq<Byte>>>): TaskMem {
    t.(files := t.files + files, dpagingBegin := AlignUp(vaddrEnd), dpagingEnd := AlignUp(vaddrEnd),
       fileMapEnd := VAddr(STACK_PAGE))
  }

  /** What ExecuteFile clears when the app has returned. */
  function Cleared(t: TaskMem): TaskMem {
    t.(files := [], fileMaps := [])
  }

  /** AllocateFD: the first descriptor that is not in use. */
  function FreeFD(files: seq<Option<seq<Byte>>>): (fd: nat)
    ensures fd <= |files| && (fd < |files| ==> files[fd].None?)
    ensures forall i :: 0 <= i < fd ==> files[i].Some?
  {
    if files == [] || files[0].None? then 0 else 1 + FreeFD(files[1..])
  }

  /** The file gets a descriptor that was not in use, below it all are in use, and the others keep their files. */
  lemma OpenedFile(t: TaskMem, content: seq<Byte>, fd: nat)
    ensures var t', free := OpenFile(t, content), FreeFD(t.files);
            && !t.Open(free) && t'.Open(free) && t'.files[free] == Some(content)
            && (fd < free ==> t.Open(fd))
            && (fd != free ==> (t'.Open(fd) <==> t.Open(fd)) && (t.Open(fd) ==> t'.files[fd] == t.files[fd]))
  {
  }

  /** The OpenFile system call, for a file that there is. */
  function OpenFile(t: TaskMem, content: seq<Byte>): TaskMem {
    var fd := FreeFD(t.files);
    t.(files := if fd < |t.files| then t.files[fd := Some(content)] else t.files + [Some(content)])
  }

  /** The MapFile system call: a new window right below the lowest one, large enough for the file. */
  function MapFile(t: TaskMem, fd: nat): TaskMem
    requires t.Fits(fd)
  {
    var vaddrBegin := AlignDown(t.fileMapEnd - t.Size(fd));
    t.(fileMapEnd := vaddrBegin, fileMaps := t.fileMaps + [FileMapping(fd, vaddrBegin, t.fileMapEnd)])
  }

  /** The DemandPages system call. */
  function DemandPages(t: TaskMem, numPages: nat): TaskMem {
    t.(dpagingEnd := t.dpagingEnd + PAGE_SIZE * numPages)
  }

  /** A window is page-aligned, below the stack, and holds the file, but not a whole page more than the file. */
  predicate Window(t: TaskMem, m: FileMapping) {
    && m.vaddrBegin % PAGE_SIZE == 0 && m.vaddrEnd % PAGE_SIZE == 0
    && t.fileMapEnd <= m.vaddrBegin <= m.vaddrEnd <= VAddr(STACK_PAGE)
    && t.Open(m.fd)
    && m.vaddrBegin + t.Size(m.fd) <= m.vaddrEnd < m.vaddrBegin + t.Size(m.fd) + PAGE_SIZE
  }

  /** The heap is made of whole pages, and the windows lie apart, the later ones below the earlier ones. */
  predicate Windows(t: TaskMem) {
    && t.dpagingBegin % PAGE_SIZE == 0 && t.dpagingEnd % PAGE_SIZE == 0 && t.dpagingBegin <= t.dpagingEnd
    && t.fileMapEnd % PAGE_SIZE == 0 && t.fileMapEnd <= VAddr(STACK_PAGE)
    && (forall i :: 0 <= i < |t.fileMaps| ==> Window(t, t.fileMaps[i]))
    && (forall i, j :: 0 <= i < j < |t.fileMaps| ==> t.fileMaps[j].vaddrEnd <= t.fileMaps[i].vaddrBegin)
  }

  lemma Aligned(v: nat)
    ensures AlignDown(v) % PAGE_SIZE == 0 && AlignDown(v) <= v < AlignDown(v) + PAGE_SIZE
  {
  }

  /** The stack is the sixteen pages below the page of the arguments, which is the last but one before the end. */
  lemma StackPlace()
    ensures VAddr(ARGS_PAGE) == 0xffff_ffff_ffff_f000
    ensures VAddr(STACK_PAGE) + 16 * PAGE_SIZE == VAddr(ARGS_PAGE) && VAddr(STACK_PAGE) % PAGE_SIZE == 0
  {
  }

  lemma MapFileKeepsWindows(t: TaskMem, fd: nat)
    requires Windows(t) && t.Fits(fd)
    ensures Windows(MapFile(t, fd))
  {
    hide AlignDown, VAddr;
    Aligned(t.fileMapEnd - t.Size(fd));
    var t' := MapFile(t, fd);
    forall i | 0 <= i < |t'.fileMaps| ensures Window(t', t'.fileMaps[i]) {
      if i < |t.fileMaps| {
        assert Window(t, t.fileMaps[i]);
      }
    }
    forall i, j | 0 <= i < j < |t'.fileMaps| ensures t'.fileMaps[j].vaddrEnd <= t'.fileMaps[i].vaddrBegin {
      assert Window(t, t.fileMaps[i]);
    }
  }

  /** The windows of a task that is started are right, and they stay so when files are opened and the heap grows. */
  lemma TaskKeepsWindows(t: TaskMem, vaddrEnd: nat, files: seq<Option<seq<Byte>>>, content: seq<Byte>, numPages: nat)
    requires Windows(t)
    ensures t.fileMaps == [] ==> Windows(Started(t, vaddrEnd, files))
    ensures Windows(OpenFile(t, content)) && Windows(DemandPages(t, numPages))
    ensures Windows(Cleared(t)) && Windows(NewTask())
  {
    hide VAddr;
    StackPlace();
    Aligned(vaddrEnd + 4095);
    var opened' := OpenFile(t, content);
    forall i | 0 <= i < |t.fileMaps|
      ensures Window(opened', t.fileMaps[i]) && Window(DemandPages(t, numPages), t.fileMaps[i])
    {
      assert Window(t, t.fileMaps[i]);
    }
  }

  /** The windows after a run of MapFile calls, all of which fit. */
  function MapFiles(t: TaskMem, fds: seq<nat>): Option<TaskMem>
    decreases |fds|
  {
    if fds == [] then Some(t)
    else if t.Fits(fds[0]) then MapFiles(MapFile(t, fds[0]), fds[1..])
    else None
  }

  lemma {:induction false} MapFilesKeepsWindows(t: TaskMem, fds: seq<nat>)
    requires Windows(t)
    ensures MapFiles(t, fds).Some? ==> Windows(MapFiles(t, fds).value)
    decreases |fds|
  {
    if fds != [] && t.Fits(fds[0]) {
      MapFileKeepsWindows(t, fds[0]);
      MapFilesKeepsWindows(MapFile(t, fds[0]), fds[1..]);
    }
  }

  /** Every page of a window starts inside its file, and no other window has it. */
  lemma WindowPage(t: TaskMem, i: nat, vaddr: nat)
    requires Windows(t) && i < |t.fileMaps| && t.fileMaps[i].Contains(vaddr)
    ensures var m := t.fileMaps[i];
            && m.vaddrBegin <= AlignDown(vaddr)
            && AlignDown(vaddr) + PAGE_SIZE <= m.vaddrEnd
            && AlignDown(vaddr) - m.vaddrBegin < t.Size(m.fd)
    ensures forall j :: 0 <= j < |t.fileMaps| && j != i ==> !t.fileMaps[j].Contains(vaddr)
  {
    assert Window(t, t.fileMaps[i]);
    forall j | 0 <= j < |t.fileMaps| && j != i ensures !t.fileMaps[j].Contains(vaddr) {
      assert Window(t, t.fileMaps[j]);
    }
  }

  /** The first window that contains the address. */
  function FirstWindow(fileMaps: seq<FileMapping>, vaddr: nat): (r: Option<nat>)
    ensures match r
            case Some(i) =>
              i < |fileMaps| && fileMaps[i].Contains(vaddr) && forall j :: 0 <= j < i ==> !fileMaps[j].Contains(vaddr)
            case None => forall j :: 0 <= j < |fileMaps| ==> !fileMaps[j].Contains(vaddr)
  {
    if fileMaps == [] then None
    else if fileMaps[0].Contains(vaddr) then Some(0)
    else match FirstWindow(fileMaps[1..], vaddr) case Some(i) => Some(i + 1) case None => None
  }

  /** The loop of FindFileMapping. */
  method FindFileMapping(fileMaps: seq<FileMapping>, causalVaddr: nat) returns (found: Option<nat>)
    ensures found == FirstWindow(fileMaps, causalVaddr)
    ensures match found
            case Some(i) =>
              && i < |fileMaps| && fileMaps[i].Contains(causalVaddr)
              && forall j :: 0 <= j < i ==> !fileMaps[j].Contains(causalVaddr)
            case None => forall j :: 0 <= j < |fileMaps| ==> !fileMaps[j].Contains(causalVaddr)
  {
    for i := 0 to |fileMaps|
      invariant forall j :: 0 <= j < i ==> !fileMaps[j].Contains(causalVaddr)
    {
      if fileMaps[i].Contains(causalVaddr) {
        return Some(i);
      }
    }
    return None;
  }

  // ----- pages made of bytes

  /** Eight bytes read as a PageMapEntry. */
  function WordOf(b: seq<Byte>): Word
    requires |b| == 8
  {
    var b0: int, b1: int, b2: int, b3: int := b[0], b[1], b[2], b[3];
    var b4: int, b5: int, b6: int, b7: int := b[4], b[5], b[6], b[7];
    Word(
      b0 % 2 == 1, b0 / 2 % 2 == 1, b0 / 4 % 2 == 1,
      b1 / 16 + 16 * (b2 + 256 * (b3 + 256 * (b4 + 256 * (b5 + 256 * (b6 % 16))))),
      b0 / 8 + 0x20 * (b1 % 16) + 0x200 * (b6 / 16) + 0x2000 * b7)
  }

  /** The eight bytes of a word. */
  function BytesOf(w: Word): (b: seq<Byte>)
    ensures |b| == 8
  {
    var flags := (if w.present then 1 else 0) + (if w.writable then 2 else 0) + (if w.user then 4 else 0);
    [flags + 8 * (w.rest % 32),
     w.rest / 0x20 % 16 + 16 * (w.addr % 16), w.addr / 0x10 % 256, w.addr / 0x1000 % 256, w.addr / 0x10_0000 % 256,
     w.addr / 0x1000_0000 % 256, w.addr / 0x10_0000_0000 % 16 + 16 * (w.rest / 0x200 % 16), w.rest / 0x2000 % 256]
  }

  /** The bytes of a word read from memory are the bytes that were stored there. */
  lemma BytesOfWord(b: seq<Byte>)
    requires |b| == 8
    ensures BytesOf(WordOf(b)) == b
  {
    var w := WordOf(b);
    LowByte(b[0]);
    RestDigits(b[0] / 8, b[1] % 16, b[6] / 16, b[7], w.rest);
    AddrDigits(b[1] / 16, b[2], b[3], b[4], b[5], b[6] % 16, w.addr);
  }

  lemma LowByte(b: Byte)
    ensures b == (if b % 2 == 1 then 1 else 0) + (if b / 2 % 2 == 1 then 2 else 0)
                 + (if b / 4 % 2 == 1 then 4 else 0) + 8 * (b / 8)
  {
  }

  lemma RestDigits(x: nat, b1: nat, b6: nat, b7: nat, rest: nat)
    requires x < 32 && b1 < 16 && b6 < 16 && b7 < 256 && rest == x + 0x20 * b1 + 0x200 * b6 + 0x2000 * b7
    ensures rest % 32 == x && rest / 0x20 % 16 == b1 && rest / 0x200 % 16 == b6 && rest / 0x2000 % 256 == b7
  {
    var r6 := b6 + 16 * b7;
    var r1 := b1 + 16 * r6;
    assert rest == x + 32 * r1;
    assert rest / 0x20 == r1 && rest / 0x200 == r6 && rest / 0x2000 == b7;
  }

  lemma AddrDigits(b1: nat, b2: nat, b3: nat, b4: nat, b5: nat, b6: nat, addr: nat)
    requires b1 < 16 && b2 < 256 && b3 < 256 && b4 < 256 && b5 < 256 && b6 < 16
    requires addr == b1 + 16 * (b2 + 256 * (b3 + 256 * (b4 + 256 * (b5 + 256 * b6))))
    ensures addr % 16 == b1 && addr / 0x10 % 256 == b2 && addr / 0x1000 % 256 == b3 && addr / 0x10_0000 % 256 == b4
    ensures addr / 0x1000_0000 % 256 == b5 && addr / 0x10_0000_0000 % 16 == b6
  {
    var a5 := b5 + 256 * b6;
    var a4 := b4 + 256 * a5;
    var a3 := b3 + 256 * a4;
    var a2 := b2 + 256 * a3;
    assert addr / 0x10 == a2 && addr / 0x1000 == a3 && addr / 0x10_0000 == a4;
    assert addr / 0x1000_0000 == a5 && addr / 0x10_0000_0000 == b6;
  }

  /** The number that the processor reads from bytes, the lowest first. */
  function Number(b: seq<Byte>): nat {
    if b == [] then 0 else b[0] + 256 * Number(b[1..])
  }

  lemma NumberOfFour(b: seq<Byte>)
    requires |b| >= 4
    ensures Number(b) ==
              b[0] as int + 256 * (b[1] as int + 256 * (b[2] as int + 256 * (b[3] as int + 256 * Number(b[4..]))))
  {
    var c, d, e := b[1..], b[2..], b[3..];
    assert c[1..] == d && d[1..] == e && e[1..] == b[4..];
    assert Number(c) == c[0] as int + 256 * Number(d) && Number(d) == d[0] as int + 256 * Number(e);
  }

  /** The bits of an entry: 0 to 2 are the flags, and 12 to 51 the number of the frame. */
  lemma WordBits(b: seq<Byte>)
    requires |b| == 8
    ensures var n, w := Number(b), WordOf(b);
            && (w.present <==> n % 2 == 1) && (w.writable <==> n / 2 % 2 == 1) && (w.user <==> n / 4 % 2 == 1)
            && w.addr == n / 0x1000 % 0x100_0000_0000
  {
    hide Number;
    NumberOfFour(b);
    NumberOfFour(b[4..]);
    NoNumber();
    assert b[4..][4..] == [];
    var b0: int, b1: int, b2: int, b3: int := b[0], b[1], b[2], b[3];
    var b4: int, b5: int, b6: int, b7: int := b[4], b[5], b[6], b[7];
    var middle := b2 + 256 * (b3 + 256 * (b4 + 256 * b5));
    LowBits(b0, b1 + 256 * (middle + 0x1_0000_0000 * (b6 + 256 * b7)), Number(b));
    AddrBits(b0, b1, middle, b6, b7, Number(b));
  }

  lemma NoNumber()
    ensures Number([]) == 0
  {
  }

  lemma LowBits(b0: nat, high: nat, n: nat)
    requires n == b0 + 256 * high
    ensures n % 2 == b0 % 2 && n / 2 % 2 == b0 / 2 % 2 && n / 4 % 2 == b0 / 4 % 2
  {
    BitOf(b0, 128 * high, n);
    QuarterOf(b0, high, n);
    BitOf(b0 / 2, 64 * high, n / 2);
    BitOf(b0 / 4, 32 * high, n / 4);
  }

  lemma BitOf(b: nat, high: nat, n: nat)
    requires n == b + 2 * high
    ensures n % 2 == b % 2 && n / 2 == b / 2 + high
  {
  }

  lemma QuarterOf(b: nat, high: nat, n: nat)
    requires n == b + 256 * high
    ensures n / 4 == b / 4 + 64 * high
  {
  }

  lemma AddrBits(b0: nat, b1: nat, middle: nat, b6: nat, b7: nat, n: nat)
    requires b0 < 256 && b1 < 256 && middle < 0x1_0000_0000 && b6 < 256 && b7 < 256
    requires n == b0 + 256 * (b1 + 256 * (middle + 0x1_0000_0000 * (b6 + 256 * b7)))
    ensures n / 0x1000 % 0x100_0000_0000 == b1 / 16 + 16 * (middle + 0x1_0000_0000 * (b6 % 16))
  {
    var addr, high := b1 / 16 + 16 * (middle + 0x1_0000_0000 * (b6 % 16)), b6 / 16 + 16 * b7;
    FileBytes.PositionOf(addr + 0x100_0000_0000 * high, b0 + 256 * (b1 % 16), 0x1000);
    FileBytes.PositionOf(high, addr, 0x100_0000_0000);
  }

  /** Different bytes make different words, so nothing is lost by speaking of words. */
  lemma WordOfInjective(b: seq<Byte>, c: seq<Byte>)
    requires |b| == |c| == 8 && WordOf(b) == WordOf(c)
    ensures b == c
  {
    hide WordOf, BytesOf;
    BytesOfWord(b);
    BytesOfWord(c);
  }

  function ByteAt(f: Frame, k: nat): Byte
    requires k < PAGE_SIZE
  {
    BytesOf(f[k / 8])[k % 8]
  }

  /**
   * What memcpy leaves in a page whose first byte is at address `base`, when it copies bytes to address `pos`. A word
   * that is not covered whole keeps its other bytes.
   */
  function Overlaid(f: Frame, base: nat, pos: nat, bytes: seq<Byte>): Frame {
    seq(512, i requires 0 <= i < 512 => OverlaidWord(f[i], base + 8 * i, pos, bytes))
  }

  function OverlaidWord(w: Word, base: nat, pos: nat, bytes: seq<Byte>): Word {
    if base + 8 <= pos || pos + |bytes| <= base then w else WordOf(OverlaidBytes(BytesOf(w), base, pos, bytes))
  }

  function OverlaidBytes(b: seq<Byte>, base: nat, pos: nat, bytes: seq<Byte>): (r: seq<Byte>)
    requires |b| == 8
    ensures |r| == 8 && forall j :: 0 <= j < 8 ==>
              r[j] == if pos <= base + j < pos + |bytes| then bytes[base + j - pos] else b[j]
  {
    seq(8, j requires 0 <= j < 8 => if pos <= base + j < pos + |bytes| then bytes[base + j - pos] else b[j])
  }

  lemma OverlaidByte(f: Frame, base: nat, pos: nat, bytes: seq<Byte>, k: nat)
    requires k < PAGE_SIZE
    ensures ByteAt(Overlaid(f, base, pos, bytes), k) ==
              if pos <= base + k < pos + |bytes| then bytes[base + k - pos] else ByteAt(f, k)
  {
    hide BytesOf, WordOf;
    var i, r := k / 8, k % 8;
    assert k == 8 * i + r;
    BytesOfWord(OverlaidBytes(BytesOf(f[i]), base + 8 * i, pos, bytes));
  }

  lemma BlankByte(k: nat)
    requires k < PAGE_SIZE
    ensures ByteAt(Blank(), k) == 0
  {
    hide BytesOf;
    ZeroWord();
  }

  /** A page of the file from an offset on, zeros behind the file's end. */
  function PageBytes(content: seq<Byte>, offset: nat): seq<Byte> {
    seq(PAGE_SIZE, i requires 0 <= i < PAGE_SIZE => if offset + i < |content| then content[offset + i] else 0)
  }

  function FilePage(content: seq<Byte>, offset: nat): Frame {
    var bytes := PageBytes(content, offset);
    seq(512, i requires 0 <= i < 512 => WordOf(bytes[8 * i..8 * i + 8]))
  }

  lemma FilePageByte(content: seq<Byte>, offset: nat, k: nat)
    requires k < PAGE_SIZE
    ensures ByteAt(FilePage(content, offset), k) == if offset + k < |content| then content[offset + k] else 0
  {
    hide BytesOf, WordOf;
    var bytes := PageBytes(content, offset);
    var i, r := k / 8, k % 8;
    assert k == 8 * i + r;
    BytesOfWord(bytes[8 * i..8 * i + 8]);
    assert bytes[8 * i..8 * i + 8][r] == bytes[8 * i + r];
  }

  lemma ZeroWord()
    ensures WordOf([0, 0, 0, 0, 0, 0, 0, 0]) == ZERO && BytesOf(ZERO) == [0, 0, 0, 0, 0, 0, 0, 0]
  {
    hide BytesOf;
    BytesOfWord([0, 0, 0, 0, 0, 0, 0, 0]);
  }

  lemma LoadedWord(bytes: seq<Byte>, n: nat, i: Index)
    requires |bytes| == PAGE_SIZE && n <= PAGE_SIZE && forall k :: n <= k < PAGE_SIZE ==> bytes[k] == 0
    ensures Overlaid(Blank(), 0, 0, bytes[..n])[i] == WordOf(bytes[8 * i..8 * i + 8])
  {
    hide BytesOf, WordOf;
    ZeroWord();
    var word := bytes[8 * i..8 * i + 8];
    if n <= 8 * i {
      assert word == [0, 0, 0, 0, 0, 0, 0, 0];
    } else {
      assert OverlaidBytes(BytesOf(ZERO), 8 * i, 0, bytes[..n]) == word;
    }
  }

  /** The bytes that Load gives, laid over a zeroed page, make the page of the file. */
  lemma LoadedPage(content: seq<Byte>, offset: nat)
    requires offset <= |content|
    ensures |FileDescriptors.Segment(content, offset, PAGE_SIZE)| <= PAGE_SIZE
    ensures Overlaid(Blank(), 0, 0, FileDescriptors.Segment(content, offset, PAGE_SIZE)) == FilePage(content, offset)
  {
    hide BytesOf, WordOf, Overlaid;
    var bytes, loaded := PageBytes(content, offset), FileDescriptors.Segment(content, offset, PAGE_SIZE);
    assert loaded == bytes[..|loaded|];
    forall i: Index ensures Overlaid(Blank(), 0, 0, loaded)[i] == FilePage(content, offset)[i] {
      LoadedWord(bytes, |loaded|, i);
    }
  }

  /** fd.Load(page, 4096, offset) on a file of the volume: over a zeroed page it makes the page of the file. */
  method LoadPage(fd: FileDescriptors.FileDescriptor, offset: nat, page: Frame, ghost q: seq<nat>) returns (r: Frame)
    requires fd.File(q) && offset <= fd.entry.fileSize
    ensures page == Blank() ==> r == FilePage(fd.Content(q), offset)
    ensures forall k: nat :: k < PAGE_SIZE ==>
              ByteAt(r, k) == if offset + k < fd.entry.fileSize then fd.Content(q)[offset + k] else ByteAt(page, k)
  {
    hide FileDescriptors.FileDescriptor.File, FileDescriptors.FileDescriptor.Content, Overlaid, FilePage, ByteAt;
    var bytes := fd.Load(PAGE_SIZE, offset, q);
    r := Overlaid(page, 0, 0, bytes);
    LoadedPage(fd.Content(q), offset);
    forall k: nat | k < PAGE_SIZE
      ensures ByteAt(r, k) == if offset + k < fd.entry.fileSize then fd.Content(q)[offset + k] else ByteAt(page, k)
    {
      OverlaidByte(page, 0, 0, bytes, k);
    }
  }

  // ----- what a page fault gives

  predicate InHeap(t: TaskMem, vaddr: nat) {
    t.dpagingBegin <= vaddr < t.dpagingEnd
  }

  predicate InWindow(t: TaskMem, vaddr: nat) {
    FirstWindow(t.fileMaps, vaddr).Some?
  }

  /** The page that an access to an unmapped address gets: zeros in the heap, the file's page in a window, or none. */
  function DemandedPage(t: TaskMem, vaddr: nat): Option<Frame> {
    if InHeap(t, vaddr) then Some(Blank())
    else
      match FirstWindow(t.fileMaps, vaddr)
      case None => None
      case Some(i) =>
        var m := t.fileMaps[i];
        if t.Open(m.fd) && m.vaddrBegin <= AlignDown(vaddr) then
          Some(FilePage(t.files[m.fd].value, AlignDown(vaddr) - m.vaddrBegin))
        else None
  }

  /** An address is served if and only if it is in the heap or in a window. */
  lemma DemandedIff(t: TaskMem, vaddr: nat)
    requires Windows(t)
    ensures DemandedPage(t, vaddr).Some? <==> InHeap(t, vaddr) || InWindow(t, vaddr)
  {
    if InWindow(t, vaddr) {
      WindowPage(t, FirstWindow(t.fileMaps, vaddr).value, vaddr);
    }
  }

  /** Through a window, the byte at an address is the file's byte at its distance from the window's start. */
  lemma DemandedByte(t: TaskMem, i: nat, vaddr: nat)
    requires Windows(t) && i < |t.fileMaps| && t.fileMaps[i].Contains(vaddr) && !InHeap(t, vaddr)
    ensures var m := t.fileMaps[i];
            && t.Open(m.fd) && DemandedPage(t, vaddr).Some?
            && var content, k := t.files[m.fd].value, vaddr - m.vaddrBegin;
               ByteAt(DemandedPage(t, vaddr).value, vaddr % PAGE_SIZE) == if k < |content| then content[k] else 0
  {
    hide ByteAt, FilePage, AlignDown;
    WindowPage(t, i, vaddr);
    Aligned(vaddr);
    FilePageByte(t.files[t.fileMaps[i].fd].value, AlignDown(vaddr) - t.fileMaps[i].vaddrBegin, vaddr % PAGE_SIZE);
  }

  /** When the app starts, its heap begins at the first page behind the image and is empty, and nothing is served. */
  lemma StartedServes(t: TaskMem, vaddrEnd: nat, files: seq<Option<seq<Byte>>>, vaddr: nat)
    requires t.fileMaps == []
    ensures var t' := Started(t, vaddrEnd, files);
            && t'.dpagingBegin % PAGE_SIZE == 0 && vaddrEnd <= t'.dpagingBegin < vaddrEnd + PAGE_SIZE
            && t'.fileMapEnd == 0xffff_ffff_ffff_f000 - 16 * PAGE_SIZE
            && DemandedPage(t', vaddr).None?
  {
    hide VAddr;
    StackPlace();
  }

  /** DemandPages adds exactly so many pages of zeros behind the heap to the addresses that are served. */
  lemma DemandPagesServes(t: TaskMem, numPages: nat, vaddr: nat)
    requires Windows(t)
    ensures DemandedPage(DemandPages(t, numPages), vaddr) ==
              if t.dpagingEnd <= vaddr < t.dpagingEnd + 4096 * numPages then Some(Blank()) else DemandedPage(t, vaddr)
  {
    hide VAddr, FilePage;
  }

  /** MapFile adds exactly its window, and what was served before still is. */
  lemma MapFileServes(t: TaskMem, fd: nat, vaddr: nat)
    requires Windows(t) && t.Fits(fd)
    ensures var t' := MapFile(t, fd);
            && (DemandedPage(t, vaddr).Some? ==> DemandedPage(t', vaddr) == DemandedPage(t, vaddr))
            && (DemandedPage(t', vaddr).Some? <==>
                  DemandedPage(t, vaddr).Some? || t'.fileMapEnd <= vaddr < t.fileMapEnd)
  {
    hide VAddr, FilePage, AlignDown, FirstWindow;
    MapFileKeepsWindows(t, fd);
    DemandedIff(t, vaddr);
    DemandedIff(MapFile(t, fd), vaddr);
    FirstWindowJoin(t.fileMaps, MapFile(t, fd).fileMaps[|t.fileMaps|], vaddr);
  }

  lemma {:induction false} FirstWindowJoin(fileMaps: seq<FileMapping>, m: FileMapping, vaddr: nat)
    ensures FirstWindow(fileMaps + [m], vaddr) ==
              if FirstWindow(fileMaps, vaddr).Some? then FirstWindow(fileMaps, vaddr)
              else if m.Contains(vaddr) then Some(|fileMaps|) else None
  {
    if fileMaps == [] {
      assert fileMaps + [m] == [m];
    } else {
      assert (fileMaps + [m])[1..] == fileMaps[1..] + [m];
      FirstWindowJoin(fileMaps[1..], m, vaddr);
    }
  }

  /** Read through the new window, the file's bytes follow the address that MapFile returns. */
  lemma MapThenRead(t: TaskMem, fd: nat, k: nat)
    requires Windows(t) && t.Fits(fd) && k < t.Size(fd) && !InHeap(t, MapFile(t, fd).fileMapEnd + k)
    ensures var t', vaddr := MapFile(t, fd), MapFile(t, fd).fileMapEnd + k;
            && DemandedPage(t', vaddr).Some?
            && ByteAt(DemandedPage(t', vaddr).value, vaddr % PAGE_SIZE) == t.files[fd].value[k]
  {
    hide VAddr, FilePage, AlignDown, FirstWindow, ByteAt, DemandedPage;
    MapFileKeepsWindows(t, fd);
    var t' := MapFile(t, fd);
    assert Window(t', t'.fileMaps[|t.fileMaps|]);
    DemandedByte(t', |t.fileMaps|, t'.fileMapEnd + k);
  }
}
