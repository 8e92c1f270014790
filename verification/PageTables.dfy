/**
 * Four-level page tables over physical frames (kernel/paging.hpp, Intel SDM Vol. 3A section 4.5).
 *
 * Physical memory is untyped: a frame is 512 words, and a word is given by the bit fields of the
 * PageMapEntry union, whether the frame is used as a table or as a page. A ghost `Layout` names the
 * one position each allocated frame has in some address space; `Inv` says that memory agrees with it.
 */
module PageTables {
  import opened Common
  import opened FrameAllocator

  type Index = i: int | 0 <= i < 512

  /** A 64-bit word as a PageMapEntry; `rest` holds the bits that the kernel never looks at. */
  datatype Word = Word(present: bool, writable: bool, user: bool, addr: FrameId, rest: nat)

  const ZERO: Word := Word(false, false, false, 0, 0)

  type Frame = f: seq<Word> | |f| == 512 witness seq(512, _ => ZERO)

  function Blank(): (f: Frame)
    ensures forall i: Index :: f[i] == ZERO
  {
    seq(512, _ => ZERO)
  }

  // ----- linear addresses

  /** The page part of a LinearAddress4Level; the 12-bit offset is kept apart. */
  datatype Addr = Addr(pml4: Index, pdp: Index, dir: Index, page: Index) {
    function Part(level: int): Index {
      match level
      case 1 => page
      case 2 => dir
      case 3 => pdp
      case 4 => pml4
      case _ => 0
    }

    function SetPart(level: int, value: Index): Addr {
      match level
      case 1 => this.(page := value)
      case 2 => this.(dir := value)
      case 3 => this.(pdp := value)
      case 4 => this.(pml4 := value)
      case _ => this
    }

    /** The number of the page, counting from virtual address 0. */
    function PageNo(): nat {
      ((pml4 * 512 + pdp) * 512 + dir) * 512 + page
    }

    /** The first page behind the part of the address space that the level-`level` table on the way here maps. */
    function EndOf(level: int): nat {
      match level
      case 1 => ((pml4 * 512 + pdp) * 512 + dir) * 512 + 512
      case 2 => ((pml4 * 512 + pdp) * 512 + 512) * 512
      case 3 => (pml4 * 512 + 512) * 512 * 512
      case _ => 512 * 512 * 512 * 512
    }

    /** The address after the loop step of SetupPageMap: next index at `level`, zero below. */
    function Next(level: int): Addr
      requires 1 <= level <= 4 && Part(level) < 511
    {
      match level
      case 1 => Addr(pml4, pdp, dir, page + 1)
      case 2 => Addr(pml4, pdp, dir + 1, 0)
      case 3 => Addr(pml4, pdp + 1, 0, 0)
      case _ => Addr(pml4 + 1, 0, 0, 0)
    }
  }

  /** The number of the first page of the app half. */
  const APP_HALF: nat := 256 * 512 * 512 * 512

  // ----- positions in address spaces

  type Space = nat

  /** A place in the tree of tables: the root, or the child of a table at some index. */
  datatype Path = Top | Down(up: Path, index: Index) {
    function Level(): int {
      match this
      case Top => 4
      case Down(up, _) => up.Level() - 1
    }
  }

  datatype Pos = Pos(space: Space, path: Path) {
    function Level(): int { path.Level() }
    function Child(i: Index): Pos { Pos(space, Down(path, i)) }
  }

  /** The position of the level-`level` table (or, at level 0, the page) on the way to `a`. */
  function On(s: Space, a: Addr, level: int): Pos
    requires 0 <= level <= 4
  {
    var p3 := Down(Top, a.pml4);
    var p2 := Down(p3, a.pdp);
    var p1 := Down(p2, a.dir);
    match level
    case 4 => Pos(s, Top)
    case 3 => Pos(s, p3)
    case 2 => Pos(s, p2)
    case 1 => Pos(s, p1)
    case _ => Pos(s, Down(p1, a.page))
  }

  /** The kernel's own root table, and the frames of its tables with what they hold. */
  datatype Kernel = Kernel(table: FrameId, frames: map<FrameId, Frame>) {
    function Root(): Frame { if table in frames then frames[table] else Blank() }
  }

  /**
   * at and own are inverse: which frame is at a position, which position a frame is at.
   * base names the image that a space was copied from; an image is its own base.
   * reserved are the frames in use outside of all app halves; kernel are the kernel's page tables among them.
   */
  datatype Layout = Layout(at: map<Pos, FrameId>, own: map<FrameId, Pos>, base: map<Space, Space>,
                           reserved: set<FrameId>, kernel: Kernel) {
    function Base(s: Space): Space { if s in base then base[s] else s }
    function At(p: Pos): FrameId { if p in at then at[p] else 0 }
    function Fill(p: Pos, f: FrameId): Layout { this.(at := at[p := f], own := own[f := p]) }
    function Clear(p: Pos): Layout { this.(at := at - {p}, own := own - {At(p)}) }
  }

  datatype State = State(mem: map<FrameId, Frame>, used: set<FrameId>, lay: Layout) {
    /** The words of the frame at a position. */
    function Words(p: Pos): Frame {
      if lay.At(p) in mem then mem[lay.At(p)] else Blank()
    }
  }

  /** The upper half of the root is the app half; the lower half belongs to the kernel. */
  predicate AppIndex(p: Pos, i: Index) {
    p.path.Top? ==> i >= 256
  }

  /** Where a present entry must point: read-only pages are the image's, everything else is the space's own. */
  function Target(lay: Layout, p: Pos, i: Index, e: Word): Pos {
    if p.Level() == 1 && !e.writable then Pos(lay.Base(p.space), Down(p.path, i)) else p.Child(i)
  }

  predicate GoodEntry(lay: Layout, p: Pos, i: Index, e: Word) {
    && (e.present ==>
          && e.user
          && Target(lay, p, i, e) in lay.at
          && e.addr == lay.at[Target(lay, p, i, e)]
          && (p.Level() >= 2 ==> e.writable)
          && (p.Level() == 1 && lay.Base(p.space) == p.space ==> !e.writable))
    && (p.Child(i) in lay.at ==> e.present && Target(lay, p, i, e) == p.Child(i))
  }

  ghost predicate GoodTable(st: State, p: Pos) {
    forall i: Index :: AppIndex(p, i) ==> GoodEntry(st.lay, p, i, st.Words(p)[i])
  }

  /** Every position is filled by its own frame. */
  ghost predicate Bijective(lay: Layout) {
    && (forall p :: p in lay.at ==> lay.at[p] in lay.own && lay.own[lay.at[p]] == p)
    && (forall f :: f in lay.own ==> lay.own[f] in lay.at && lay.at[lay.own[f]] == f)
  }

  /** Spaces have roots, positions hang from positions, images are based on themselves. */
  ghost predicate Rooted(lay: Layout) {
    && (forall p :: p in lay.at ==> p.space in lay.base && 0 <= p.Level())
    && (forall p: Pos, i: Index :: p.Child(i) in lay.at ==> p in lay.at && AppIndex(p, i))
    && (forall s :: s in lay.base ==> Pos(s, Top) in lay.at && IsImage(lay, lay.base[s]))
  }

  predicate IsImage(lay: Layout, s: Space) {
    s in lay.base && lay.base[s] == s
  }

  /** Exactly the reserved frames and the frames with a position are allocated. */
  ghost predicate Accounted(st: State) {
    && st.used == st.lay.reserved + st.lay.own.Keys
    && st.lay.reserved !! st.lay.own.Keys
    && (forall f :: f in st.lay.own ==> f in st.mem)
  }

  ghost predicate TablesGood(st: State) {
    forall p :: p in st.lay.at && p.Level() >= 1 ==> GoodTable(st, p)
  }

  /** Two roots map the lower half, which is the kernel's, in the same way. */
  predicate SameLowerHalf(f: Frame, g: Frame) {
    forall i: Index :: i < 256 ==> f[i] == g[i]
  }

  /** The kernel's tables stay as they are, and every space has the kernel's half. */
  ghost predicate KernelKept(st: State) {
    && st.lay.kernel.table in st.lay.kernel.frames
    && (forall f :: f in st.lay.kernel.frames ==>
          f in st.lay.reserved && f in st.mem && st.mem[f] == st.lay.kernel.frames[f])
    && (forall s :: s in st.lay.base ==> SameLowerHalf(st.Words(Pos(s, Top)), st.lay.kernel.Root()))
  }

  ghost predicate Inv(st: State) {
    Bijective(st.lay) && Rooted(st.lay) && Accounted(st) && TablesGood(st) && KernelKept(st)
  }

  /** The kernel's tables are no positions, and they are in use. */
  lemma KernelApart(st: State, f: FrameId)
    requires Accounted(st) && Bijective(st.lay) && KernelKept(st) && f in st.lay.kernel.frames
    ensures f in st.used && forall q :: q in st.lay.at ==> st.lay.At(q) != f
  {
  }

  lemma KernelStays(st: State, st': State)
    requires KernelKept(st) && st'.lay.kernel == st.lay.kernel && st'.lay.reserved == st.lay.reserved
    requires forall f :: f in st.lay.kernel.frames ==> f in st.mem && f in st'.mem && st'.mem[f] == st.mem[f]
    requires forall s :: s in st'.lay.base ==>
               SameLowerHalf(st'.Words(Pos(s, Top)),
                             if s in st.lay.base then st.Words(Pos(s, Top)) else st.lay.kernel.Root())
    ensures KernelKept(st')
  {
    forall s | s in st'.lay.base ensures SameLowerHalf(st'.Words(Pos(s, Top)), st'.lay.kernel.Root()) {
      if s in st.lay.base {
        assert SameLowerHalf(st.Words(Pos(s, Top)), st.lay.kernel.Root());
      }
    }
  }

  // ----- how the elementary changes act on the parts of Inv

  lemma FillBijective(lay: Layout, q: Pos, f: FrameId)
    requires Bijective(lay) && q !in lay.at && f !in lay.own
    ensures Bijective(lay.Fill(q, f))
  {
  }

  lemma ClearBijective(lay: Layout, q: Pos)
    requires Bijective(lay) && q in lay.at
    ensures Bijective(lay.Clear(q))
  {
  }

  lemma FillRooted(lay: Layout, p: Pos, i: Index, f: FrameId)
    requires Rooted(lay) && p in lay.at && p.Level() >= 1 && AppIndex(p, i)
    ensures Rooted(lay.Fill(p.Child(i), f))
  {
  }

  lemma ClearRooted(lay: Layout, p: Pos, i: Index)
    requires Rooted(lay)
    requires forall j: Index :: p.Child(i).Child(j) !in lay.at
    ensures Rooted(lay.Clear(p.Child(i)))
  {
  }

  /** An unallocated frame has no position. */
  lemma Unowned(st: State, f: FrameId)
    requires Inv(st) && f !in st.used
    ensures f !in st.lay.own
    ensures forall q :: q in st.lay.at ==> st.lay.At(q) != f
  {
  }

  lemma FillAccounted(st: State, q: Pos, f: FrameId, mem: map<FrameId, Frame>)
    requires Accounted(st) && f !in st.used && f in mem && st.mem.Keys <= mem.Keys
    ensures Accounted(State(mem, st.used + {f}, st.lay.Fill(q, f)))
  {
  }

  lemma ClearAccounted(st: State, q: Pos, mem: map<FrameId, Frame>)
    requires Accounted(st) && Bijective(st.lay) && q in st.lay.at && st.mem.Keys <= mem.Keys
    ensures Accounted(State(mem, st.used - {st.lay.At(q)}, st.lay.Clear(q)))
  {
  }

  /** Two positions never share a frame. */
  lemma Apart(st: State, p: Pos, q: Pos)
    requires Inv(st) && p in st.lay.at && q in st.lay.at && p != q
    ensures st.lay.At(p) != st.lay.At(q)
  {
  }

  /** A position's frame is in memory and allocated. */
  lemma Backed(st: State, p: Pos)
    requires Inv(st) && p in st.lay.at
    ensures st.lay.At(p) in st.mem && st.lay.At(p) in st.used && st.lay.own[st.lay.At(p)] == p
  {
  }

  lemma GoodAt(st: State, p: Pos, i: Index)
    requires Inv(st) && p in st.lay.at && p.Level() >= 1 && AppIndex(p, i)
    ensures GoodEntry(st.lay, p, i, st.Words(p)[i])
  {
    assert GoodTable(st, p);
  }

  // ----- elementary changes, each of which keeps Inv

  /** Entry i of table p is made to point to a newly allocated frame f. */
  function Attach(st: State, p: Pos, i: Index, f: FrameId, content: Frame, e: Word): State {
    State(st.mem[f := content][st.lay.At(p) := st.Words(p)[i := e]], st.used + {f}, st.lay.Fill(p.Child(i), f))
  }

  ghost predicate MayAttach(st: State, p: Pos, i: Index, f: FrameId, content: Frame, e: Word) {
    && p in st.lay.at && p.Level() >= 1 && AppIndex(p, i)
    && f !in st.used && p.Child(i) !in st.lay.at
    && e.present && e.user && e.addr == f
    && (p.Level() >= 2 ==> e.writable && content == Blank())
    && (p.Level() == 1 ==> e.writable == (st.lay.Base(p.space) != p.space))
  }

  /** Filling one more position does not disturb an entry that does not lead to it. */
  lemma EntryOutlivesFill(lay: Layout, q: Pos, j: Index, e: Word, added: Pos, f: FrameId)
    requires added !in lay.at && q.Child(j) != added
    requires GoodEntry(lay, q, j, e)
    ensures GoodEntry(lay.Fill(added, f), q, j, e)
  {
  }

  lemma AttachTable(st: State, p: Pos, i: Index, f: FrameId, content: Frame, e: Word, q: Pos)
    requires Inv(st) && MayAttach(st, p, i, f, content, e)
    requires q in st.lay.at && q.Level() >= 1
    ensures GoodTable(Attach(st, p, i, f, content, e), q)
  {
    var st' := Attach(st, p, i, f, content, e);
    Backed(st, q);
    if p != q { Apart(st, p, q); }
    forall j: Index | AppIndex(q, j)
      ensures GoodEntry(st'.lay, q, j, st'.Words(q)[j])
    {
      hide Bijective, Rooted, Accounted, TablesGood, GoodTable;
      GoodAt(st, q, j);
      if q.Child(j) != p.Child(i) {
        EntryOutlivesFill(st.lay, q, j, st.Words(q)[j], p.Child(i), f);
        assert st'.Words(q)[j] == st.Words(q)[j];
      }
    }
  }

  lemma BlankTable(st: State, q: Pos)
    requires st.Words(q) == Blank()
    requires forall j: Index :: AppIndex(q, j) ==> q.Child(j) !in st.lay.at
    ensures GoodTable(st, q)
  {
  }

  /** There is nothing below a position that is not filled. */
  lemma NothingBelow(lay: Layout, p: Pos)
    requires Rooted(lay) && p !in lay.at
    ensures forall j: Index :: p.Child(j) !in lay.at
  {
  }

  lemma AttachKernel(st: State, p: Pos, i: Index, f: FrameId, content: Frame, e: Word)
    requires Inv(st) && MayAttach(st, p, i, f, content, e)
    ensures KernelKept(Attach(st, p, i, f, content, e))
  {
    hide TablesGood, KernelKept, GoodEntry;
    var st' := Attach(st, p, i, f, content, e);
    forall g | g in st.lay.kernel.frames ensures g in st.mem && g in st'.mem && st'.mem[g] == st.mem[g] {
      KernelApart(st, g);
      KernelFrame(st, g);
    }
    forall s | s in st'.lay.base ensures SameLowerHalf(st'.Words(Pos(s, Top)), st.Words(Pos(s, Top))) {
      Backed(st, Pos(s, Top));
      if p != Pos(s, Top) { Apart(st, p, Pos(s, Top)); }
    }
    KernelStays(st, st');
  }

  lemma KernelFrame(st: State, f: FrameId)
    requires KernelKept(st) && f in st.lay.kernel.frames
    ensures f in st.mem && st.mem[f] == st.lay.kernel.frames[f]
  {
  }

  lemma AttachKeeps(st: State, p: Pos, i: Index, f: FrameId, content: Frame, e: Word)
    requires Inv(st) && MayAttach(st, p, i, f, content, e)
    ensures Inv(Attach(st, p, i, f, content, e))
  {
    hide Bijective, Rooted, Accounted, GoodTable, KernelKept;
    AttachKernel(st, p, i, f, content, e);
    var st' := Attach(st, p, i, f, content, e);
    Unowned(st, f);
    FillBijective(st.lay, p.Child(i), f);
    FillRooted(st.lay, p, i, f);
    FillAccounted(st, p.Child(i), f, st'.mem);
    forall q | q in st'.lay.at && q.Level() >= 1
      ensures GoodTable(st', q)
    {
      if q == p.Child(i) {
        NothingBelow(st.lay, q);
        Backed(st, p);
        BlankTable(st', q);
      } else {
        AttachTable(st, p, i, f, content, e, q);
      }
    }
  }

  /** Entry i of table p is rewritten without allocating or freeing anything. */
  function Rewrite(st: State, p: Pos, i: Index, e: Word): State {
    st.(mem := st.mem[st.lay.At(p) := st.Words(p)[i := e]])
  }

  lemma RewriteAccounted(st: State, mem: map<FrameId, Frame>)
    requires Accounted(st) && st.mem.Keys <= mem.Keys
    ensures Accounted(st.(mem := mem))
  {
  }

  /** What changes one frame outside of the lower halves leaves the kernel's half alone. */
  lemma FrameKernel(st: State, p: Pos, content: Frame)
    requires Inv(st) && p in st.lay.at && (p.path.Top? ==> SameLowerHalf(content, st.Words(p)))
    ensures KernelKept(st.(mem := st.mem[st.lay.At(p) := content]))
  {
    hide TablesGood, KernelKept, GoodEntry;
    var st' := st.(mem := st.mem[st.lay.At(p) := content]);
    forall g | g in st.lay.kernel.frames ensures g in st.mem && g in st'.mem && st'.mem[g] == st.mem[g] {
      KernelApart(st, g);
      KernelFrame(st, g);
    }
    forall s | s in st'.lay.base ensures SameLowerHalf(st'.Words(Pos(s, Top)), st.Words(Pos(s, Top))) {
      if p != Pos(s, Top) { Apart(st, p, Pos(s, Top)); }
    }
    KernelStays(st, st');
  }

  lemma RewriteKeeps(st: State, p: Pos, i: Index, e: Word)
    requires Inv(st)
    requires p in st.lay.at && p.Level() >= 1 && AppIndex(p, i)
    requires GoodEntry(st.lay, p, i, e)
    ensures Inv(Rewrite(st, p, i, e))
  {
    hide Bijective, Rooted, Accounted, KernelKept;
    FrameKernel(st, p, st.Words(p)[i := e]);
    var st' := Rewrite(st, p, i, e);
    RewriteAccounted(st, st'.mem);
    forall q | q in st.lay.at && q.Level() >= 1
      ensures GoodTable(st', q)
    {
      assert GoodTable(st, q);
      if q != p { Apart(st, p, q); }
    }
  }

  /** Entry i of table p is cleared and the frame it pointed to is freed. */
  function Detach(st: State, p: Pos, i: Index): State {
    State(st.mem[st.lay.At(p) := st.Words(p)[i := ZERO]], st.used - {st.lay.At(p.Child(i))}, st.lay.Clear(p.Child(i)))
  }

  /** Emptying a position does not disturb an entry of another place: only an image's pages are shared. */
  lemma EntryOutlivesClear(lay: Layout, q: Pos, j: Index, e: Word, gone: Pos)
    requires Rooted(lay) && q in lay.at && gone in lay.at && lay.Base(gone.space) != gone.space
    requires GoodEntry(lay, q, j, e) && q.Child(j) != gone
    ensures GoodEntry(lay.Clear(gone), q, j, e)
  {
    assert IsImage(lay, lay.Base(q.space));
  }

  lemma DetachTable(st: State, p: Pos, i: Index, q: Pos)
    requires Inv(st)
    requires p in st.lay.at && p.Level() >= 1 && p.Child(i) in st.lay.at
    requires st.lay.Base(p.space) != p.space
    requires q in st.lay.at && q != p.Child(i) && q.Level() >= 1
    ensures GoodTable(Detach(st, p, i), q)
  {
    var st' := Detach(st, p, i);
    Backed(st, q);
    if p != q { Apart(st, p, q); }
    forall j: Index | AppIndex(q, j)
      ensures GoodEntry(st'.lay, q, j, st'.Words(q)[j])
    {
      hide Bijective, Rooted, Accounted, TablesGood, GoodTable;
      GoodAt(st, q, j);
      if q.Child(j) != p.Child(i) {
        EntryOutlivesClear(st.lay, q, j, st.Words(q)[j], p.Child(i));
        assert st'.Words(q)[j] == st.Words(q)[j];
      }
    }
  }

  lemma DetachKernel(st: State, p: Pos, i: Index)
    requires Inv(st) && p in st.lay.at && p.Child(i) in st.lay.at
    ensures KernelKept(Detach(st, p, i))
  {
    hide TablesGood, KernelKept, GoodEntry;
    var st' := Detach(st, p, i);
    forall g | g in st.lay.kernel.frames ensures g in st.mem && g in st'.mem && st'.mem[g] == st.mem[g] {
      KernelApart(st, g);
      KernelFrame(st, g);
    }
    forall s | s in st'.lay.base ensures SameLowerHalf(st'.Words(Pos(s, Top)), st.Words(Pos(s, Top))) {
      assert Pos(s, Top) != p.Child(i);
      if p != Pos(s, Top) { Apart(st, p, Pos(s, Top)); }
    }
    KernelStays(st, st');
  }

  lemma DetachKeeps(st: State, p: Pos, i: Index)
    requires Inv(st)
    requires p in st.lay.at && p.Level() >= 1 && p.Child(i) in st.lay.at
    requires forall j: Index :: p.Child(i).Child(j) !in st.lay.at
    requires st.lay.Base(p.space) != p.space
    ensures Inv(Detach(st, p, i))
  {
    hide Bijective, Rooted, Accounted, GoodTable, KernelKept;
    DetachKernel(st, p, i);
    var st' := Detach(st, p, i);
    ClearBijective(st.lay, p.Child(i));
    ClearRooted(st.lay, p, i);
    ClearAccounted(st, p.Child(i), st'.mem);
    forall q | q in st'.lay.at && q.Level() >= 1
      ensures GoodTable(st', q)
    {
      DetachTable(st, p, i, q);
    }
  }

  /** A page's content is changed. */
  function SetPage(st: State, q: Pos, content: Frame): State {
    st.(mem := st.mem[st.lay.At(q) := content])
  }

  lemma SetPageKeeps(st: State, q: Pos, content: Frame)
    requires Inv(st) && q in st.lay.at && q.Level() == 0
    ensures Inv(SetPage(st, q, content))
  {
    hide Bijective, Rooted, Accounted, KernelKept;
    FrameKernel(st, q, content);
    var st' := SetPage(st, q, content);
    RewriteAccounted(st, st'.mem);
    forall p | p in st.lay.at && p.Level() >= 1
      ensures GoodTable(st', p)
    {
      assert GoodTable(st, p);
      Apart(st, p, q);
    }
  }

  /** A new space gets a root table whose app half is empty. */
  function AddRoot(st: State, s: Space, b: Space, f: FrameId, content: Frame): State {
    State(st.mem[f := content], st.used + {f}, st.lay.Fill(Pos(s, Top), f).(base := st.lay.base[s := b]))
  }

  lemma AddRootRooted(lay: Layout, s: Space, b: Space, f: FrameId)
    requires Rooted(lay) && s !in lay.base
    requires b == s || (b in lay.base && lay.base[b] == b)
    ensures Rooted(lay.Fill(Pos(s, Top), f).(base := lay.base[s := b]))
  {
  }

  /** A new space does not disturb the entries of the others. */
  lemma AddRootTable(st: State, s: Space, b: Space, f: FrameId, content: Frame, q: Pos)
    requires Inv(st) && s !in st.lay.base && f !in st.used
    requires q in st.lay.at && q.Level() >= 1
    ensures GoodTable(AddRoot(st, s, b, f, content), q)
  {
    var st' := AddRoot(st, s, b, f, content);
    Backed(st, q);
    forall j: Index | AppIndex(q, j)
      ensures GoodEntry(st'.lay, q, j, st'.Words(q)[j])
    {
      GoodAt(st, q, j);
      hide Bijective, Accounted, TablesGood, GoodTable;
      assert q.Child(j) != Pos(s, Top);
    }
  }

  lemma AddRootKernel(st: State, s: Space, b: Space, f: FrameId, content: Frame)
    requires Inv(st) && s !in st.lay.base && f !in st.used && SameLowerHalf(content, st.lay.kernel.Root())
    ensures KernelKept(AddRoot(st, s, b, f, content))
  {
    hide TablesGood, KernelKept, GoodEntry;
    var st' := AddRoot(st, s, b, f, content);
    forall g | g in st.lay.kernel.frames ensures g in st.mem && g in st'.mem && st'.mem[g] == st.mem[g] {
      KernelApart(st, g);
      KernelFrame(st, g);
    }
    forall r | r in st.lay.base && r != s ensures SameLowerHalf(st'.Words(Pos(r, Top)), st.Words(Pos(r, Top))) {
      Backed(st, Pos(r, Top));
    }
    KernelStays(st, st');
  }

  lemma AddRootKeeps(st: State, s: Space, b: Space, f: FrameId, content: Frame)
    requires Inv(st) && s !in st.lay.base && f !in st.used
    requires b == s || (b in st.lay.base && st.lay.base[b] == b)
    requires SameLowerHalf(content, st.lay.kernel.Root()) && forall i: Index :: i >= 256 ==> !content[i].present
    ensures Inv(AddRoot(st, s, b, f, content))
  {
    var st' := AddRoot(st, s, b, f, content);
    assert Pos(s, Top) !in st.lay.at;
    FillBijective(st.lay, Pos(s, Top), f);
    AddRootRooted(st.lay, s, b, f);
    FillAccounted(st, Pos(s, Top), f, st'.mem);
    NothingBelow(st.lay, Pos(s, Top));
    hide Bijective, Rooted, Accounted, KernelKept;
    AddRootKernel(st, s, b, f, content);
    forall q | q in st'.lay.at && q.Level() >= 1
      ensures GoodTable(st', q)
    {
      if q != Pos(s, Top) {
        AddRootTable(st, s, b, f, content, q);
      }
    }
  }

  /** A space whose root has an empty app half is forgotten and its root freed. */
  function RemoveRoot(st: State, s: Space): State {
    State(st.mem, st.used - {st.lay.At(Pos(s, Top))}, st.lay.Clear(Pos(s, Top)).(base := st.lay.base - {s}))
  }

  lemma {:induction false} OnlyTop(lay: Layout, s: Space, path: Path)
    requires Rooted(lay)
    requires forall i: Index :: i >= 256 ==> Pos(s, Top).Child(i) !in lay.at
    ensures Pos(s, path) in lay.at ==> path.Top?
  {
    if path.Down? {
      assert Pos(s, path) == Pos(s, path.up).Child(path.index);
      OnlyTop(lay, s, path.up);
    }
  }

  lemma OnlyRoot(lay: Layout, s: Space)
    requires Rooted(lay)
    requires forall i: Index :: i >= 256 ==> Pos(s, Top).Child(i) !in lay.at
    ensures forall q :: q in lay.at && q.space == s ==> q == Pos(s, Top)
  {
    forall q | q in lay.at && q.space == s
      ensures q == Pos(s, Top)
    {
      OnlyTop(lay, s, q.path);
    }
  }

  lemma RemoveRootRooted(lay: Layout, s: Space)
    requires Rooted(lay) && s in lay.base && lay.base[s] != s
    requires forall q :: q in lay.at && q.space == s ==> q == Pos(s, Top)
    ensures Rooted(lay.Clear(Pos(s, Top)).(base := lay.base - {s}))
  {
  }

  lemma RemoveRootTable(st: State, s: Space, q: Pos)
    requires Inv(st) && s in st.lay.base && st.lay.base[s] != s
    requires q in st.lay.at && q.space != s && q.Level() >= 1
    ensures GoodTable(RemoveRoot(st, s), q)
  {
    var st' := RemoveRoot(st, s);
    forall j: Index | AppIndex(q, j)
      ensures GoodEntry(st'.lay, q, j, st'.Words(q)[j])
    {
      GoodAt(st, q, j);
      EntryOutlivesClear(st.lay, q, j, st.Words(q)[j], Pos(s, Top));
      hide Bijective, Accounted, TablesGood, GoodTable;
    }
  }

  lemma RemoveRootKernel(st: State, s: Space)
    requires Inv(st) && s in st.lay.base
    ensures KernelKept(RemoveRoot(st, s))
  {
    hide TablesGood, KernelKept, GoodEntry;
    var st' := RemoveRoot(st, s);
    forall g | g in st.lay.kernel.frames ensures g in st.mem && g in st'.mem && st'.mem[g] == st.mem[g] {
      KernelFrame(st, g);
    }
    forall r | r in st'.lay.base ensures SameLowerHalf(st'.Words(Pos(r, Top)), st.Words(Pos(r, Top))) {
      assert Pos(r, Top) != Pos(s, Top);
    }
    KernelStays(st, st');
  }

  lemma RemoveRootTables(st: State, s: Space)
    requires Inv(st) && s in st.lay.base && st.lay.base[s] != s
    requires forall q :: q in st.lay.at && q.space == s ==> q == Pos(s, Top)
    ensures TablesGood(RemoveRoot(st, s))
  {
    hide Inv, GoodTable;
    var st' := RemoveRoot(st, s);
    forall q | q in st'.lay.at && q.Level() >= 1
      ensures GoodTable(st', q)
    {
      RemoveRootTable(st, s, q);
    }
  }

  /** Which image a space is based on does not matter to the frames. */
  lemma OtherBase(st: State, base: map<Space, Space>)
    requires Bijective(st.lay) && Accounted(st)
    ensures Bijective(st.lay.(base := base)) && Accounted(st.(lay := st.lay.(base := base)))
  {
  }

  lemma RootThere(lay: Layout, s: Space)
    requires Rooted(lay) && s in lay.base
    ensures Pos(s, Top) in lay.at
  {
  }

  lemma RemoveRootKeeps(st: State, s: Space)
    requires Inv(st) && s in st.lay.base && st.lay.base[s] != s
    requires forall i: Index :: i >= 256 ==> Pos(s, Top).Child(i) !in st.lay.at
    ensures Inv(RemoveRoot(st, s))
  {
    hide Bijective, Rooted, Accounted, TablesGood, KernelKept;
    RootThere(st.lay, s);
    OnlyRoot(st.lay, s);
    ClearBijective(st.lay, Pos(s, Top));
    RemoveRootRooted(st.lay, s);
    ClearAccounted(st, Pos(s, Top), st.mem);
    RemoveRootKernel(st, s);
    RemoveRootTables(st, s);
    OtherBase(State(st.mem, st.used - {st.lay.At(Pos(s, Top))}, st.lay.Clear(Pos(s, Top))), st.lay.base - {s});
  }
}
