/**
 * Address spaces as private memories: the meaning the page-table code is measured against.
 * A view maps page addresses to pages; an event changes the view and the windows of one space only.
 */
module PrivateMemory {
  import opened Common
  import opened FrameAllocator
  import opened PageTables
  import opened PageViews
  import opened Paging
  import opened MappedFiles

  /** A page as a program sees it; own pages can be written without a page fault. */
  datatype Page = Page(content: Frame, own: bool)

  type View = imap<Addr, Page>
  type Views = imap<Space, View>

  function ShownAt(st: State, s: Space, a: Addr): Option<Page> {
    match EntryAt(st, s, a)
    case None => None
    case Some(e) => Some(Page(Content(st, e.addr), e.writable))
  }

  /** What a program running in s sees in the app half. */
  ghost function ViewOf(st: State, s: Space): View {
    imap a: Addr | a.pml4 >= 256 && ShownAt(st, s, a).Some? :: ShownAt(st, s, a).value
  }

  ghost function ViewsOf(st: State): Views {
    imap s: Space | s in st.lay.base :: ViewOf(st, s)
  }

  /** The pages of an interval are added, zeroed, unless they are there already. */
  ghost function WithPages(v: View, lo: nat, hi: nat, own: bool): View {
    imap a: Addr | a in v || (a.pml4 >= 256 && lo <= a.PageNo() < hi) :: if a in v then v[a] else Page(Blank(), own)
  }

  ghost function WithPage(v: View, a: Addr, page: Page): View {
    v[a := page]
  }

  /** A page gets other content. */
  ghost function Refilled(v: View, a: Addr, content: Frame): View
    requires a in v
  {
    WithPage(v, a, Page(content, v[a].own))
  }

  function WithWord(f: Frame, i: Index, w: Word): Frame {
    f[i := w]
  }

  /**
   * What an access to an address does: an unmapped page that a fault can give appears, and a page that is to be written
   * becomes the space's own.
   */
  ghost function Accessed(v: View, t: TaskMem, a: Addr, offset: nat, rw: bool): View {
    if a in v then
      if rw then WithPage(v, a, Page(v[a].content, true)) else v
    else
      match DemandedPage(t, VAddr(a) + offset)
      case Some(content) => WithPage(v, a, Page(content, true))
      case None => v
  }

  /** A store to a word; one that cannot be served changes nothing. */
  ghost function Stored(v: View, t: TaskMem, a: Addr, i: Index, w: Word): View {
    var v' := Accessed(v, t, a, 8 * i, true);
    if a in v' then Refilled(v', a, WithWord(v'[a].content, i, w)) else v'
  }

  // ----- private memories

  /** What the programs see, and what decides the answers to their page faults. */
  datatype Machine = Machine(views: Views, tasks: map<Space, TaskMem>) {
    function Task(s: Space): TaskMem { if s in tasks then tasks[s] else NewTask() }
  }

  /**
   * LoadApp of a cached image, SetupPageMaps by ExecuteFile, the start of the app, its accesses to memory, stores that
   * its system calls make, its system calls on files and the heap, and its end.
   */
  datatype Event =
    | LoadEvent(space: Space, image: Space)
    | PagesEvent(space: Space, start: Addr, num: nat)
    | StartEvent(space: Space, vaddrEnd: nat, files: seq<Option<seq<Byte>>>)
    | ReadEvent(space: Space, page: Addr, offset: nat)
    | StoreEvent(space: Space, page: Addr, word: Index, value: Word)
    | SysStoreEvent(space: Space, page: Addr, word: Index, value: Word)
    | OpenEvent(space: Space, content: seq<Byte>)
    | MapFileEvent(space: Space, fd: int)
    | DemandPagesEvent(space: Space, num: nat)
    | ExitEvent(space: Space)
  {
    /** What a running app does by itself. */
    predicate ByApp() {
      ReadEvent? || StoreEvent? || SysStoreEvent? || OpenEvent? || MapFileEvent? || DemandPagesEvent?
    }
    predicate NeedsFrames() { LoadEvent? || PagesEvent? || ReadEvent? || StoreEvent? || SysStoreEvent? }
  }

  ghost function Shows(m: Machine, s: Space, v: View): Machine {
    m.(views := m.views[s := v])
  }

  ghost function Gone(v: Views, s: Space): Views {
    imap r | r in v && r != s :: v[r]
  }

  function SetTask(m: Machine, s: Space, t: TaskMem): Machine {
    m.(tasks := m.tasks[s := t])
  }

  /** What an event does when every space has memory of its own. */
  ghost function Apply(m: Machine, e: Event): Machine {
    var s := e.space;
    match e
    case LoadEvent(_, c) => if c in m.views then Shows(m, s, m.views[c]) else m
    case PagesEvent(_, a, n) =>
      if s in m.views then Shows(m, s, WithPages(m.views[s], a.PageNo(), a.PageNo() + n, true)) else m
    case StartEvent(_, vaddrEnd, files) => SetTask(m, s, Started(m.Task(s), vaddrEnd, files))
    case ReadEvent(_, a, offset) =>
      if s in m.views then Shows(m, s, Accessed(m.views[s], m.Task(s), a, offset, false)) else m
    case StoreEvent(_, a, i, w) => if s in m.views then Shows(m, s, Stored(m.views[s], m.Task(s), a, i, w)) else m
    case SysStoreEvent(_, a, i, w) => if s in m.views then Shows(m, s, Stored(m.views[s], m.Task(s), a, i, w)) else m
    case OpenEvent(_, content) => SetTask(m, s, OpenFile(m.Task(s), content))
    case MapFileEvent(_, fd) => if m.Task(s).Fits(fd) then SetTask(m, s, MapFile(m.Task(s), fd)) else m
    case DemandPagesEvent(_, n) => SetTask(m, s, DemandPages(m.Task(s), n))
    case ExitEvent(_) => SetTask(m.(views := Gone(m.views, s)), s, Cleared(m.Task(s)))
  }

  ghost function ApplyAll(m: Machine, es: seq<Event>): Machine
    decreases |es|
  {
    if es == [] then m else ApplyAll(Apply(m, es[0]), es[1..])
  }

  /** A system call can store to an address without harm: the page is the app's own, or will be. */
  ghost predicate OwnAfterAccess(v: View, t: TaskMem, a: Addr, i: Index) {
    var v' := Accessed(v, t, a, 8 * i, false);
    a in v' && v'[a].own
  }

  /**
   * The events the kernel lets happen: spaces are started from images, pages that the kernel maps do not overlap what
   * is there, system calls store to pages of the app's own, and files are mapped where there is room.
   */
  ghost predicate Legal(m: Machine, images: iset<Space>, e: Event) {
    var s := e.space;
    if e.LoadEvent? then s !in m.views && s !in images && e.image in images && e.image in m.views
    else
      && s in m.views && s !in images
      && match e {
           case PagesEvent(_, a, n) =>
             && a.pml4 >= 256 && a.PageNo() + n <= a.EndOf(4)
             && forall b: Addr :: b in m.views[s] ==> !(a.PageNo() <= b.PageNo() < a.PageNo() + n)
           case StartEvent(_, _, _) => m.Task(s).fileMaps == []
           case ReadEvent(_, a, offset) => a.pml4 >= 256 && offset < PAGE_SIZE
           case StoreEvent(_, a, _, _) => a.pml4 >= 256
           case SysStoreEvent(_, a, i, _) => a.pml4 >= 256 && OwnAfterAccess(m.views[s], m.Task(s), a, i)
           case MapFileEvent(_, fd) => m.Task(s).Open(fd) ==> m.Task(s).Fits(fd)
           case _ => true
         }
  }

  ghost predicate LegalAll(m: Machine, images: iset<Space>, es: seq<Event>)
    decreases |es|
  {
    es == [] || (Legal(m, images, es[0]) && LegalAll(Apply(m, es[0]), images, es[1..]))
  }

  lemma {:induction false} LegalSplit(m: Machine, images: iset<Space>, es: seq<Event>, fs: seq<Event>)
    ensures LegalAll(m, images, es + fs) <==> LegalAll(m, images, es) && LegalAll(ApplyAll(m, es), images, fs)
    ensures ApplyAll(m, es + fs) == ApplyAll(ApplyAll(m, es), fs)
    decreases |es|
  {
    hide Legal, Apply;
    if es == [] {
      assert es + fs == fs;
    } else {
      assert (es + fs)[1..] == es[1..] + fs;
      LegalSplit(Apply(m, es[0]), images, es[1..], fs);
    }
  }

  /** A space is there until its exit. */
  lemma {:induction false} Stays(m: Machine, es: seq<Event>, s: Space)
    requires s in m.views && forall k :: 0 <= k < |es| ==> es[k] != ExitEvent(s)
    ensures s in ApplyAll(m, es).views
    decreases |es|
  {
    if es != [] {
      assert es[0] != ExitEvent(s);
      Stays(Apply(m, es[0]), es[1..], s);
    }
  }

  /** Every task's windows are page-aligned, apart, and hold their files. */
  ghost predicate AllWindows(tasks: map<Space, TaskMem>) {
    forall s :: s in tasks ==> Windows(tasks[s])
  }

  lemma WindowsStay(m: Machine, images: iset<Space>, e: Event)
    requires AllWindows(m.tasks) && Legal(m, images, e)
    ensures AllWindows(Apply(m, e).tasks)
  {
    hide Windows, Started, OpenFile, DemandPages, Cleared, MapFile, NewTask;
    var t := m.Task(e.space);
    TaskKeepsWindows(NewTask(), 0, [], [], 0) by { NewWindows(); }
    var vaddrEnd, files := if e.StartEvent? then e.vaddrEnd else 0, if e.StartEvent? then e.files else [];
    TaskKeepsWindows(t, vaddrEnd, files,
                     if e.OpenEvent? then e.content else [], if e.DemandPagesEvent? then e.num else 0);
    if e.MapFileEvent? && t.Fits(e.fd) {
      MapFileKeepsWindows(t, e.fd);
    }
  }

  lemma NewWindows()
    ensures Windows(NewTask())
  {
  }

  /** The events of one space. */
  function Of(es: seq<Event>, s: Space): seq<Event> {
    if es == [] then [] else (if es[0].space == s then [es[0]] else []) + Of(es[1..], s)
  }

  /** m and n show the same space s, and it has the same windows. */
  ghost predicate SameAt(m: Machine, n: Machine, s: Space) {
    (s in m.views <==> s in n.views) && (s in m.views ==> m.views[s] == n.views[s]) && m.Task(s) == n.Task(s)
  }

  /** m and n show the same images and the same space s. */
  ghost predicate Alike(m: Machine, n: Machine, images: iset<Space>, s: Space) {
    && SameAt(m, n, s)
    && forall c :: c in images ==> (c in m.views <==> c in n.views) && (c in m.views ==> m.views[c] == n.views[c])
  }

  /** An event is felt in its own space only. */
  lemma Elsewhere(m: Machine, e: Event, s: Space)
    requires e.space != s
    ensures SameAt(Apply(m, e), m, s)
  {
    hide Started, OpenFile, DemandPages, Cleared, MapFile, NewTask, Accessed, Stored, WithPages;
  }

  /** What it does there is decided by the space and the images. */
  lemma SameEffect(m: Machine, n: Machine, images: iset<Space>, e: Event)
    requires Alike(m, n, images, e.space) && Legal(m, images, e)
    ensures SameAt(Apply(m, e), Apply(n, e), e.space) && Legal(n, images, e)
  {
    hide Started, OpenFile, DemandPages, Cleared, MapFile, NewTask, Accessed, Stored, WithPages;
  }

  lemma AlikeStep(m: Machine, n: Machine, images: iset<Space>, s: Space, e: Event)
    requires Alike(m, n, images, s) && Legal(m, images, e)
    ensures e.space != s ==> Alike(Apply(m, e), n, images, s)
    ensures e.space == s ==> Alike(Apply(m, e), Apply(n, e), images, s)
  {
    NotInImages(m, images, e);
    hide Apply, Legal, SameAt;
    forall r | r != e.space ensures SameAt(Apply(m, e), m, r) && SameAt(Apply(n, e), n, r) {
      Elsewhere(m, e, r);
      Elsewhere(n, e, r);
    }
    if e.space == s {
      SameEffect(m, n, images, e);
      StillAlike(m, n, Apply(m, e), Apply(n, e), images, s);
    } else {
      SameTrans(Apply(m, e), m, n, s);
      StillAlike(m, n, Apply(m, e), n, images, s);
    }
  }

  lemma StillAlike(m: Machine, n: Machine, m': Machine, n': Machine, images: iset<Space>, s: Space)
    requires Alike(m, n, images, s) && SameAt(m', n', s)
    requires forall c :: c in images ==> SameAt(m', m, c) && (n' == n || SameAt(n', n, c))
    ensures Alike(m', n', images, s)
  {
    hide Machine.Task;
  }

  lemma SameTrans(m: Machine, n: Machine, o: Machine, s: Space)
    ensures SameAt(m, n, s) && SameAt(n, o, s) ==> SameAt(m, o, s)
    ensures SameAt(m, m, s)
  {
  }

  lemma NotInImages(m: Machine, images: iset<Space>, e: Event)
    requires Legal(m, images, e)
    ensures e.space !in images
  {
  }

  /**
   * Non-interference: what a space shows after any run, and how its faults are answered, is decided by the images and
   * its own events. In particular the images themselves never change.
   */
  lemma {:induction false} OwnEventsOnly(m: Machine, n: Machine, images: iset<Space>, es: seq<Event>, s: Space)
    requires Alike(m, n, images, s) && LegalAll(m, images, es)
    ensures Alike(ApplyAll(m, es), ApplyAll(n, Of(es, s)), images, s)
    decreases |es|
  {
    hide Alike, Legal, Apply;
    if es != [] {
      AlikeStep(m, n, images, s, es[0]);
      if es[0].space == s {
        assert Of(es, s) == [es[0]] + Of(es[1..], s);
        assert Of(es, s)[1..] == Of(es[1..], s);
        OwnEventsOnly(Apply(m, es[0]), Apply(n, es[0]), images, es[1..], s);
      } else {
        assert Of(es, s) == Of(es[1..], s);
        OwnEventsOnly(Apply(m, es[0]), n, images, es[1..], s);
      }
    }
  }

  // ----- memory: what is stored is there

  /** A store that is served puts w into word i of the page, and touches no other word of any page. */
  lemma StoredWord(v: View, t: TaskMem, a: Addr, i: Index, w: Word)
    requires a in Accessed(v, t, a, 8 * i, true)
    ensures var v' := Stored(v, t, a, i, w);
            && a in v' && v'[a].own
            && (forall j: Index ::
                  v'[a].content[j] == if j == i then w else Accessed(v, t, a, 8 * i, true)[a].content[j])
            && forall b: Addr :: b != a ==> (b in v' <==> b in v) && (b in v ==> v'[b] == v[b])
  {
    hide DemandedPage, VAddr;
  }

  /** Word i of page a of space s is w. */
  ghost predicate Holds(m: Machine, s: Space, a: Addr, i: Index, w: Word) {
    s in m.views && a in m.views[s] && m.views[s][a].content[i] == w
  }

  predicate StoresTo(e: Event, s: Space, a: Addr, i: Index) {
    (e.StoreEvent? || e.SysStoreEvent?) && e.space == s && e.page == a && e.word == i
  }

  lemma StoreHolds(m: Machine, images: iset<Space>, e: Event)
    requires Legal(m, images, e) && (e.StoreEvent? || e.SysStoreEvent?)
    requires e.page in Accessed(m.views[e.space], m.Task(e.space), e.page, 8 * e.word, true)
    ensures Holds(Apply(m, e), e.space, e.page, e.word, e.value)
  {
    hide Accessed, Stored;
    StoredWord(m.views[e.space], m.Task(e.space), e.page, e.word, e.value);
  }

  lemma WordStaysStep(m: Machine, images: iset<Space>, e: Event, s: Space, a: Addr, i: Index, w: Word)
    requires Holds(m, s, a, i, w) && Legal(m, images, e) && !StoresTo(e, s, a, i) && e != ExitEvent(s)
    ensures Holds(Apply(m, e), s, a, i, w)
  {
    hide DemandedPage, VAddr, Started, OpenFile, DemandPages, Cleared, MapFile, NewTask;
    if e.space != s {
      Elsewhere(m, e, s);
    } else if e.StoreEvent? || e.SysStoreEvent? {
      if e.page in Accessed(m.views[s], m.Task(s), e.page, 8 * e.word, true) {
        StoredWord(m.views[s], m.Task(s), e.page, e.word, e.value);
      }
    }
  }

  /**
   * Memory over whole runs: a word keeps its value through all events of all spaces, until the space stores to that
   * word or ends. With StoreHolds: what a space reads in a word is what it stored there last.
   */
  lemma {:induction false} WordStays(m: Machine, images: iset<Space>, es: seq<Event>, s: Space, a: Addr, i: Index,
                                     w: Word)
    requires Holds(m, s, a, i, w) && LegalAll(m, images, es)
    requires forall k :: 0 <= k < |es| ==> !StoresTo(es[k], s, a, i) && es[k] != ExitEvent(s)
    ensures Holds(ApplyAll(m, es), s, a, i, w)
    decreases |es|
  {
    hide Legal, Apply, Holds;
    if es != [] {
      assert !StoresTo(es[0], s, a, i) && es[0] != ExitEvent(s);
      WordStaysStep(m, images, es[0], s, a, i, w);
      WordStays(Apply(m, es[0]), images, es[1..], s, a, i, w);
    }
  }

  /** The first read of an unmapped page makes it appear, as the space's own, with what the fault gives. */
  lemma FirstRead(m: Machine, s: Space, a: Addr, offset: nat)
    requires s in m.views && a !in m.views[s] && DemandedPage(m.Task(s), VAddr(a) + offset).Some?
    ensures var m' := Apply(m, ReadEvent(s, a, offset));
            && s in m'.views && a in m'.views[s]
            && m'.views[s][a] == Page(DemandedPage(m.Task(s), VAddr(a) + offset).value, true)
  {
    hide DemandedPage, VAddr;
  }

  /** An app that maps a file and then reads there for the first time finds the file's bytes. */
  lemma MappedReads(m: Machine, s: Space, fd: nat, a: Addr, offset: nat, k: nat)
    requires s in m.views && Windows(m.Task(s)) && m.Task(s).Fits(fd) && k < m.Task(s).Size(fd)
    requires a !in m.views[s] && offset < PAGE_SIZE && VAddr(a) + offset == MapFile(m.Task(s), fd).fileMapEnd + k
    requires !InHeap(m.Task(s), VAddr(a) + offset)
    ensures var m' := Apply(Apply(m, MapFileEvent(s, fd)), ReadEvent(s, a, offset));
            && s in m'.views && a in m'.views[s] && m'.views[s][a].own
            && ByteAt(m'.views[s][a].content, offset) == m.Task(s).files[fd].value[k]
  {
    hide DemandedPage, VAddr, ByteAt, Windows, AlignDown;
    PageAligned(a, offset);
    MapThenRead(m.Task(s), fd, k);
    FirstRead(Apply(m, MapFileEvent(s, fd)), s, a, offset);
  }

  lemma PageAligned(a: Addr, offset: nat)
    requires offset < PAGE_SIZE
    ensures (VAddr(a) + offset) % PAGE_SIZE == offset
  {
  }

  /** One that asks for more heap and then reads there for the first time finds zeros. */
  lemma HeapReads(m: Machine, s: Space, n: nat, a: Addr, offset: nat)
    requires s in m.views && Windows(m.Task(s)) && a !in m.views[s]
    requires m.Task(s).dpagingEnd <= VAddr(a) + offset < m.Task(s).dpagingEnd + 4096 * n
    ensures var m' := Apply(Apply(m, DemandPagesEvent(s, n)), ReadEvent(s, a, offset));
            s in m'.views && a in m'.views[s] && m'.views[s][a] == Page(Blank(), true)
  {
    hide DemandedPage, VAddr, Windows;
    DemandPagesServes(m.Task(s), n, VAddr(a) + offset);
    FirstRead(Apply(m, DemandPagesEvent(s, n)), s, a, offset);
  }

  // ----- what the relations of the page-table code mean for views

  lemma OthersView(s0: State, s1: State, s: Space, r: Space)
    requires Inv(s0) && Touches(s0, s1, s) && r != s && s0.lay.Base(r) != s
    ensures ViewOf(s1, r) == ViewOf(s0, r)
  {
    hide Inv, Touches;
    forall a: Addr | a.pml4 >= 256 ensures ShownAt(s1, r, a) == ShownAt(s0, r, a) {
      OthersSee(s0, s1, s, r, a);
    }
    hide ShownAt;
  }

  /** If only s changes, and s is no other space's image, the views change at s only. */
  lemma OneView(s0: State, s1: State, s: Space)
    requires Inv(s0) && Touches(s0, s1, s)
    requires forall r :: r in s0.lay.base && r != s ==> s0.lay.Base(r) != s
    ensures forall r :: r != s ==> (r in ViewsOf(s1) <==> r in ViewsOf(s0))
    ensures forall r :: r != s && r in ViewsOf(s0) ==> ViewsOf(s1)[r] == ViewsOf(s0)[r]
  {
    forall r | r != s && r in s0.lay.base ensures ViewOf(s1, r) == ViewOf(s0, r) {
      OthersView(s0, s1, s, r);
    }
  }

  lemma MapsPage(s0: State, s1: State, s: Space, lo: nat, hi: nat, writable: bool, a: Addr)
    requires Inv(s0) && MapsRange(s0, s1, s, lo, hi, writable) && NoneShared(s0, s, lo, hi, writable) && a.pml4 >= 256
    ensures ShownAt(s1, s, a) == if ShownAt(s0, s, a).Some? then ShownAt(s0, s, a)
                                 else if lo <= a.PageNo() < hi then Some(Page(Blank(), writable)) else None
  {
    hide Inv, Grown;
    if EntryAt(s0, s, a).Some? {
      GrownContent(s0, s1, s, a);
    }
    if lo <= a.PageNo() < hi {
      assert Mapped(s0, s1, s, a, writable);
    }
  }

  lemma MapsView(s0: State, s1: State, s: Space, lo: nat, hi: nat, writable: bool)
    requires Inv(s0) && MapsRange(s0, s1, s, lo, hi, writable) && NoneShared(s0, s, lo, hi, writable)
    ensures ViewOf(s1, s) == WithPages(ViewOf(s0, s), lo, hi, writable)
  {
    hide Inv, ShownAt, MapsRange, NoneShared;
    forall a: Addr | a.pml4 >= 256
      ensures ShownAt(s1, s, a) == if ShownAt(s0, s, a).Some? then ShownAt(s0, s, a)
                                   else if lo <= a.PageNo() < hi then Some(Page(Blank(), writable)) else None
    {
      MapsPage(s0, s1, s, lo, hi, writable, a);
    }
  }

  lemma CopiesView(s0: State, s1: State, s: Space, c: Space, hi: nat)
    requires Inv(s0) && Copies(s0, s1, s, c, APP_HALF, hi) && hi == 512 * 512 * 512 * 512
    ensures ViewOf(s1, s) == ViewOf(s0, c)
  {
    hide Inv;
    forall a: Addr | a.pml4 >= 256
      ensures ShownAt(s1, s, a) == ShownAt(s0, c, a)
    {
      assert APP_HALF <= a.PageNo() < hi;
      if EntryAt(s0, c, a).Some? {
        CopiedContent(s0, s1, s, c, a);
      }
    }
    hide ShownAt, Copies;
  }

  lemma CopiedContent(s0: State, s1: State, s: Space, c: Space, a: Addr)
    requires Inv(s0) && Grown(s0, s1, s) && a.pml4 >= 256 && EntryAt(s0, c, a).Some?
    ensures Content(s1, EntryAt(s0, c, a).value.addr) == Content(s0, EntryAt(s0, c, a).value.addr)
  {
    hide Inv;
    EntryTarget(s0, c, a);
    var e := EntryAt(s0, c, a).value;
    var q := On(if e.writable then c else s0.lay.Base(c), a, 0);
    assert s1.Words(q) == s0.Words(q);
  }

  /** Changing a page that the space owns. */
  lemma StoreView(st: State, s: Space, a: Addr, content: Frame)
    requires Inv(st) && a.pml4 >= 256 && EntryAt(st, s, a).Some?
    requires EntryAt(st, s, a).value.writable || st.lay.Base(s) == s
    ensures var st' := SetPage(st, On(s, a, 0), content);
            && On(s, a, 0) in st.lay.at && st.lay.At(On(s, a, 0)) == EntryAt(st, s, a).value.addr
            && Inv(st') && Touches(st, st', s)
            && a in ViewOf(st, s) && ViewOf(st', s) == Refilled(ViewOf(st, s), a, content)
  {
    hide Inv;
    var q := On(s, a, 0);
    EntryTarget(st, s, a);
    OnLevel(s, a, 0);
    SetPageKeeps(st, q, content);
    var st' := SetPage(st, q, content);
    forall p | p in st.lay.at && p != q ensures st'.Words(p) == st.Words(p) {
      Apart(st, p, q);
    }
    forall b: Addr | b.pml4 >= 256
      ensures EntryAt(st', s, b) == EntryAt(st, s, b)
      ensures ShownAt(st', s, b) == if b == a then Some(Page(content, EntryAt(st, s, a).value.writable))
                                    else ShownAt(st, s, b)
    {
      OnLevel(s, b, 1);
      if EntryAt(st, s, b).Some? {
        EntryTarget(st, s, b);
        if b != a {
          var e := EntryAt(st, s, b).value;
          assert On(if e.writable then s else st.lay.Base(s), b, 0) != q;
        }
      }
    }
    assert ShownAt(st, s, a).Some?;
    hide EntryAt, Content;
  }

  /** A page that has been split shows the same, and is the space's own. */
  lemma SplitsView(s0: State, s1: State, s: Space, a: Addr)
    requires Splits(s0, s1, s, a) && a.pml4 >= 256 && EntryAt(s0, s, a).Some?
    ensures a in ViewOf(s0, s)
    ensures ViewOf(s1, s) == WithPage(ViewOf(s0, s), a, Page(ViewOf(s0, s)[a].content, true))
  {
    forall b: Addr | b.pml4 >= 256
      ensures PageAt(s1, s, b) == PageAt(s0, s, b) && (b != a ==> ShownAt(s1, s, b) == ShownAt(s0, s, b))
    {
    }
  }

  /** Frame conservation: once s is gone, everything that was allocated for it has been given back. */
  lemma Conservation(s0: State, s1: State, s: Space)
    requires Inv(s0) && Inv(s1) && Touches(s0, s1, s)
    requires s !in s0.lay.base && s !in s1.lay.base
    ensures s1.used == s0.used && s1.lay.at == s0.lay.at
  {
    forall q ensures q in s0.lay.at <==> q in s1.lay.at {
    }
    forall q | q in s0.lay.at ensures s1.lay.at[q] == s0.lay.at[q] {
      assert s1.lay.At(q) == s0.lay.At(q);
    }
    SameOwners(s0.lay, s1.lay);
  }

  lemma SameOwners(l0: Layout, l1: Layout)
    requires Bijective(l0) && Bijective(l1) && l0.at == l1.at
    ensures l0.own.Keys == l1.own.Keys
  {
  }
}
