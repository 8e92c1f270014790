/**
 * The life of an address space: loading an app (kernel/terminal.cpp), answering its page faults
 * (kernel/paging.cpp) and taking it down again.
 */
module Processes {
  import opened Common
  import opened FrameAllocator
  import opened PageTables
  import opened PageViews
  import opened Paging
  import opened PrivateMemory
  import opened MappedFiles
  import FileDescriptors

  const LAST_PAGE: nat := 512 * 512 * 512 * 512

  /** A load segment: its address, as a page and an offset, its bytes in the file, and its size in memory. */
  datatype Segment = Segment(start: Addr, offset: nat, data: seq<Byte>, memSize: nat) {
    function Begin(): nat { VAddr(start) + offset }
    function Pages(): nat { (offset + memSize + 4095) / 4096 }
    predicate Fits() {
      start.pml4 >= 256 && offset < PAGE_SIZE && |data| <= memSize && start.PageNo() + Pages() <= LAST_PAGE
    }
  }

  ghost predicate SegmentsFit(segments: seq<Segment>) {
    forall i :: 0 <= i < |segments| ==> segments[i].Fits()
  }

  function FirstAppPage(): Addr {
    Addr(256, 0, 0, 0)
  }

  ghost predicate Process(st: State, s: Space) {
    s in st.lay.base && st.lay.Base(s) != s
  }

  /** No space is based on s. */
  ghost predicate Private(st: State, s: Space) {
    forall r :: r in st.lay.base && r != s ==> st.lay.Base(r) != s
  }

  lemma ProcessIsPrivate(st: State, s: Space)
    requires Inv(st) && (s in st.lay.base ==> st.lay.Base(s) != s)
    ensures Private(st, s)
  {
    forall r | r in st.lay.base && r != s ensures st.lay.Base(r) != s {
      assert IsImage(st.lay, st.lay.Base(r));
    }
  }

  /** Only s changes, so only the view of s does. */
  ghost predicate ChangesView(s0: State, s1: State, s: Space, v: View) {
    && Touches(s0, s1, s)
    && s1.lay.base == s0.lay.base
    && ViewsOf(s1) == ViewsOf(s0)[s := v]
  }

  lemma ViewChanged(s0: State, s1: State, s: Space, v: View)
    requires Inv(s0) && Touches(s0, s1, s) && s1.lay.base == s0.lay.base && s in s0.lay.base && Private(s0, s)
    requires ViewOf(s1, s) == v
    ensures ChangesView(s0, s1, s, v)
  {
    hide Inv, ViewOf;
    OneView(s0, s1, s);
  }

  /** The lower half is taken over, the app half is zero. */
  function RootTable(current: Frame): (f: Frame)
    ensures forall i: Index :: f[i] == if i < 256 then current[i] else ZERO
  {
    current[..256] + Blank()[256..]
  }

  /** The kernel knows the root of every space, and its cached apps are images. */
  ghost predicate Tracks(roots: map<Space, FrameId>, appLoads: map<nat, Space>, lay: Layout) {
    && (forall s :: s in roots <==> s in lay.base)
    && (forall s :: s in roots ==> roots[s] == lay.At(Pos(s, Top)))
    && (forall f :: f in appLoads ==> IsImage(lay, appLoads[f]))
  }

  /** cr3 is the kernel's own root or that of some space. */
  ghost predicate OnTable(cr3: FrameId, roots: map<Space, FrameId>, kernelTable: FrameId) {
    cr3 == kernelTable || exists s :: s in roots && roots[s] == cr3
  }

  /** The table in use is there, and has the kernel's half. */
  lemma CurrentHalf(st: State, roots: map<Space, FrameId>, appLoads: map<nat, Space>, cr3: FrameId)
    requires Inv(st) && Tracks(roots, appLoads, st.lay) && OnTable(cr3, roots, st.lay.kernel.table)
    ensures cr3 in st.mem && cr3 in st.used && SameLowerHalf(st.mem[cr3], st.lay.kernel.Root())
  {
    if cr3 == st.lay.kernel.table {
      KernelApart(st, cr3);
    } else {
      var s :| s in roots && roots[s] == cr3;
      RootIn(st, s);
      Backed(st, Pos(s, Top));
      assert SameLowerHalf(st.Words(Pos(s, Top)), st.lay.kernel.Root());
    }
  }

  lemma TracksNewRoot(roots: map<Space, FrameId>, appLoads: map<nat, Space>, lay: Layout, s: Space, b: Space,
                      f: FrameId)
    requires Tracks(roots, appLoads, lay) && s !in roots
    ensures Tracks(roots[s := f], appLoads, lay.Fill(Pos(s, Top), f).(base := lay.base[s := b]))
  {
  }

  function AddrOf(n: nat): (a: Addr)
    requires n < LAST_PAGE
    ensures a.PageNo() == n && (n >= APP_HALF ==> a.pml4 >= 256)
  {
    Addr(n / 512 / 512 / 512, n / 512 / 512 % 512, n / 512 % 512, n % 512)
  }

  /** A view after bytes have been copied to an address in its n pages from lo on. */
  ghost function WithBytes(v: View, lo: nat, n: nat, vaddr: nat, bytes: seq<Byte>): View {
    imap a: Addr | a in v ::
      if lo <= a.PageNo() < lo + n then Page(Overlaid(v[a].content, VAddr(a), vaddr, bytes), v[a].own) else v[a]
  }

  function ZeroBytes(n: nat): seq<Byte> {
    seq(n, _ => 0)
  }

  /** A segment is loaded: its pages are mapped, its bytes are copied in, and zeros behind them. */
  ghost function WithSegment(v: View, g: Segment): View
    requires |g.data| <= g.memSize
  {
    var lo, n := g.start.PageNo(), g.Pages();
    var copied := WithBytes(WithPages(v, lo, lo + n, false), lo, n, g.Begin(), g.data);
    WithBytes(copied, lo, n, g.Begin() + |g.data|, ZeroBytes(g.memSize - |g.data|))
  }

  /** What an image shows: its segments, later ones over earlier ones. */
  ghost function ImageOf(segments: seq<Segment>): View
    requires SegmentsFit(segments)
  {
    if segments == [] then imap[]
    else WithSegment(ImageOf(segments[..|segments| - 1]), segments[|segments| - 1])
  }

  /** A page of a segment: the bytes of the file are copied over it, and zeros behind them. */
  function SegmentPage(page: Frame, base: nat, g: Segment): Frame
    requires |g.data| <= g.memSize
  {
    Overlaid(Overlaid(page, base, g.Begin(), g.data), base, g.Begin() + |g.data|, ZeroBytes(g.memSize - |g.data|))
  }

  lemma SegmentPageByte(page: Frame, base: nat, g: Segment, k: nat)
    requires |g.data| <= g.memSize && k < PAGE_SIZE
    ensures ByteAt(SegmentPage(page, base, g), k) ==
              var i := base + k - g.Begin();
              if 0 <= i < |g.data| then g.data[i] else if 0 <= i < g.memSize then 0 else ByteAt(page, k)
  {
    hide ByteAt, Overlaid, VAddr;
    OverlaidByte(page, base, g.Begin(), g.data, k);
    var copied, zeros := Overlaid(page, base, g.Begin(), g.data), ZeroBytes(g.memSize - |g.data|);
    OverlaidByte(copied, base, g.Begin() + |g.data|, zeros, k);
  }

  lemma SegmentPages(v: View, g: Segment, a: Addr)
    requires g.Fits() && a.pml4 >= 256
    ensures var inside := g.start.PageNo() <= a.PageNo() < g.start.PageNo() + g.Pages();
            && (a in WithSegment(v, g) <==> a in v || inside)
            && (inside ==>
                  WithSegment(v, g)[a].content == SegmentPage(if a in v then v[a].content else Blank(), VAddr(a), g))
            && (!inside && a in v ==> WithSegment(v, g)[a] == v[a])
  {
    hide Overlaid, Addr.PageNo, VAddr;
  }

  /**
   * A loaded segment maps the pages from that of its address up to its end. Its bytes are the file's, zeros up to its
   * size in memory, and what was there elsewhere.
   */
  lemma SegmentByte(v: View, g: Segment, a: Addr, k: nat)
    requires g.Fits() && a.pml4 >= 256 && k < PAGE_SIZE
    ensures a in WithSegment(v, g) <==> a in v || VAddr(g.start) <= VAddr(a) < g.Begin() + g.memSize
    ensures a in WithSegment(v, g) ==>
              ByteAt(WithSegment(v, g)[a].content, k) ==
                var i := VAddr(a) + k - g.Begin();
                if 0 <= i < |g.data| then g.data[i]
                else if 0 <= i < g.memSize || a !in v then 0 else ByteAt(v[a].content, k)
  {
    hide ByteAt, SegmentPage, WithSegment, Addr.PageNo;
    SegmentPages(v, g, a);
    PagesUpToEnd(g.start.PageNo(), a.PageNo(), g.offset, g.memSize);
    BlankByte(k);
    SegmentPageByte(if a in v then v[a].content else Blank(), VAddr(a), g, k);
    if !(g.start.PageNo() <= a.PageNo() < g.start.PageNo() + g.Pages()) {
      OutsidePages(g.start.PageNo(), a.PageNo(), g.offset, g.memSize, k);
    }
  }

  lemma PagesUpToEnd(lo: nat, p: nat, offset: nat, memSize: nat)
    ensures lo <= p < lo + (offset + memSize + 4095) / 4096 <==>
            lo * PAGE_SIZE <= p * PAGE_SIZE < lo * PAGE_SIZE + offset + memSize
  {
  }

  /** The highest address at which a segment ends. */
  function EndOfSegments(segments: seq<Segment>): nat {
    if segments == [] then 0
    else
      var g := segments[|segments| - 1];
      Max(EndOfSegments(segments[..|segments| - 1]), g.Begin() + g.memSize)
  }

  lemma EndStep(segments: seq<Segment>, k: nat)
    requires k < |segments|
    ensures EndOfSegments(segments[..k + 1]) ==
              Max(EndOfSegments(segments[..k]), segments[k].Begin() + segments[k].memSize)
  {
    assert segments[..k + 1][..k] == segments[..k];
  }

  lemma NoEnd()
    ensures EndOfSegments([]) == 0
  {
  }

  /** The heap, which begins where the image ends, shares no page with it. */
  lemma {:induction false} HeapBehindImage(segments: seq<Segment>, a: Addr)
    requires SegmentsFit(segments) && a.pml4 >= 256 && a in ImageOf(segments)
    ensures VAddr(a) + PAGE_SIZE <= AlignUp(EndOfSegments(segments))
  {
    hide WithSegment, Addr.PageNo, ByteAt, AlignUp, VAddr;
    var n := |segments| - 1;
    assert segments[n].Fits();
    PageStart(a);
    SegmentByte(ImageOf(segments[..n]), segments[n], a, 0);
    if a in ImageOf(segments[..n]) {
      HeapBehindImage(segments[..n], a);
      AlignsUp(EndOfSegments(segments[..n]), EndOfSegments(segments), 0);
    } else {
      AlignsUp(EndOfSegments(segments[..n]), EndOfSegments(segments), VAddr(a));
    }
  }

  lemma AlignsUp(v: nat, w: nat, page: nat)
    ensures v <= w ==> AlignUp(v) <= AlignUp(w)
    ensures page % PAGE_SIZE == 0 && page < w ==> page + PAGE_SIZE <= AlignUp(w)
  {
  }

  lemma OutsidePages(lo: nat, p: nat, offset: nat, memSize: nat, k: nat)
    requires offset < PAGE_SIZE && k < PAGE_SIZE && !(lo <= p < lo + (offset + memSize + 4095) / 4096)
    ensures !(0 <= p * PAGE_SIZE + k - lo * PAGE_SIZE - offset < memSize)
  {
  }

  /** Spaces that are images have read-only pages only. */
  lemma ImageReadOnly(st: State, c: Space, lo: nat, hi: nat)
    requires Inv(st) && st.lay.Base(c) == c && APP_HALF <= lo
    ensures NoneShared(st, c, lo, hi, false)
  {
    hide Inv;
    forall a: Addr | lo <= a.PageNo() < hi && EntryAt(st, c, a).Some?
      ensures !EntryAt(st, c, a).value.writable
    {
      EntryTarget(st, c, a);
    }
  }

  /** Where nothing is mapped nothing is shared. */
  lemma FreeUnshared(st: State, s: Space, lo: nat, hi: nat)
    requires APP_HALF <= lo
    requires forall a: Addr :: a in ViewOf(st, s) ==> !(lo <= a.PageNo() < hi)
    ensures NoneShared(st, s, lo, hi, true)
  {
    forall a: Addr | lo <= a.PageNo() < hi
      ensures EntryAt(st, s, a).None?
    {
      assert a !in ViewOf(st, s);
    }
  }

  lemma TracksKept(roots: map<Space, FrameId>, appLoads: map<nat, Space>, s0: State, s1: State, s: Space)
    requires Tracks(roots, appLoads, s0.lay) && Inv(s0) && Touches(s0, s1, s) && s1.lay.base == s0.lay.base
    requires s1.lay.At(Pos(s, Top)) == s0.lay.At(Pos(s, Top))
    ensures Tracks(roots, appLoads, s1.lay)
  {
    forall r | r in roots ensures roots[r] == s1.lay.At(Pos(r, Top)) {
      RootIn(s0, r);
    }
  }

  lemma UnsharedPart(st: State, s: Space, lo: nat, mid: nat, hi: nat, writable: bool)
    requires NoneShared(st, s, lo, hi, writable) && mid <= hi
    ensures NoneShared(st, s, lo, mid, writable)
  {
  }

  /** SetupPageMap on the root, as the kernel's view sees it. */
  lemma PagesMapped(s0: State, s1: State, s: Space, start: Addr, done: nat, writable: bool)
    requires Inv(s0) && s in s0.lay.base && Private(s0, s)
    requires MapsRange(s0, s1, s, start.PageNo(), start.PageNo() + done, writable)
    requires NoneShared(s0, s, start.PageNo(), start.PageNo() + done, writable)
    ensures ChangesView(s0, s1, s, WithPages(ViewOf(s0, s), start.PageNo(), start.PageNo() + done, writable))
    ensures s1.lay.At(Pos(s, Top)) == s0.lay.At(Pos(s, Top))
  {
    hide Inv, MapsRange, ViewOf, Touches, ViewsOf, Private, NoneShared;
    MapsView(s0, s1, s, start.PageNo(), start.PageNo() + done, writable);
    RootIn(s0, s);
    MapsTouches(s0, s1, s, start.PageNo(), start.PageNo() + done, writable);
    ViewChanged(s0, s1, s, WithPages(ViewOf(s0, s), start.PageNo(), start.PageNo() + done, writable));
  }

  // ----- filling pages

  ghost predicate Owns(st: State, s: Space, a: Addr) {
    EntryAt(st, s, a).Some? && (EntryAt(st, s, a).value.writable || st.lay.Base(s) == s)
  }

  /** A write through the page tables to a page that belongs to s. */
  lemma PageFilled(st: State, s: Space, a: Addr, content: Frame)
    requires Inv(st) && s in st.lay.base && Private(st, s) && a.pml4 >= 256 && Owns(st, s, a)
    ensures var x := Walk(st.mem, st.lay.At(Pos(s, Top)), 4, a);
            && x.Some?
            && (var st' := st.(mem := st.mem[x.value.frame := content]);
                && Inv(st')
                && a in ViewOf(st, s) && ChangesView(st, st', s, Refilled(ViewOf(st, s), a, content))
                && forall b: Addr :: b.pml4 >= 256 ==> EntryAt(st', s, b) == EntryAt(st, s, b))
  {
    hide Inv, Private, ViewOf, Touches, Walk;
    RootOn(st, s, a);
    WalkIsEntry(st, s, a, 4);
    StoreView(st, s, a, content);
    var st' := SetPage(st, On(s, a, 0), content);
    ViewChanged(st, st', s, Refilled(ViewOf(st, s), a, content));
    forall b: Addr | b.pml4 >= 256 ensures EntryAt(st', s, b) == EntryAt(st, s, b) {
      PageIsNoTable(st, s, a, content, b);
    }
  }

  lemma CopiedNothing(st: State, s: Space, lo: nat, vaddr: nat, bytes: seq<Byte>)
    requires s in st.lay.base
    ensures ChangesView(st, st, s, WithBytes(ViewOf(st, s), lo, 0, vaddr, bytes))
  {
    hide ViewOf, Touches, Overlaid;
    assert WithBytes(ViewOf(st, s), lo, 0, vaddr, bytes) == ViewOf(st, s);
    assert Touches(st, st, s) by { TouchesSelf(st, s); }
  }

  lemma TouchesSelf(st: State, s: Space)
    ensures Touches(st, st, s)
  {
  }

  lemma OneMoreCopied(s0: State, s1: State, s2: State, s: Space, lo: nat, k: nat, vaddr: nat, bytes: seq<Byte>)
    requires s in s0.lay.base && APP_HALF <= lo && lo + k < LAST_PAGE && AddrOf(lo + k) in ViewOf(s1, s)
    requires ChangesView(s0, s1, s, WithBytes(ViewOf(s0, s), lo, k, vaddr, bytes))
    requires var a := AddrOf(lo + k);
             ChangesView(s1, s2, s,
                         Refilled(ViewOf(s1, s), a, Overlaid(ViewOf(s1, s)[a].content, VAddr(a), vaddr, bytes)))
    ensures ChangesView(s0, s2, s, WithBytes(ViewOf(s0, s), lo, k + 1, vaddr, bytes))
  {
    hide ViewOf, Touches, Overlaid, VAddr;
    TouchesTrans(s0, s1, s2, s);
    var v := ViewOf(s0, s);
    assert ViewOf(s1, s) == ViewsOf(s1)[s] == WithBytes(v, lo, k, vaddr, bytes);
    CopyStep(v, lo, k, vaddr, bytes);
  }

  lemma CopyStep(v: View, lo: nat, k: nat, vaddr: nat, bytes: seq<Byte>)
    requires APP_HALF <= lo && lo + k < LAST_PAGE && AddrOf(lo + k) in v
    ensures var a, w := AddrOf(lo + k), WithBytes(v, lo, k, vaddr, bytes);
            && a in w
            && Refilled(w, a, Overlaid(w[a].content, VAddr(a), vaddr, bytes)) == WithBytes(v, lo, k + 1, vaddr, bytes)
  {
    hide Overlaid, VAddr;
    var a := AddrOf(lo + k);
    forall b: Addr ensures b.PageNo() == lo + k <==> b == a {
      SamePage(a, b);
    }
  }

  lemma OwnsKept(s0: State, s1: State, s: Space, lo: nat, hi: nat)
    requires APP_HALF <= lo && s1.lay == s0.lay
    requires forall a: Addr :: lo <= a.PageNo() < hi ==> Owns(s0, s, a)
    requires forall b: Addr :: b.pml4 >= 256 ==> EntryAt(s1, s, b) == EntryAt(s0, s, b)
    ensures forall a: Addr :: lo <= a.PageNo() < hi ==> Owns(s1, s, a)
  {
    hide EntryAt;
  }

  lemma PrivateKept(s0: State, s1: State, s: Space)
    requires Private(s0, s) && s1.lay.base == s0.lay.base
    ensures Private(s1, s)
  {
  }

  lemma RootTracked(roots: map<Space, FrameId>, appLoads: map<nat, Space>, lay: Layout, s: Space)
    requires Tracks(roots, appLoads, lay) && s in roots
    ensures s in lay.base && roots[s] == lay.At(Pos(s, Top))
  {
  }

  // ----- loading

  lemma InAppHalf(a: Addr)
    requires a.pml4 >= 256
    ensures APP_HALF <= a.PageNo() < LAST_PAGE
  {
  }

  lemma ImageCopied(s0: State, s1: State, s: Space, c: Space, done: nat)
    requires Inv(s0) && s in s0.lay.base && s0.lay.Base(s) == c && c != s && IsImage(s0.lay, c)
    requires Copies(s0, s1, s, c, FirstAppPage().PageNo(), done)
    ensures Touches(s0, s1, s) && s1.lay.base == s0.lay.base && s1.lay.At(Pos(s, Top)) == s0.lay.At(Pos(s, Top))
    ensures done == LAST_PAGE ==> ChangesView(s0, s1, s, ViewOf(s0, c))
  {
    assert FirstAppPage().PageNo() == APP_HALF;
    RootIn(s0, s);
    CopyPersists(s0, s1, s, c, APP_HALF, done);
    if done == LAST_PAGE {
      CopiesView(s0, s1, s, c, done);
      CopiesTouches(s0, s1, s, c, APP_HALF, done);
      ProcessIsPrivate(s0, s);
      hide Inv, Touches, ViewOf, Copies;
      ViewChanged(s0, s1, s, ViewOf(s0, c));
    }
  }

  /** Every page that is mapped is one of the image's. */
  ghost predicate AllShared(st: State, s: Space) {
    forall a: Addr :: a.pml4 >= 256 && EntryAt(st, s, a).Some? ==> !EntryAt(st, s, a).value.writable
  }

  lemma CopyShares(s0: State, s1: State, s: Space, c: Space)
    requires Inv(s0) && IsImage(s0.lay, c) && Copies(s0, s1, s, c, FirstAppPage().PageNo(), LAST_PAGE)
    ensures AllShared(s1, s)
  {
    hide Inv;
    forall a: Addr | a.pml4 >= 256 && EntryAt(s1, s, a).Some? ensures !EntryAt(s1, s, a).value.writable {
      InAppHalf(a);
      assert EntryAt(s1, s, a) == EntryAt(s0, c, a);
      EntryTarget(s0, c, a);
    }
  }

  lemma CopiesTouches(s0: State, s1: State, s: Space, c: Space, lo: nat, hi: nat)
    requires Copies(s0, s1, s, c, lo, hi)
    ensures Touches(s0, s1, s)
  {
  }

  lemma NoSegments(st: State, c: Space)
    requires c in st.lay.base && ViewOf(st, c) == imap[]
    ensures ChangesView(st, st, c, ImageOf([]))
  {
    hide ViewOf;
    assert Touches(st, st, c) by { TouchesSelf(st, c); }
  }

  lemma ChangesJoin(s0: State, s1: State, s2: State, s: Space, v: View, w: View)
    requires ChangesView(s0, s1, s, v) && ChangesView(s1, s2, s, w)
    ensures ChangesView(s0, s2, s, w)
  {
    hide Touches, ViewOf, ViewsOf;
    TouchesTrans(s0, s1, s2, s);
  }

  lemma ChangedView(s0: State, s1: State, s: Space, v: View)
    requires ChangesView(s0, s1, s, v)
    ensures ViewOf(s1, s) == v && s in s1.lay.base
  {
    hide Touches, ViewOf;
    assert ViewsOf(s1)[s] == v;
  }

  /** In an image, a mapped page is the image's own. */
  lemma MappedOwned(s0: State, s1: State, c: Space, lo: nat, hi: nat)
    requires s1.lay.base == s0.lay.base && s0.lay.Base(c) == c && APP_HALF <= lo
    requires ChangesView(s0, s1, c, WithPages(ViewOf(s0, c), lo, hi, false))
    ensures forall a: Addr :: lo <= a.PageNo() < hi ==> Owns(s1, c, a)
  {
    ChangedView(s0, s1, c, WithPages(ViewOf(s0, c), lo, hi, false));
    forall a: Addr | lo <= a.PageNo() < hi ensures Owns(s1, c, a) {
      assert a in ViewOf(s1, c);
    }
  }

  lemma OnePageImage()
    ensures SegmentsFit([Segment(STACK_PAGE, 0, [], PAGE_SIZE)])
    ensures STACK_PAGE in ImageOf([Segment(STACK_PAGE, 0, [], PAGE_SIZE)])
  {
    hide Overlaid;
    var segments := [Segment(STACK_PAGE, 0, [], PAGE_SIZE)];
    assert segments[..0] == [];
    assert ImageOf(segments) == WithSegment(ImageOf(segments[..0]), segments[0]);
  }

  lemma SegmentLoaded(s0: State, s1: State, s2: State, s3: State, s4: State, c: Space, segments: seq<Segment>, k: nat)
    requires k < |segments| && SegmentsFit(segments) && SegmentsFit(segments[..k]) && SegmentsFit(segments[..k + 1])
    requires ChangesView(s0, s1, c, ImageOf(segments[..k]))
    requires var g, lo, n := segments[k], segments[k].start.PageNo(), segments[k].Pages();
             && ChangesView(s1, s2, c, WithPages(ViewOf(s1, c), lo, lo + n, false))
             && ChangesView(s2, s3, c, WithBytes(ViewOf(s2, c), lo, n, g.Begin(), g.data))
             && ChangesView(s3, s4, c, WithBytes(ViewOf(s3, c), lo, n, g.Begin() + |g.data|,
                                                 ZeroBytes(g.memSize - |g.data|)))
    ensures ChangesView(s0, s4, c, ImageOf(segments[..k + 1]))
  {
    hide Touches, ViewOf, ViewsOf, ChangesView, WithPages, WithBytes, ImageOf, Addr.PageNo, SegmentsFit, VAddr;
    var g, lo, n, v := segments[k], segments[k].start.PageNo(), segments[k].Pages(), ImageOf(segments[..k]);
    var copied := WithBytes(WithPages(v, lo, lo + n, false), lo, n, g.Begin(), g.data);
    ChangedView(s0, s1, c, v);
    ChangedView(s1, s2, c, WithPages(v, lo, lo + n, false));
    ChangedView(s2, s3, c, copied);
    ImageStep(segments, k);
    ChangesJoin(s0, s1, s2, c, v, WithPages(v, lo, lo + n, false));
    ChangesJoin(s0, s2, s3, c, WithPages(v, lo, lo + n, false), copied);
    ChangesJoin(s0, s3, s4, c, copied, WithSegment(v, g));
  }

  lemma ImageStep(segments: seq<Segment>, k: nat)
    requires k < |segments| && SegmentsFit(segments)
    ensures segments[k].Fits() && SegmentsFit(segments[..k]) && SegmentsFit(segments[..k + 1])
    ensures ImageOf(segments[..k + 1]) == WithSegment(ImageOf(segments[..k]), segments[k])
  {
    hide WithSegment, Segment.Fits;
    assert segments[..k + 1][..k] == segments[..k];
    assert segments[k].Fits();
  }

  lemma ChangesTouches(s0: State, s1: State, s: Space, v: View)
    requires ChangesView(s0, s1, s, v)
    ensures Touches(s0, s1, s) && s1.lay.base == s0.lay.base
  {
  }

  lemma NewRoot(s0: State, s1: State, s: Space, b: Space)
    requires Inv(s0) && Touches(s0, s1, s) && s !in s0.lay.base && s1.lay.base == s0.lay.base[s := b]
    requires ViewsOf(s1) == ViewsOf(s0)[s := imap[]]
    ensures ViewOf(s1, s) == imap[]
    ensures b == s ==> Private(s1, s)
  {
    hide ViewOf, Touches;
    assert ViewsOf(s1)[s] == imap[];
    NotBased(s0, s);
  }

  lemma Loaded(s0: State, s1: State, s2: State, s: Space, c: Space)
    requires Touches(s0, s1, s) && c != s && c in s0.lay.base && s1.lay.base == s0.lay.base[s := c]
    requires ViewsOf(s1) == ViewsOf(s0)[s := imap[]]
    requires ChangesView(s1, s2, s, ViewOf(s1, c))
    ensures Touches(s0, s2, s)
    ensures ViewsOf(s2) == ViewsOf(s0)[s := ViewOf(s0, c)]
  {
    hide ViewOf, Touches;
    TouchesTrans(s0, s1, s2, s);
    assert ViewsOf(s1)[c] == ViewsOf(s0)[c];
  }

  lemma FirstLoaded(s0: State, s1: State, s2: State, s3: State, s4: State, c: Space, s: Space, segments: seq<Segment>)
    requires c != s && s !in s0.lay.base && SegmentsFit(segments)
    requires ViewsOf(s1) == ViewsOf(s0)[c := imap[]]
    requires ChangesView(s1, s2, c, ImageOf(segments))
    requires s3.lay.base == s2.lay.base[s := c] && ViewsOf(s3) == ViewsOf(s2)[s := imap[]]
    requires ChangesView(s3, s4, s, ViewOf(s3, c))
    ensures ViewsOf(s4) == ViewsOf(s0)[c := ImageOf(segments)][s := ImageOf(segments)]
  {
    hide ViewOf, Touches, ImageOf, ViewsOf, SegmentsFit;
    ChangedView(s1, s2, c, ImageOf(segments));
    assert ViewsOf(s3)[c] == ViewsOf(s2)[c];
    InViews(s2, c);
    InViews(s3, c);
  }

  lemma InViews(st: State, s: Space)
    ensures s in ViewsOf(st) <==> s in st.lay.base
    ensures s in st.lay.base ==> ViewsOf(st)[s] == ViewOf(st, s)
  {
  }

  // ----- taking a process down

  lemma Processed(roots: map<Space, FrameId>, appLoads: map<nat, Space>, st: State, s: Space)
    requires Tracks(roots, appLoads, st.lay) && Process(st, s)
    ensures s in roots && roots[s] == st.lay.At(Pos(s, Top))
  {
  }

  lemma TracksGone(roots: map<Space, FrameId>, appLoads: map<nat, Space>, l0: Layout, l1: Layout, s: Space)
    requires Tracks(roots, appLoads, l0) && s in l0.base && l0.Base(s) != s && l1.base == l0.base - {s}
    requires forall r :: r in l0.base && r != s ==> l1.At(Pos(r, Top)) == l0.At(Pos(r, Top))
    ensures Tracks(roots - {s}, appLoads, l1)
  {
  }

  lemma TouchesRoots(s0: State, s1: State, s: Space)
    requires Inv(s0) && Touches(s0, s1, s)
    ensures forall r :: r in s0.lay.base && r != s ==> s1.lay.At(Pos(r, Top)) == s0.lay.At(Pos(r, Top))
  {
    forall r | r in s0.lay.base && r != s ensures s1.lay.At(Pos(r, Top)) == s0.lay.At(Pos(r, Top)) {
      RootIn(s0, r);
    }
  }

  lemma Exited(s0: State, s1: State, s: Space, frame: FrameId)
    requires Inv(s0) && Inv(s1) && Process(s0, s)
    requires Shrinks(s0, s1, s, FirstAppPage().PageNo(), FirstAppPage().EndOf(4))
    requires Pos(s, Top) in s1.lay.at && frame == s1.lay.At(Pos(s, Top)) && EmptyFrom(s1, Pos(s, Top), 256)
    ensures var s2 := RemoveRoot(s1, s);
            && Inv(s2) && Touches(s0, s2, s) && s2.lay.base == s0.lay.base - {s}
            && ViewsOf(s2) == Gone(ViewsOf(s0), s)
  {
    hide Inv, Shrinks, EmptyFrom, ViewOf, Touches, Private, Addr.PageNo, Addr.EndOf;
    var s2 := RemoveRoot(s1, s);
    ShrinksTouches(s0, s1, s, FirstAppPage().PageNo(), FirstAppPage().EndOf(4));
    RootHasNoChildren(s1, s);
    RemoveRootKeeps(s1, s);
    RemoveRootTouches(s1, s);
    TouchesTrans(s0, s1, s2, s);
    ProcessIsPrivate(s0, s);
    OneView(s0, s2, s);
  }

  lemma ShrinksTouches(s0: State, s1: State, s: Space, lo: nat, hi: nat)
    requires Shrinks(s0, s1, s, lo, hi)
    ensures Touches(s0, s1, s) && s1.lay.base == s0.lay.base
  {
  }

  lemma RootHasNoChildren(st: State, s: Space)
    requires Inv(st) && Pos(s, Top) in st.lay.at && EmptyFrom(st, Pos(s, Top), 256)
    ensures forall i: Index :: i >= 256 ==> Pos(s, Top).Child(i) !in st.lay.at
  {
    forall i: Index | i >= 256 ensures Pos(s, Top).Child(i) !in st.lay.at {
      GoodAt(st, Pos(s, Top), i);
    }
  }

  lemma RemoveRootTouches(st: State, s: Space)
    requires Inv(st) && s in st.lay.base
    ensures Touches(st, RemoveRoot(st, s), s)
  {
    hide Inv;
  }

  // ----- answering faults

  lemma PageSplit(roots: map<Space, FrameId>, appLoads: map<nat, Space>, s0: State, s1: State, s: Space, a: Addr)
    requires Inv(s0) && Tracks(roots, appLoads, s0.lay) && Process(s0, s) && Splits(s0, s1, s, a)
    requires a.pml4 >= 256 && EntryAt(s0, s, a).Some?
    ensures Tracks(roots, appLoads, s1.lay)
    ensures a in ViewOf(s0, s)
    ensures ChangesView(s0, s1, s, WithPage(ViewOf(s0, s), a, Page(ViewOf(s0, s)[a].content, true)))
    ensures EntryAt(s1, s, a).Some? && EntryAt(s1, s, a).value.writable
  {
    hide Inv, ViewOf, Touches, Private, ViewsOf;
    RootIn(s0, s);
    SplitsView(s0, s1, s, a);
    ProcessIsPrivate(s0, s);
    ViewChanged(s0, s1, s, WithPage(ViewOf(s0, s), a, Page(ViewOf(s0, s)[a].content, true)));
    TracksKept(roots, appLoads, s0, s1, s);
  }

  /** An unmapped page can be mapped without touching a shared one. */
  lemma NotMapped(st: State, s: Space, a: Addr)
    requires a.pml4 >= 256 && EntryAt(st, s, a).None?
    ensures NoneShared(st, s, a.PageNo(), a.PageNo() + 1, true) && a !in ViewOf(st, s)
    ensures a.PageNo() + 1 <= LAST_PAGE
  {
    forall b: Addr | a.PageNo() <= b.PageNo() < a.PageNo() + 1 ensures b == a {
      SamePage(a, b);
    }
  }

  lemma OneMapped(s0: State, s1: State, s: Space, a: Addr, done: nat)
    requires Process(s0, s) && a.pml4 >= 256 && a !in ViewOf(s0, s) && done <= 1 && Inv(s1)
    requires ChangesView(s0, s1, s, WithPages(ViewOf(s0, s), a.PageNo(), a.PageNo() + done, true))
    ensures done == 1 ==> ChangesView(s0, s1, s, WithPage(ViewOf(s0, s), a, Page(Blank(), true)))
    ensures done == 0 ==> ChangesView(s0, s1, s, ViewOf(s0, s))
  {
    hide Inv, Touches, ViewOf, ViewsOf, ChangesView;
    forall b: Addr | a.PageNo() <= b.PageNo() < a.PageNo() + 1 ensures b == a {
      SamePage(a, b);
    }
    if done == 1 {
      assert WithPages(ViewOf(s0, s), a.PageNo(), a.PageNo() + 1, true)
          == WithPage(ViewOf(s0, s), a, Page(Blank(), true));
    } else {
      assert WithPages(ViewOf(s0, s), a.PageNo(), a.PageNo(), true) == ViewOf(s0, s);
    }
  }

  lemma Unchanged(st: State, s: Space)
    requires s in st.lay.base
    ensures ChangesView(st, st, s, ViewOf(st, s))
  {
    hide Touches, ViewOf;
    TouchesSelf(st, s);
  }

  /** A page that has just been mapped can be written. */
  lemma MappedOnce(s0: State, s1: State, s: Space, a: Addr)
    requires Private(s0, s) && Granted(s1, s, a.PageNo(), a.PageNo() + 1, true)
    requires ChangesView(s0, s1, s, WithPage(ViewOf(s0, s), a, Page(Blank(), true)))
    ensures Private(s1, s)
    ensures EntryAt(s1, s, a).Some? && EntryAt(s1, s, a).value.writable
    ensures forall b: Addr :: a.PageNo() <= b.PageNo() < a.PageNo() + 1 ==> Owns(s1, s, b)
  {
    hide EntryAt, ViewOf, ViewsOf, Touches;
  }

  /** The page of an address in a window starts inside the window, below the end of its file. */
  lemma WindowStart(t: TaskMem, a: Addr, offset: nat)
    requires Windows(t) && offset < PAGE_SIZE && InWindow(t, VAddr(a) + offset)
    ensures var m := t.fileMaps[FirstWindow(t.fileMaps, VAddr(a) + offset).value];
            && t.Open(m.fd) && m.vaddrBegin <= VAddr(a) && VAddr(a) - m.vaddrBegin <= t.Size(m.fd)
            && (!InHeap(t, VAddr(a) + offset) ==>
                  DemandedPage(t, VAddr(a) + offset) == Some(FilePage(t.files[m.fd].value, VAddr(a) - m.vaddrBegin)))
  {
    hide VAddr, FilePage;
    var i := FirstWindow(t.fileMaps, VAddr(a) + offset).value;
    assert Window(t, t.fileMaps[i]);
    PageStart(a);
    WindowPage(t, i, VAddr(a) + offset);
    StartOfPage(VAddr(a), offset);
  }

  lemma PageStart(a: Addr)
    ensures VAddr(a) % PAGE_SIZE == 0
  {
    hide Addr.PageNo;
  }

  lemma StartOfPage(v: nat, offset: nat)
    requires v % PAGE_SIZE == 0 && offset < PAGE_SIZE
    ensures AlignDown(v + offset) == v
  {
  }

  // ----- user-mode accesses

  /** A store to a shared page's frame is a store to the image. */
  lemma ImageStored(st: State, s: Space, a: Addr, content: Frame)
    requires Inv(st) && s in st.lay.base && a.pml4 >= 256
    requires EntryAt(st, s, a).Some? && !EntryAt(st, s, a).value.writable
    ensures var x := Walk(st.mem, st.lay.At(Pos(s, Top)), 4, a);
            && x.Some?
            && (var st', c := st.(mem := st.mem[x.value.frame := content]), st.lay.Base(s);
                Inv(st') && a in ViewOf(st, c) && ViewOf(st', c) == Refilled(ViewOf(st, c), a, content))
  {
    hide Inv, Walk;
    var c := st.lay.Base(s);
    RootOn(st, s, a);
    WalkIsEntry(st, s, a, 4);
    EntryTarget(st, s, a);
    ImageBase(st, s);
    ImageShows(st, c, a);
    StoreView(st, c, a, content);
  }

  /** A page of one's own can be read through the walk. */
  lemma OwnedSeen(st: State, s: Space, a: Addr)
    requires Inv(st) && s in st.lay.base && a.pml4 >= 256 && Owns(st, s, a)
    ensures var x := Walk(st.mem, st.lay.At(Pos(s, Top)), 4, a);
            x.Some? && a in ViewOf(st, s) && ViewOf(st, s)[a].content == Content(st, x.value.frame)
  {
    hide Inv, Walk, ViewOf;
    Seen(st, s, a);
  }

  lemma FitsPrefix(segments: seq<Segment>, k: nat)
    requires SegmentsFit(segments) && k <= |segments|
    ensures SegmentsFit(segments[..k])
  {
  }

  /** The hardware's walk agrees with the view. */
  lemma Seen(st: State, s: Space, a: Addr)
    requires Inv(st) && s in st.lay.base && a.pml4 >= 256
    ensures var x := Walk(st.mem, st.lay.At(Pos(s, Top)), 4, a);
            && (x.Some? <==> EntryAt(st, s, a).Some?) && (x.Some? <==> a in ViewOf(st, s))
            && (x.Some? ==>
                  && x.value.user && x.value.writable == EntryAt(st, s, a).value.writable
                  && ViewOf(st, s)[a] == Page(Content(st, x.value.frame), x.value.writable)
                  && (x.value.writable ==> Owns(st, s, a)))
  {
    hide Inv, Walk;
    RootIn(st, s);
    WalkIsEntry(st, s, a, 4);
  }

  lemma AccessedOwn(v: View, t: TaskMem, a: Addr, offset: nat)
    ensures a in Accessed(v, t, a, offset, true) ==> Accessed(v, t, a, offset, true)[a].own
  {
    hide DemandedPage, VAddr;
  }

  lemma AccessedShared(v: View, t: TaskMem, a: Addr, offset: nat)
    requires a in Accessed(v, t, a, offset, false) && !Accessed(v, t, a, offset, false)[a].own
    ensures a in v && Accessed(v, t, a, offset, false) == v
  {
    hide DemandedPage, VAddr;
  }

  /** In a page of one's own, the system call's store is the app's. */
  lemma StoredOwn(v: View, t: TaskMem, a: Addr, i: Index, w: Word)
    requires OwnAfterAccess(v, t, a, i)
    ensures var v' := Accessed(v, t, a, 8 * i, false);
            Stored(v, t, a, i, w) == Refilled(v', a, WithWord(v'[a].content, i, w))
  {
    hide DemandedPage, VAddr, WithWord;
    if a in v {
      assert Page(v[a].content, true) == v[a];
      assert WithPage(v, a, v[a]) == v;
    }
  }

  /** The image of a space stays as it is. */
  /** The space r shows the page of image c at a, and has not split it. */
  ghost predicate Sharer(st: State, c: Space, r: Space, a: Addr) {
    r in st.lay.base && st.lay.Base(r) == c && a in ViewOf(st, r) && !ViewOf(st, r)[a].own
  }

  /** The content of a shared page changes for all who share it, and nobody sees anything else. */
  ghost predicate SeenByAllSharers(s0: State, s1: State, c: Space, a: Addr, content: Frame) {
    && s1.lay.base == s0.lay.base
    && forall r :: r in s0.lay.base ==>
         ViewOf(s1, r) == if Sharer(s0, c, r, a) then Refilled(ViewOf(s0, r), a, content) else ViewOf(s0, r)
  }

  lemma SharersSee(before: State, ready: State, s: Space, a: Addr, v: View, content: Frame)
    requires Inv(before) && Inv(ready) && Process(before, s) && a.pml4 >= 256
    requires ChangesView(before, ready, s, v) && v == ViewOf(before, s)
    requires EntryAt(ready, s, a).Some? && !EntryAt(ready, s, a).value.writable
    ensures Walk(ready.mem, ready.lay.At(Pos(s, Top)), 4, a).Some?
    ensures var x := Walk(ready.mem, ready.lay.At(Pos(s, Top)), 4, a);
            SeenByAllSharers(before, ready.(mem := ready.mem[x.value.frame := content]), before.lay.Base(s), a, content)
  {
    hide Inv, Walk, ViewOf, Touches;
    ImageStored(ready, s, a, content);
    WalkOfShared(ready, s, a);
    InViews(before, s);
    var e, c := EntryAt(ready, s, a).value, before.lay.Base(s);
    var stored := ready.(mem := ready.mem[e.addr := content]);
    forall r | r in before.lay.base
      ensures ViewOf(stored, r) ==
                if Sharer(before, c, r, a) then Refilled(ViewOf(before, r), a, content) else ViewOf(before, r)
    {
      InViews(before, r);
      InViews(ready, r);
      SharerSees(ready, s, r, a, content);
    }
  }

  lemma WalkOfShared(st: State, s: Space, a: Addr)
    requires Inv(st) && s in st.lay.base && a.pml4 >= 256 && EntryAt(st, s, a).Some?
    ensures var x := Walk(st.mem, st.lay.At(Pos(s, Top)), 4, a);
            x.Some? && x.value.frame == EntryAt(st, s, a).value.addr
  {
    hide Inv, Walk;
    RootOn(st, s, a);
    WalkIsEntry(st, s, a, 4);
  }

  lemma SharerSees(st: State, s: Space, r: Space, a: Addr, content: Frame)
    requires Inv(st) && s in st.lay.base && r in st.lay.base && a.pml4 >= 256
    requires EntryAt(st, s, a).Some? && !EntryAt(st, s, a).value.writable
    ensures var stored := st.(mem := st.mem[EntryAt(st, s, a).value.addr := content]);
            ViewOf(stored, r) == if Sharer(st, st.lay.Base(s), r, a) then Refilled(ViewOf(st, r), a, content)
                                 else ViewOf(st, r)
  {
    hide Inv, ShownAt, EntryAt;
    var stored := st.(mem := st.mem[EntryAt(st, s, a).value.addr := content]);
    forall b: Addr | b.pml4 >= 256
      ensures ShownAt(stored, r, b) ==
                if b == a && st.lay.Base(r) == st.lay.Base(s) && ShownAt(st, r, a).Some? && !ShownAt(st, r, a).value.own
                then Some(Page(content, false)) else ShownAt(st, r, b)
    {
      SharedShown(st, s, r, a, b, content);
    }
  }

  lemma SharedShown(st: State, s: Space, r: Space, a: Addr, b: Addr, content: Frame)
    requires Inv(st) && s in st.lay.base && r in st.lay.base && a.pml4 >= 256 && b.pml4 >= 256
    requires EntryAt(st, s, a).Some? && !EntryAt(st, s, a).value.writable
    ensures var stored := st.(mem := st.mem[EntryAt(st, s, a).value.addr := content]);
            ShownAt(stored, r, b) ==
              if b == a && st.lay.Base(r) == st.lay.Base(s) && ShownAt(st, r, a).Some? && !ShownAt(st, r, a).value.own
              then Some(Page(content, false)) else ShownAt(st, r, b)
  {
    hide Inv;
    SharedFrame(st, s, r, a, b);
  }

  /** Which pages of which spaces are in the frame of a shared page; no table is. */
  lemma SharedFrame(st: State, s: Space, r: Space, a: Addr, b: Addr)
    requires Inv(st) && s in st.lay.base && r in st.lay.base && a.pml4 >= 256 && b.pml4 >= 256
    requires EntryAt(st, s, a).Some? && !EntryAt(st, s, a).value.writable
    ensures var frame := EntryAt(st, s, a).value.addr;
            && (On(r, b, 1) in st.lay.at ==> st.lay.At(On(r, b, 1)) != frame)
            && (EntryAt(st, r, b).Some? ==>
                  var e := EntryAt(st, r, b).value;
                  e.addr == frame <==> b == a && !e.writable && st.lay.Base(r) == st.lay.Base(s))
  {
    hide Inv;
    var c := st.lay.Base(s);
    var q := On(c, a, 0);
    EntryTarget(st, s, a);
    OnLevel(c, a, 0);
    OnLevel(r, b, 1);
    if On(r, b, 1) in st.lay.at {
      Apart(st, On(r, b, 1), q);
    }
    if EntryAt(st, r, b).Some? {
      EntryTarget(st, r, b);
      var e := EntryAt(st, r, b).value;
      var p := On(if e.writable then r else st.lay.Base(r), b, 0);
      if p != q {
        Apart(st, p, q);
      }
      if e.writable {
        ImageBase(st, s);
        assert p != q;
      }
    }
  }

  lemma ImageUntouched(s0: State, s1: State, s: Space, v: View)
    requires Inv(s0) && Process(s0, s) && ChangesView(s0, s1, s, v)
    ensures s1.lay.Base(s) == s0.lay.Base(s) && ViewOf(s1, s1.lay.Base(s)) == ViewOf(s0, s0.lay.Base(s))
  {
    hide Inv, ViewOf, Touches;
    ImageBase(s0, s);
    var c := s0.lay.Base(s);
    InViews(s0, c);
    InViews(s1, c);
  }

  lemma PagePut(v: View, a: Addr, page: Page)
    ensures a in WithPage(v, a, page) && WithPage(v, a, page)[a] == page
    ensures forall content: Frame ::
              Refilled(WithPage(v, a, page), a, content) == WithPage(v, a, Page(content, page.own))
  {
  }

  // ----- events

  ghost function Images(st: State): iset<Space> {
    iset c: Space | IsImage(st.lay, c)
  }

  lemma LegalMeans(st: State, roots: map<Space, FrameId>, appLoads: map<nat, Space>, tasks: map<Space, TaskMem>,
                   e: Event)
    requires Tracks(roots, appLoads, st.lay) && Inv(st) && Legal(Machine(ViewsOf(st), tasks), Images(st), e)
    ensures e.LoadEvent? ==>
              && e.space !in roots && e.space !in st.lay.base
              && e.image in roots && IsImage(st.lay, e.image) && e.image != e.space
    ensures !e.LoadEvent? ==> Process(st, e.space) && e.space in roots && ViewsOf(st)[e.space] == ViewOf(st, e.space)
  {
    hide Inv, ViewOf;
    if !e.LoadEvent? {
      assert e.space in st.lay.base;
      assert !IsImage(st.lay, e.space);
    }
  }

  lemma FirstLegal(st: State, roots: map<Space, FrameId>, appLoads: map<nat, Space>, tasks: map<Space, TaskMem>,
                   s: Space, c: Space)
    requires Tracks(roots, appLoads, st.lay) && Inv(st)
    requires LegalAll(Machine(ViewsOf(st), tasks), Images(st), [LoadEvent(s, c)])
    ensures s !in st.lay.base && c in st.lay.base && c != s && IsImage(st.lay, c)
    ensures ApplyAll(Machine(ViewsOf(st), tasks), [LoadEvent(s, c)]) == Machine(ViewsOf(st)[s := ViewOf(st, c)], tasks)
  {
    hide Inv, ViewOf;
    var m := Machine(ViewsOf(st), tasks);
    LegalMeans(st, roots, appLoads, tasks, LoadEvent(s, c));
    assert ApplyAll(m, [LoadEvent(s, c)]) == Apply(m, LoadEvent(s, c));
  }

  lemma AppLoaded(s0: State, s1: State, s: Space, c: Space)
    requires s !in s0.lay.base && IsImage(s0.lay, c) && s1.lay.base == s0.lay.base[s := c]
    ensures Images(s1) == Images(s0) && s !in Images(s1) && s in ViewsOf(s1)
  {
    hide ViewOf;
  }

  lemma StillProcess(s1: State, s2: State, tasks: map<Space, TaskMem>, s: Space, es: seq<Event>)
    requires Images(s2) == Images(s1) && s !in Images(s1) && s in ViewsOf(s1)
    requires ViewsOf(s2) == ApplyAll(Machine(ViewsOf(s1), tasks), es).views
    requires forall k :: 0 <= k < |es| ==> !es[k].ExitEvent?
    ensures Process(s2, s) && s in ViewsOf(s2)
  {
    hide ViewOf;
    Stays(Machine(ViewsOf(s1), tasks), es, s);
    assert s in ViewsOf(s2);
  }

  lemma SameViews(s0: State, s1: State, s: Space)
    requires Inv(s0) && Touches(s0, s1, s) && s !in s0.lay.base && s !in s1.lay.base
    ensures ViewsOf(s1) == ViewsOf(s0)
  {
    hide Inv, ViewOf;
    NotBased(s0, s);
    OneView(s0, s1, s);
  }

  /** What a changed view means for the machine. */
  lemma StepView(s0: State, s1: State, tasks: map<Space, TaskMem>, s: Space, v: View)
    requires ChangesView(s0, s1, s, v) && s in s0.lay.base
    ensures Touches(s0, s1, s) && Images(s1) == Images(s0)
    ensures Machine(ViewsOf(s1), tasks) == Shows(Machine(ViewsOf(s0), tasks), s, v)
    ensures v == ViewOf(s0, s) ==> Machine(ViewsOf(s1), tasks) == Machine(ViewsOf(s0), tasks)
    ensures forall r :: r != s ==> SameAt(Machine(ViewsOf(s0), tasks), Machine(ViewsOf(s1), tasks), r)
  {
    hide Touches, ViewOf;
  }

  /** The same when only the space is known. */
  lemma StepElsewhere(s0: State, s1: State, tasks: map<Space, TaskMem>, s: Space)
    requires Inv(s0) && Touches(s0, s1, s) && Private(s0, s)
    ensures forall r :: r != s ==> SameAt(Machine(ViewsOf(s0), tasks), Machine(ViewsOf(s1), tasks), r)
  {
    hide Inv, Touches, ViewsOf;
    OneView(s0, s1, s);
  }

  /** The system calls change no view, and an exit only the space's own. */
  lemma TasksStep(m: Machine, n: Machine, e: Event)
    requires n == Apply(m, e)
    ensures forall r :: r != e.space ==> SameAt(m, n, r)
  {
    hide Apply;
    forall r | r != e.space ensures SameAt(m, n, r) {
      Elsewhere(m, e, r);
    }
  }

  lemma NothingApplied(m: Machine, es: seq<Event>)
    ensures forall s :: SameAt(ApplyAll(m, es[..0]), m, s)
  {
    assert es[..0] == [];
    hide SameAt;
    forall s ensures SameAt(m, m, s) {
      SameTrans(m, m, m, s);
    }
  }

  lemma OneMoreApplied(m: Machine, images: iset<Space>, es: seq<Event>, k: nat)
    requires k < |es| && LegalAll(m, images, es)
    ensures ApplyAll(m, es[..k + 1]) == Apply(ApplyAll(m, es[..k]), es[k])
    ensures Legal(ApplyAll(m, es[..k]), images, es[k])
  {
    hide Legal, Apply;
    assert es[..k] + es[k..] == es && es[..k] + [es[k]] == es[..k + 1];
    LegalSplit(m, images, es[..k], es[k..]);
    LegalSplit(m, images, es[..k], [es[k]]);
    assert ApplyAll(Apply(ApplyAll(m, es[..k]), es[k]), [es[k]][1..]) == Apply(ApplyAll(m, es[..k]), es[k]);
  }

  /** A space that has not been stopped may do what it may do with private memories, to the same effect. */
  lemma StillLegal(m: Machine, n: Machine, images: iset<Space>, stopped: set<Space>, e: Event)
    requires Legal(m, images, e) && e.space !in stopped
    requires forall s :: s !in stopped ==> SameAt(m, n, s)
    requires forall s :: s in stopped ==> s !in images
    ensures Legal(n, images, e) && SameAt(Apply(m, e), Apply(n, e), e.space)
  {
    hide Legal, Apply;
    assert Alike(m, n, images, e.space);
    SameEffect(m, n, images, e);
  }

  lemma OutOfImages(m: Machine, images: iset<Space>, e: Event)
    requires Legal(m, images, e)
    ensures e.space !in images
  {
  }

  /** The other spaces stay where the plan has them. */
  lemma OthersFollow(plan: Machine, now: Machine, after: Machine, e: Event, stopped: set<Space>)
    requires forall s :: s !in stopped ==> SameAt(plan, now, s)
    requires after == now || forall s :: s != e.space ==> SameAt(now, after, s)
    ensures forall s :: s != e.space && s !in stopped ==> SameAt(Apply(plan, e), after, s)
  {
    hide Apply, SameAt;
    forall s | s != e.space && s !in stopped ensures SameAt(Apply(plan, e), after, s) {
      Elsewhere(plan, e, s);
      SameTrans(Apply(plan, e), plan, now, s);
      SameTrans(Apply(plan, e), now, after, s);
    }
  }

  lemma AllSame(plan: Machine, now: Machine, after: Machine, stop: Space, stopped: set<Space>)
    requires forall s :: s != stop && s !in stopped ==> SameAt(plan, now, s)
    requires forall s :: s != stop ==> SameAt(now, after, s)
    ensures forall s :: s != stop && s !in stopped ==> SameAt(plan, after, s)
  {
    hide SameAt;
    forall s | s != stop && s !in stopped ensures SameAt(plan, after, s) {
      SameTrans(plan, now, after, s);
    }
  }

  lemma TouchesKernel(s0: State, s1: State, s: Space)
    requires Touches(s0, s1, s)
    ensures s1.lay.kernel == s0.lay.kernel
  {
  }

  lemma ExitImages(s0: State, s1: State, s: Space)
    requires Process(s0, s) && s1.lay.base == s0.lay.base - {s}
    ensures Images(s1) == Images(s0)
  {
  }

  lemma PageIsNoTable(st: State, s: Space, a: Addr, content: Frame, b: Addr)
    requires Inv(st) && On(s, a, 0) in st.lay.at
    ensures EntryAt(SetPage(st, On(s, a, 0), content), s, b) == EntryAt(st, s, b)
  {
    hide Inv;
    OnLevel(s, a, 0);
    OnLevel(s, b, 1);
    if On(s, b, 1) in st.lay.at {
      Apart(st, On(s, a, 0), On(s, b, 1));
    }
  }

  lemma MapsTouches(s0: State, s1: State, s: Space, lo: nat, hi: nat, writable: bool)
    requires MapsRange(s0, s1, s, lo, hi, writable)
    ensures Touches(s0, s1, s) && s1.lay.base == s0.lay.base
    ensures forall q :: q in s0.lay.at ==> s1.lay.At(q) == s0.lay.At(q)
  {
  }

  /** The pages of an interval are mapped with the given right. */
  ghost predicate Granted(st: State, s: Space, lo: nat, hi: nat, writable: bool) {
    forall a: Addr :: lo <= a.PageNo() < hi ==> EntryAt(st, s, a).Some? && EntryAt(st, s, a).value.writable == writable
  }

  lemma MapsGrants(s0: State, s1: State, s: Space, lo: nat, hi: nat, writable: bool)
    requires MapsRange(s0, s1, s, lo, hi, writable)
    ensures Granted(s1, s, lo, hi, writable)
  {
    hide Grown;
    forall a: Addr | lo <= a.PageNo() < hi
      ensures EntryAt(s1, s, a).Some? && EntryAt(s1, s, a).value.writable == writable
    {
      assert Mapped(s0, s1, s, a, writable);
    }
  }

  lemma RootOn(st: State, s: Space, a: Addr)
    requires Inv(st) && s in st.lay.base
    ensures On(s, a, 4) == Pos(s, Top) && Pos(s, Top) in st.lay.at && a.EndOf(4) == LAST_PAGE
  {
  }

  // ----- windows of all tasks

  lemma ClearedWindows(tasks: map<Space, TaskMem>, s: Space)
    requires AllWindows(tasks)
    ensures AllWindows(tasks[s := Cleared(if s in tasks then tasks[s] else NewTask())])
  {
    NewWindows();
    TaskKeepsWindows(if s in tasks then tasks[s] else NewTask(), 0, [], [], 0);
    hide Windows;
  }

  lemma ClearedIs(t: TaskMem)
    ensures Cleared(t) == t.(files := []).(fileMaps := []) && Cleared(t).files == [] && Cleared(t).fileMaps == []
  {
  }

  lemma StartedWindows(tasks: map<Space, TaskMem>, s: Space, t: TaskMem, vaddrEnd: nat, files: seq<Option<seq<Byte>>>)
    requires AllWindows(tasks) && t == (if s in tasks then tasks[s] else NewTask()) && t.fileMaps == []
    ensures AllWindows(tasks[s := Started(t, vaddrEnd, files)])
  {
    NewWindows();
    TaskKeepsWindows(t, vaddrEnd, files, [], 0);
    hide Windows;
  }

  lemma OpenedWindows(tasks: map<Space, TaskMem>, s: Space, t: TaskMem, content: seq<Byte>, numPages: nat)
    requires AllWindows(tasks) && t == if s in tasks then tasks[s] else NewTask()
    ensures AllWindows(tasks[s := OpenFile(t, content)]) && AllWindows(tasks[s := DemandPages(t, numPages)])
  {
    NewWindows();
    TaskKeepsWindows(t, 0, [], content, numPages);
    hide Windows;
  }

  lemma MappedWindows(tasks: map<Space, TaskMem>, s: Space, t: TaskMem, fd: nat)
    requires AllWindows(tasks) && t == (if s in tasks then tasks[s] else NewTask()) && t.Fits(fd)
    ensures AllWindows(tasks[s := MapFile(t, fd)])
  {
    NewWindows();
    MapFileKeepsWindows(t, fd);
    hide Windows;
  }

  /** Byte k behind an address is byte k of the file, unless the heap has grown over it. */
  ghost predicate FileShows(t: TaskMem, begin: nat, fd: nat, k: nat) {
    && t.Open(fd) && k < t.Size(fd)
    && (!InHeap(t, begin + k) ==>
          && DemandedPage(t, begin + k).Some?
          && ByteAt(DemandedPage(t, begin + k).value, (begin + k) % PAGE_SIZE) == t.files[fd].value[k])
  }

  lemma MappedShows(tasks: map<Space, TaskMem>, s: Space, t: TaskMem, fd: nat, k: nat)
    requires AllWindows(tasks) && t == (if s in tasks then tasks[s] else NewTask()) && t.Fits(fd) && k < t.Size(fd)
    ensures FileShows(MapFile(t, fd), MapFile(t, fd).fileMapEnd, fd, k)
  {
    hide Windows, DemandedPage, ByteAt, AlignDown;
    NewWindows();
    if !InHeap(t, MapFile(t, fd).fileMapEnd + k) {
      MapThenRead(t, fd, k);
    }
  }

  class Processes {
    const vm: AddressSpaces
    /** Context().cr3 of each task, and the pml4 of each cached image. */
    var roots: map<Space, FrameId>
    var tasks: map<Space, TaskMem>
    var appLoads: map<nat, Space>
    var cr3: FrameId

    ghost predicate Valid()
      reads this, vm
    {
      vm.Valid() && Tracks(roots, appLoads, vm.lay) && AllWindows(tasks) && OnTable(cr3, roots, vm.kernelTable)
    }

    ghost function St(): State
      reads this, vm
    {
      vm.St()
    }

    function Task(s: Space): TaskMem
      reads this`tasks
    {
      if s in tasks then tasks[s] else NewTask()
    }

    /** What the programs see, and what decides the answers to their page faults. */
    ghost function Now(): Machine
      reads this, vm
    {
      Machine(ViewsOf(St()), tasks)
    }

    constructor (vm: AddressSpaces)
      requires vm.Valid() && vm.lay.base == map[]
      ensures Valid() && this.vm == vm && roots == map[] && tasks == map[] && appLoads == map[]
    {
      this.vm := vm;
      roots, tasks, appLoads, cr3 := map[], map[], map[], vm.kernelTable;
    }

    /** A new root table that shares the kernel half; its app half is empty. */
    method SetupPML4(s: Space, ghost b: Space) returns (err: Error)
      requires Valid() && s !in roots && s !in vm.lay.base && (b == s || IsImage(vm.lay, b))
      modifies this`roots, this`cr3, vm
      ensures Valid()
      ensures !err.Success? ==> err.NoEnoughMemory? && vm.Exhausted() && St() == old(St()) && roots == old(roots)
      ensures err.Success? ==>
                && Touches(old(St()), St(), s)
                && vm.lay.base == old(vm.lay.base)[s := b]
                && ViewsOf(St()) == ViewsOf(old(St()))[s := imap[]]
                && roots == old(roots)[s := cr3]
                && old(cr3) in old(vm.mem) && SameLowerHalf(St().Words(Pos(s, Top)), old(vm.mem)[old(cr3)])
                && (forall i: Index :: 256 <= i ==> !St().Words(Pos(s, Top))[i].present)
    {
      hide Inv, Touches, ViewsOf, State.Words, Tracks;
      ghost var before := St();
      var pml4;
      pml4, err := vm.NewPageMap();
      if !err.Success? {
        return;
      }
      CurrentHalf(before, roots, appLoads, cr3);
      var content := RootTable(vm.mem[cr3]);
      vm.mem := vm.mem[pml4 := content];
      vm.lay := vm.lay.Fill(Pos(s, Top), pml4).(base := vm.lay.base[s := b]);
      assert St() == AddRoot(before, s, b, pml4, content);
      RootAdded(before, s, b, pml4, content);
      TracksNewRoot(roots, appLoads, before.lay, s, b, pml4);
      cr3 := pml4;
      roots := roots[s := pml4];
      assert roots[s] == cr3;
    }

    /** SetupPageMaps: maps num pages from start on in space s. */
    method SetupPageMaps(s: Space, start: Addr, num: nat, writable: bool) returns (err: Error, ghost done: nat)
      requires Valid() && s in roots && start.pml4 >= 256 && start.PageNo() + num <= LAST_PAGE
      requires Private(St(), s) && writable == (vm.lay.Base(s) != s)
      requires NoneShared(St(), s, start.PageNo(), start.PageNo() + num, writable)
      modifies vm
      ensures Valid()
      ensures done <= num && (err.Success? ==> done == num)
      ensures !err.Success? ==> err.NoEnoughMemory? && vm.Exhausted() && done < num
      ensures ChangesView(old(St()), St(), s,
                          WithPages(ViewOf(old(St()), s), start.PageNo(), start.PageNo() + done, writable))
      ensures Granted(St(), s, start.PageNo(), start.PageNo() + done, writable)
    {
      hide Granted;
      hide Inv, MapsRange, NoneShared, Touches, ViewOf, ViewsOf, Private, Addr.PageNo;
      ghost var before := St();
      assert s in vm.lay.base && roots[s] == vm.lay.At(Pos(s, Top));
      hide Tracks;
      RootOn(before, s, start);
      var remain;
      remain, err, done := vm.SetupPageMap(roots[s], 4, start, num, writable, s);
      UnsharedPart(before, s, start.PageNo(), start.PageNo() + done, start.PageNo() + num, writable);
      PagesMapped(before, St(), s, start, done, writable);
      MapsTouches(before, St(), s, start.PageNo(), start.PageNo() + done, writable);
      MapsGrants(before, St(), s, start.PageNo(), start.PageNo() + done, writable);
      TracksKept(roots, appLoads, before, St(), s);
    }

    /** memcpy or memset through the page tables of s, page by page, to n pages that belong to it. */
    method CopyBytes(s: Space, lo: nat, n: nat, vaddr: nat, bytes: seq<Byte>)
      requires Valid() && s in roots && Private(St(), s) && APP_HALF <= lo && lo + n <= LAST_PAGE
      requires forall a: Addr :: lo <= a.PageNo() < lo + n ==> Owns(St(), s, a)
      modifies vm
      ensures Valid()
      ensures ChangesView(old(St()), St(), s, WithBytes(ViewOf(old(St()), s), lo, n, vaddr, bytes))
      ensures forall a: Addr :: lo <= a.PageNo() < lo + n ==> Owns(St(), s, a)
    {
      hide Inv, Private, Touches, ViewOf, Walk, Owns, EntryAt, ViewsOf, Tracks, WithBytes, ChangesView, AllWindows,
        Overlaid, VAddr, AddressSpaces.Exhausted;
      ghost var before := St();
      RootTracked(roots, appLoads, before.lay, s);
      CopiedNothing(before, s, lo, vaddr, bytes);
      for k := 0 to n
        invariant Valid()
        invariant forall a: Addr :: lo <= a.PageNo() < lo + n ==> Owns(St(), s, a)
        invariant Private(St(), s)
        invariant ChangesView(before, St(), s, WithBytes(ViewOf(before, s), lo, k, vaddr, bytes))
        invariant vm.lay == before.lay
      {
        var a := AddrOf(lo + k);
        ghost var st := St();
        OwnedSeen(st, s, a);
        var x := Walk(vm.mem, roots[s], 4, a);
        var page := if x.value.frame in vm.mem then vm.mem[x.value.frame] else Blank();
        PageFilled(st, s, a, Overlaid(page, VAddr(a), vaddr, bytes));
        vm.mem := vm.mem[x.value.frame := Overlaid(page, VAddr(a), vaddr, bytes)];
        OneMoreCopied(before, st, St(), s, lo, k, vaddr, bytes);
        OwnsKept(st, St(), s, lo, lo + n);
        PrivateKept(before, St(), s);
      }
    }

    /** CopyPageMaps from the app half of an image into a new space. */
    method CopyImage(s: Space, c: Space) returns (err: Error)
      requires Valid() && s in roots && c in roots && IsImage(vm.lay, c) && c != s && vm.lay.Base(s) == c
      requires forall i: Index :: 256 <= i ==> !St().Words(Pos(s, Top))[i].present
      modifies vm
      ensures Valid() && Touches(old(St()), St(), s) && vm.lay.base == old(vm.lay.base)
      ensures err.Success? ==> ChangesView(old(St()), St(), s, ViewOf(old(St()), c)) && AllShared(St(), s)
      ensures !err.Success? ==> err.NoEnoughMemory? && vm.Exhausted()
    {
      hide Inv, Touches, ViewOf, ViewsOf, Tracks, Copies, Private;
      ghost var before := St();
      var begin := FirstAppPage();
      RootTracked(roots, appLoads, before.lay, s);
      RootTracked(roots, appLoads, before.lay, c);
      RootOn(before, s, begin);
      RootOn(before, c, begin);
      ghost var done;
      err, done := vm.CopyPageMaps(roots[s], roots[c], 4, 256, s, c, begin);
      ImageCopied(before, St(), s, c, done);
      if err.Success? {
        CopyShares(before, St(), s, c);
      }
      TracksKept(roots, appLoads, before, St(), s);
    }

    /** Maps the load segments read-only, copies them in, and zeroes the rest of their memory. */
    method CopyLoadSegments(c: Space, segments: seq<Segment>) returns (lastAddr: nat, err: Error)
      requires Valid() && c in roots && vm.lay.Base(c) == c && Private(St(), c) && SegmentsFit(segments)
      requires ViewOf(St(), c) == imap[]
      modifies vm
      ensures Valid() && Touches(old(St()), St(), c) && vm.lay.base == old(vm.lay.base)
      ensures err.Success? ==> ChangesView(old(St()), St(), c, ImageOf(segments)) && lastAddr == EndOfSegments(segments)
      ensures !err.Success? ==> err.NoEnoughMemory? && vm.Exhausted()
    {
      hide Inv, Touches, ViewOf, ViewsOf, Tracks, Private, ImageOf, ChangesView, SegmentsFit, Segment.Fits, WithSegment,
        AllWindows, AddressSpaces.Exhausted, EndOfSegments, Segment.Begin, VAddr;
      lastAddr := 0;
      NoEnd();
      ghost var before := St();
      RootTracked(roots, appLoads, before.lay, c);
      NoSegments(before, c);
      TouchesSelf(before, c);
      assert segments[..0] == [];
      assert SegmentsFit(segments[..0]) by { FitsPrefix(segments, 0); }
      for k := 0 to |segments|
        invariant Valid() && SegmentsFit(segments[..k]) && lastAddr == EndOfSegments(segments[..k])
        invariant Private(St(), c) && Touches(before, St(), c) && vm.lay.base == before.lay.base
        invariant ChangesView(before, St(), c, ImageOf(segments[..k]))
      {
        ImageStep(segments, k);
        EndStep(segments, k);
        lastAddr := Max(lastAddr, segments[k].Begin() + segments[k].memSize);
        err := CopySegment(c, segments, k, before);
        if !err.Success? {
          return;
        }
        ChangesTouches(before, St(), c, ImageOf(segments[..k + 1]));
        PrivateKept(before, St(), c);
      }
      assert segments[..|segments|] == segments;
      err := Success;
    }

    /** One turn of the loop. */
    method CopySegment(c: Space, segments: seq<Segment>, k: nat, ghost before: State) returns (err: Error)
      requires Valid() && c in roots && vm.lay.Base(c) == c && Private(St(), c)
      requires k < |segments| && SegmentsFit(segments) && SegmentsFit(segments[..k]) && SegmentsFit(segments[..k + 1])
      requires segments[k].Fits() && ChangesView(before, St(), c, ImageOf(segments[..k])) && Private(before, c)
      modifies vm
      ensures Valid() && Touches(before, St(), c) && vm.lay.base == before.lay.base
      ensures err.Success? ==> ChangesView(before, St(), c, ImageOf(segments[..k + 1]))
      ensures !err.Success? ==> err.NoEnoughMemory? && vm.Exhausted()
    {
      hide Inv, Touches, ViewOf, ViewsOf, Tracks, Private, NoneShared, Owns, ImageOf, Addr.PageNo, ChangesView,
        WithPages, WithBytes, SegmentsFit, WithSegment, VAddr, AllWindows, AddressSpaces.Exhausted;
      var g := segments[k];
      ghost var lo := g.start.PageNo();
      var n := g.Pages();
      ghost var st := St();
      RootTracked(roots, appLoads, st.lay, c);
      ChangesTouches(before, st, c, ImageOf(segments[..k]));
      InAppHalf(g.start);
      ImageReadOnly(st, c, lo, lo + n);
      ghost var done;
      err, done := SetupPageMaps(c, g.start, n, false);
      ghost var mapped := St();
      ChangesJoin(before, st, mapped, c, ImageOf(segments[..k]), WithPages(ViewOf(st, c), lo, lo + done, false));
      ChangesTouches(before, mapped, c, WithPages(ViewOf(st, c), lo, lo + done, false));
      if !err.Success? {
        return;
      }
      PrivateKept(before, mapped, c);
      MappedOwned(st, mapped, c, lo, lo + n);
      CopyBytes(c, g.start.PageNo(), n, g.Begin(), g.data);
      ghost var copied := St();
      ChangesTouches(mapped, copied, c, WithBytes(ViewOf(mapped, c), lo, n, g.Begin(), g.data));
      PrivateKept(mapped, copied, c);
      CopyBytes(c, g.start.PageNo(), n, g.Begin() + |g.data|, ZeroBytes(g.memSize - |g.data|));
      SegmentLoaded(before, st, mapped, copied, St(), c, segments, k);
      ChangesTouches(before, St(), c, ImageOf(segments[..k + 1]));
    }

    /**
     * LoadApp: the first load builds the image and caches it; every load gives the task s a copy.
     * image is the space that a new image would get.
     */
    method LoadApp(file: nat, s: Space, image: Space, segments: seq<Segment>) returns (err: Error)
      requires Valid() && s !in roots && SegmentsFit(segments)
      requires file !in appLoads ==> image !in roots && s != image
      modifies this`roots, this`cr3, this`appLoads, vm
      ensures Valid()
      ensures err.Success? && file in old(appLoads) ==>
                && Touches(old(St()), St(), s)
                && ViewsOf(St()) == ViewsOf(old(St()))[s := ViewOf(old(St()), old(appLoads)[file])]
                && vm.lay.base == old(vm.lay.base)[s := old(appLoads)[file]]
                && appLoads == old(appLoads)
      ensures err.Success? && file !in old(appLoads) ==>
                && ViewsOf(St()) == ViewsOf(old(St()))[image := ImageOf(segments)][s := ImageOf(segments)]
                && vm.lay.base == old(vm.lay.base)[image := image][s := image]
                && appLoads == old(appLoads)[file := image]
      ensures err.Success? ==> AllShared(St(), s)
      ensures file in old(appLoads) ==> appLoads == old(appLoads)
      ensures !err.Success? ==> err.NoEnoughMemory? && vm.Exhausted()
    {
      hide Inv, Touches, ViewOf, ViewsOf, ChangesView, Private, ImageOf, SegmentsFit, AllShared, AllWindows,
        AddressSpaces.Exhausted;
      ghost var before := St();
      if file in appLoads {
        var c := appLoads[file];
        err := SetupPML4(s, c);
        if !err.Success? {
          return;
        }
        ghost var rooted := St();
        err := CopyImage(s, c);
        if err.Success? {
          Loaded(before, rooted, St(), s, c);
        }
        return;
      }

      err := SetupPML4(image, image);
      if !err.Success? {
        return;
      }
      ghost var rooted := St();
      NewRoot(before, rooted, image, image);
      var lastAddr;
      lastAddr, err := CopyLoadSegments(image, segments);
      if !err.Success? {
        return;
      }
      ghost var filled := St();
      appLoads := appLoads[file := image];
      assert IsImage(vm.lay, image);

      err := SetupPML4(s, image);
      if !err.Success? {
        return;
      }
      ghost var second := St();
      err := CopyImage(s, image);
      if err.Success? {
        FirstLoaded(before, rooted, filled, second, St(), image, s, segments);
      }
    }

    method ClearTask(s: Space)
      requires Valid()
      modifies this`tasks
      ensures Valid() && tasks == old(tasks)[s := Cleared(old(Task(s)))]
      ensures Task(s).files == [] && Task(s).fileMaps == []
    {
      hide Inv, Tracks, AllWindows, Cleared;
      ClearedWindows(tasks, s);
      ClearedIs(Task(s));
      tasks := tasks[s := Task(s).(files := [])];
      tasks := tasks[s := Task(s).(fileMaps := [])];
      assert tasks == old(tasks)[s := Cleared(old(Task(s)))];
    }

    /** The files and windows are forgotten, CleanPageMaps over the app half, then FreePML4. */
    method ExitApp(s: Space)
      requires Valid() && Process(St(), s)
      modifies this`roots, this`cr3, this`tasks, vm
      ensures Valid()
      ensures Touches(old(St()), St(), s)
      ensures vm.lay.base == old(vm.lay.base) - {s} && roots == old(roots) - {s} && cr3 == vm.kernelTable
      ensures Now() == Apply(old(Now()), ExitEvent(s))
      ensures Task(s).files == [] && Task(s).fileMaps == []
    {
      hide Inv, Touches, ViewOf, ViewsOf, Shrinks, EmptyFrom, Tracks, Addr.PageNo, Addr.EndOf, AllWindows, Cleared,
        Gone, AddressSpaces.Exhausted;
      ghost var before := St();
      ClearTask(s);
      ghost var begin := FirstAppPage();
      Processed(roots, appLoads, before, s);
      RootOn(before, s, begin);
      vm.CleanPageMap(roots[s], 4, FirstAppPage(), s, begin);
      ghost var clean := St();
      var frame := roots[s];
      Backed(clean, Pos(s, Top));
      vm.FreeFrame(frame);
      vm.lay := vm.lay.Clear(Pos(s, Top)).(base := vm.lay.base - {s});
      cr3 := vm.kernelTable;
      roots := roots - {s};
      Exited(before, clean, s, frame);
      TracksGone(old(roots), appLoads, before.lay, St().lay, s) by { TouchesRoots(before, St(), s); }
    }

    /** PreparePageCache: a new page in a file window; what the file's Load gives is copied over it. */
    method PreparePageCache(s: Space, m: FileMapping, content: seq<Byte>, a: Addr) returns (err: Error)
      requires Valid() && Process(St(), s) && a.pml4 >= 256 && EntryAt(St(), s, a).None?
      requires m.vaddrBegin <= VAddr(a) && VAddr(a) - m.vaddrBegin <= |content|
      modifies vm
      ensures Valid()
      ensures err.Success? ==>
                && ChangesView(old(St()), St(), s,
                     WithPage(ViewOf(old(St()), s), a, Page(FilePage(content, VAddr(a) - m.vaddrBegin), true)))
                && EntryAt(St(), s, a).Some? && EntryAt(St(), s, a).value.writable
      ensures !err.Success? ==>
                err.NoEnoughMemory? && vm.Exhausted() && ChangesView(old(St()), St(), s, ViewOf(old(St()), s))
    {
      hide Inv, Touches, ViewOf, ViewsOf, Tracks, ChangesView, EntryAt, Private, NoneShared, Granted, Addr.PageNo,
        WithPages, Owns, Walk, Overlaid, FilePage, VAddr, AllWindows, FileDescriptors.Segment, AddressSpaces.Exhausted;
      ghost var before := St();
      Processed(roots, appLoads, before, s);
      ProcessIsPrivate(before, s);
      NotMapped(before, s, a);
      ghost var done;
      err, done := SetupPageMaps(s, a, 1, true);
      ghost var mapped, view := St(), ViewOf(before, s);
      OneMapped(before, mapped, s, a, done);
      if !err.Success? {
        return;
      }
      MappedOnce(before, mapped, s, a);
      ChangedView(before, mapped, s, WithPage(view, a, Page(Blank(), true)));
      ChangesTouches(before, mapped, s, WithPage(view, a, Page(Blank(), true)));
      Processed(roots, appLoads, mapped, s);
      PagePut(view, a, Page(Blank(), true));
      Seen(mapped, s, a);
      var fileOffset := VAddr(a) - m.vaddrBegin;
      var loaded := FileDescriptors.Segment(content, fileOffset, PAGE_SIZE);
      LoadedPage(content, fileOffset);
      var x := Walk(vm.mem, roots[s], 4, a);
      var page := if x.value.frame in vm.mem then vm.mem[x.value.frame] else Blank();
      PageFilled(mapped, s, a, Overlaid(page, 0, 0, loaded));
      vm.mem := vm.mem[x.value.frame := Overlaid(page, 0, 0, loaded)];
      ChangesJoin(before, mapped, St(), s, WithPage(view, a, Page(Blank(), true)),
        WithPage(view, a, Page(FilePage(content, fileOffset), true)));
    }

    /** HandlePageFault for an access of a running process. present, rw and user are the error code's bits. */
    method HandlePageFault(s: Space, present: bool, rw: bool, user: bool, a: Addr, offset: nat) returns (err: Error)
      requires Valid() && Process(St(), s) && a.pml4 >= 256 && offset < PAGE_SIZE
      requires present <==> EntryAt(St(), s, a).Some?
      requires present && rw && user ==> !EntryAt(St(), s, a).value.writable
      modifies vm
      ensures Valid()
      ensures present && rw && user ==> err.Success? || err.NoEnoughMemory?
      ensures present && !(rw && user) ==> err.AlreadyAllocated?
      ensures !err.Success? ==> ChangesView(old(St()), St(), s, ViewOf(old(St()), s))
      ensures present && err.Success? ==>
                var v := ViewOf(old(St()), s);
                a in v && ChangesView(old(St()), St(), s, WithPage(v, a, Page(v[a].content, true)))
      ensures !present ==>
                match DemandedPage(Task(s), VAddr(a) + offset)
                case Some(page) =>
                  && (err.Success? || err.NoEnoughMemory?)
                  && (err.Success? ==>
                        ChangesView(old(St()), St(), s, WithPage(ViewOf(old(St()), s), a, Page(page, true))))
                case None => err.IndexOutOfRange?
      ensures err.Success? ==> EntryAt(St(), s, a).Some? && EntryAt(St(), s, a).value.writable
      ensures err.NoEnoughMemory? ==> vm.Exhausted()
    {
      hide Inv, Touches, ViewOf, ViewsOf, Splits, Tracks, ChangesView, EntryAt, Private, NoneShared, Granted, FilePage,
        WithPages, WithPage, VAddr, Windows, AddressSpaces.Exhausted;
      ghost var before := St();
      Processed(roots, appLoads, before, s);
      ProcessIsPrivate(before, s);
      Unchanged(before, s);
      if present && rw && user {
        err := vm.CopyOnePage(roots[s], a, s);
        if err.Success? {
          PageSplit(roots, appLoads, before, St(), s, a);
        }
        return;
      } else if present {
        return AlreadyAllocated;
      }
      NewWindows();
      var causalAddr := VAddr(a) + offset;
      var task := Task(s);
      if task.dpagingBegin <= causalAddr < task.dpagingEnd {
        NotMapped(before, s, a);
        ghost var done;
        err, done := SetupPageMaps(s, a, 1, true);
        OneMapped(before, St(), s, a, done);
        if err.Success? {
          MappedOnce(before, St(), s, a);
        }
        return;
      }
      var m := FindFileMapping(task.fileMaps, causalAddr);
      match m
      case None =>
        return IndexOutOfRange;
      case Some(i) =>
        WindowStart(task, a, offset);
        err := PreparePageCache(s, task.fileMaps[i], task.files[task.fileMaps[i].fd].value, a);
    }

    /**
     * An access up to the point where its page can be accessed: the MMU's walk, and at most one page fault. Rights
     * only matter in user mode, because CR0.WP is clear. frame is the page's frame.
     */
    method Access(s: Space, a: Addr, offset: nat, rw: bool, user: bool) returns (frame: FrameId, err: Error)
      requires Valid() && Process(St(), s) && a.pml4 >= 256 && offset < PAGE_SIZE
      modifies vm
      ensures Valid() && Process(St(), s)
      ensures err.Success? || err.IndexOutOfRange? || err.NoEnoughMemory?
      ensures !err.NoEnoughMemory? ==>
                ChangesView(old(St()), St(), s, Accessed(ViewOf(old(St()), s), Task(s), a, offset, rw && user))
      ensures err.NoEnoughMemory? ==> vm.Exhausted() && ChangesView(old(St()), St(), s, ViewOf(old(St()), s))
      ensures err.Success? ==> a in ViewOf(St(), s) && Walk(vm.mem, roots[s], 4, a).Some?
      ensures err.Success? ==> frame == Walk(vm.mem, roots[s], 4, a).value.frame
      ensures err.IndexOutOfRange? ==> a !in Accessed(ViewOf(old(St()), s), Task(s), a, offset, rw && user)
    {
      hide Inv, Touches, ViewOf, ViewsOf, Tracks, ChangesView, EntryAt, Private, Walk, Owns, FilePage, VAddr,
        AllWindows, DemandedPage, AddressSpaces.Exhausted;
      ghost var before, view := St(), ViewOf(St(), s);
      Processed(roots, appLoads, before, s);
      Unchanged(before, s);
      Seen(before, s, a);
      frame, err := 0, Success;
      var x := Walk(vm.mem, roots[s], 4, a);
      ghost var v := Accessed(view, Task(s), a, offset, rw && user);
      if x.None? || (user && (!x.value.user || (rw && !x.value.writable))) {
        err := HandlePageFault(s, x.Some?, rw, user, a, offset);
        ChangesTouches(before, St(), s, if err.NoEnoughMemory? then view else v);
        if !err.Success? {
          return;
        }
        PagePut(view, a, v[a]);
        ChangedView(before, St(), s, v);
        Processed(roots, appLoads, St(), s);
        Seen(St(), s, a);
        x := Walk(vm.mem, roots[s], 4, a);
      } else {
        assert v == view;
      }
      frame := x.value.frame;
    }

    /** A user-mode store. One that cannot be served changes nothing; the app is killed then. */
    method UserStore(s: Space, a: Addr, i: Index, w: Word) returns (err: Error)
      requires Valid() && Process(St(), s) && a.pml4 >= 256
      modifies vm
      ensures Valid()
      ensures err.Success? || err.IndexOutOfRange? || err.NoEnoughMemory?
      ensures !err.NoEnoughMemory? ==> ChangesView(old(St()), St(), s, Stored(ViewOf(old(St()), s), Task(s), a, i, w))
      ensures err.NoEnoughMemory? ==> vm.Exhausted() && ChangesView(old(St()), St(), s, ViewOf(old(St()), s))
      ensures !err.NoEnoughMemory? ==> (err.Success? <==> a in Accessed(ViewOf(old(St()), s), Task(s), a, 8 * i, true))
    {
      hide Inv, Touches, ViewOf, ViewsOf, Tracks, ChangesView, EntryAt, Private, Walk, WithWord, FilePage, VAddr,
        AllWindows, Accessed, Refilled, Process, AddressSpaces.Exhausted;
      ghost var before, v := St(), Accessed(ViewOf(St(), s), Task(s), a, 8 * i, true);
      var frame;
      frame, err := Access(s, a, 8 * i, true, true);
      if !err.Success? {
        return;
      }
      ChangedView(before, St(), s, v);
      AccessedOwn(ViewOf(before, s), Task(s), a, 8 * i);
      StoreWord(s, a, i, w, frame, before, v);
    }

    /** The store itself, to a page of the space's own that has been found. */
    method StoreWord(s: Space, a: Addr, i: Index, w: Word, frame: FrameId, ghost before: State, ghost v: View)
      requires Valid() && Process(St(), s) && a.pml4 >= 256 && Walk(vm.mem, roots[s], 4, a).Some?
      requires frame == Walk(vm.mem, roots[s], 4, a).value.frame
      requires ChangesView(before, St(), s, v) && v == ViewOf(St(), s) && a in v && v[a].own
      modifies vm
      ensures Valid() && ChangesView(before, St(), s, Refilled(v, a, WithWord(v[a].content, i, w)))
    {
      hide Inv, Touches, ViewOf, ViewsOf, Tracks, ChangesView, EntryAt, Private, Walk, Owns, WithWord, AllWindows,
        Refilled, AddressSpaces.Exhausted;
      ghost var ready := St();
      Processed(roots, appLoads, ready, s);
      ProcessIsPrivate(ready, s);
      Seen(ready, s, a);
      var page := if frame in vm.mem then vm.mem[frame] else Blank();
      PageFilled(ready, s, a, WithWord(page, i, w));
      vm.mem := vm.mem[frame := WithWord(page, i, w)];
      ChangesJoin(before, ready, St(), s, v, Refilled(v, a, WithWord(page, i, w)));
    }

    /**
     * A store that a system call makes to an address of the app. To a page of the app's own, or one that a fault gives,
     * it is like the app's own store; in a page that is still shared, it is a store to the image.
     */
    method KernelStore(s: Space, a: Addr, i: Index, w: Word) returns (err: Error)
      requires Valid() && Process(St(), s) && a.pml4 >= 256
      requires a in Accessed(ViewOf(St(), s), Task(s), a, 8 * i, false)
      modifies vm
      ensures Valid()
      ensures err.Success? || err.NoEnoughMemory?
      ensures err.Success? && OwnAfterAccess(old(ViewOf(St(), s)), Task(s), a, i) ==>
                ChangesView(old(St()), St(), s, Stored(ViewOf(old(St()), s), Task(s), a, i, w))
      ensures err.Success? && !OwnAfterAccess(old(ViewOf(St(), s)), Task(s), a, i) ==>
                var v, c := ViewOf(old(St()), s), vm.lay.Base(s);
                && a in v && a in ViewOf(old(St()), c)
                && ViewOf(St(), c) == Refilled(ViewOf(old(St()), c), a, WithWord(v[a].content, i, w))
                && SeenByAllSharers(old(St()), St(), c, a, WithWord(v[a].content, i, w))
      ensures err.NoEnoughMemory? ==> vm.Exhausted() && ChangesView(old(St()), St(), s, ViewOf(old(St()), s))
    {
      hide Inv, Touches, ViewOf, ViewsOf, Tracks, ChangesView, Private, Walk, WithWord, AllWindows, EntryAt, FilePage,
        VAddr, DemandedPage, Refilled, AddressSpaces.Exhausted, SeenByAllSharers;
      ghost var before, v := St(), Accessed(ViewOf(St(), s), Task(s), a, 8 * i, false);
      var frame;
      frame, err := Access(s, a, 8 * i, true, false);
      if !err.Success? {
        return;
      }
      ghost var ready := St();
      ChangedView(before, ready, s, v);
      Processed(roots, appLoads, ready, s);
      Seen(ready, s, a);
      ProcessIsPrivate(ready, s);
      var page := if frame in vm.mem then vm.mem[frame] else Blank();
      if v[a].own {
        StoredOwn(ViewOf(before, s), Task(s), a, i, w);
        PageFilled(ready, s, a, WithWord(page, i, w));
      } else {
        AccessedShared(ViewOf(before, s), Task(s), a, 8 * i);
        ImageUntouched(before, ready, s, v);
        ImageStored(ready, s, a, WithWord(page, i, w));
        SharersSee(before, ready, s, a, v, WithWord(page, i, w));
      }
      vm.mem := vm.mem[frame := WithWord(page, i, w)];
      if v[a].own {
        ChangesJoin(before, ready, St(), s, v, Refilled(v, a, WithWord(page, i, w)));
      }
    }

    /**
     * The failing inputs exist: an app is loaded whose image has a page where ExecuteFile puts the stack. The page is
     * there, read-only and shared. Granting write to it, as SetupPageMaps for the stack does, gives the image away,
     * and so does any system call that stores into the page before the app itself does.
     */
    method SharedPageExample(file: nat, s: Space, image: Space) returns (err: Error)
      requires Valid() && file !in appLoads && s !in roots && image !in roots && s != image
      modifies this`roots, this`cr3, this`appLoads, vm
      ensures err.Success? || err.NoEnoughMemory?
      ensures err.Success? ==>
                && Process(St(), s) && vm.lay.Base(s) == image && appLoads == old(appLoads)[file := image]
                && EntryAt(St(), s, STACK_PAGE).Some? && PageAt(St(), image, STACK_PAGE) == PageAt(St(), s, STACK_PAGE)
                && forall content: Frame :: PageAt(St(), s, STACK_PAGE) != Some(content) ==>
                     var page := PageAt(St(), image, STACK_PAGE);
                     && PageAt(GrantedStore(St(), s, STACK_PAGE, content), image, STACK_PAGE) != page
                     && PageAt(PlainStore(St(), s, STACK_PAGE, content), image, STACK_PAGE) != page
    {
      hide Inv, Touches, ViewsOf, ImageOf, AllWindows, AddressSpaces.Exhausted, GrantedStore, PlainStore, SegmentsFit;
      OnePageImage();
      err := LoadApp(file, s, image, [Segment(STACK_PAGE, 0, [], PAGE_SIZE)]);
      if err.Success? {
        ghost var st := St();
        InViews(st, s);
        InViews(st, image);
        assert STACK_PAGE in ViewOf(st, s) && STACK_PAGE in ViewOf(st, image);
        forall content: Frame | PageAt(st, s, STACK_PAGE) != Some(content)
          ensures PageAt(GrantedStore(st, s, STACK_PAGE, content), image, STACK_PAGE) != PageAt(st, image, STACK_PAGE)
          ensures PageAt(PlainStore(st, s, STACK_PAGE, content), image, STACK_PAGE) != PageAt(st, image, STACK_PAGE)
        {
          GrantingIsSafeIffOwn(st, s, STACK_PAGE, content);
          StoreReachesImageIff(st, s, STACK_PAGE, content);
        }
      }
    }

    /** ExecuteFile's settings before it calls the app. */
    method StartApp(s: Space, vaddrEnd: nat, files: seq<Option<seq<Byte>>>)
      requires Valid() && Task(s).fileMaps == []
      modifies this`tasks
      ensures Valid() && Now() == Apply(old(Now()), StartEvent(s, vaddrEnd, files))
    {
      hide AllWindows, ViewsOf, Tracks, VAddr;
      ghost var before := Task(s);
      assert Started(before, vaddrEnd, []).files == before.files;
      for i := 0 to |files|
        invariant tasks == if i == 0 then old(tasks) else old(tasks)[s := before.(files := before.files + files[..i])]
        invariant Task(s) == before.(files := before.files + files[..i])
      {
        tasks := tasks[s := Task(s).(files := Task(s).files + [files[i]])];
        assert before.files + files[..i] + [files[i]] == before.files + files[..i + 1];
      }
      assert files[..|files|] == files;
      var elfNextPage := (vaddrEnd + 4095) / 4096 * 4096;
      tasks := tasks[s := Task(s).(dpagingBegin := elfNextPage)];
      tasks := tasks[s := Task(s).(dpagingEnd := elfNextPage)];
      tasks := tasks[s := Task(s).(fileMapEnd := VAddr(STACK_PAGE))];
      StartedWindows(old(tasks), s, before, vaddrEnd, files);
      assert tasks == old(tasks)[s := Started(before, vaddrEnd, files)];
    }

    /** AllocateFD: the loop over the descriptors. */
    method AllocateFD(files: seq<Option<seq<Byte>>>) returns (fd: nat)
      ensures fd == FreeFD(files)
    {
      fd := 0;
      while fd < |files| && files[fd].Some?
        invariant fd <= |files| && FreeFD(files) == fd + FreeFD(files[fd..])
      {
        assert files[fd..][1..] == files[fd + 1..];
        fd := fd + 1;
      }
    }

    /** The OpenFile system call, for a file that has been found or created. */
    method SysOpenFile(s: Space, content: seq<Byte>) returns (fd: nat)
      requires Valid()
      modifies this`tasks
      ensures Valid() && Now() == Apply(old(Now()), OpenEvent(s, content))
      ensures !old(Task(s)).Open(fd) && Task(s).Open(fd) && Task(s).files[fd] == Some(content)
      ensures forall i: nat :: i < fd ==> old(Task(s)).Open(i)
      ensures forall i: nat :: old(Task(s)).Open(i) ==> Task(s).Open(i) && Task(s).files[i] == old(Task(s)).files[i]
    {
      hide AllWindows, ViewsOf, Tracks, Windows;
      ghost var before := Task(s);
      OpenedWindows(tasks, s, before, content, 0);
      fd := AllocateFD(Task(s).files);
      var files := Task(s).files;
      if fd == |files| {
        files := files + [None];
      }
      files := files[fd := Some(content)];
      tasks := tasks[s := Task(s).(files := files)];
      assert Task(s).files == OpenFile(before, content).files;
    }

    /**
     * The MapFile system call. A bad descriptor changes nothing; behind the address that a good one gives, the file's
     * bytes can be read up to the size that is given with it.
     */
    method SysMapFile(s: Space, fd: int) returns (vaddrBegin: Option<nat>, fileSize: nat)
      requires Valid() && (Task(s).Open(fd) ==> Task(s).Fits(fd))
      modifies this`tasks
      ensures Valid() && Now() == Apply(old(Now()), MapFileEvent(s, fd))
      ensures vaddrBegin == if old(Task(s)).Open(fd) then Some(Task(s).fileMapEnd) else None
      ensures old(Task(s)).Open(fd) ==>
                && fileSize == old(Task(s)).Size(fd)
                && forall k: nat :: k < fileSize ==> FileShows(Task(s), Task(s).fileMapEnd, fd, k)
    {
      hide AllWindows, ViewsOf, Tracks, Windows, FileShows;
      if !Task(s).Open(fd) {
        return None, 0;
      }
      var t := Task(s);
      MappedWindows(tasks, s, t, fd);
      var vaddrEnd := t.fileMapEnd;
      var begin := AlignDown(vaddrEnd - t.Size(fd));
      tasks := tasks[s := t.(fileMapEnd := begin)];
      tasks := tasks[s := Task(s).(fileMaps := t.fileMaps + [FileMapping(fd, begin, vaddrEnd)])];
      assert tasks == old(tasks)[s := MapFile(t, fd)];
      fileSize := t.Size(fd);
      forall k: nat | k < fileSize ensures FileShows(Task(s), begin, fd, k) {
        MappedShows(old(tasks), s, t, fd, k);
      }
      vaddrBegin := Some(begin);
    }

    /** The DemandPages system call. */
    method SysDemandPages(s: Space, numPages: nat) returns (dpEnd: nat)
      requires Valid()
      modifies this`tasks
      ensures Valid() && Now() == Apply(old(Now()), DemandPagesEvent(s, numPages))
      ensures dpEnd == old(Task(s)).dpagingEnd
    {
      hide AllWindows, ViewsOf, Tracks, Windows;
      OpenedWindows(tasks, s, Task(s), [], numPages);
      dpEnd := Task(s).dpagingEnd;
      tasks := tasks[s := Task(s).(dpagingEnd := dpEnd + PAGE_SIZE * numPages)];
    }

    /** A new space for a cached image. */
    method LoadCached(s: Space, c: Space) returns (err: Error)
      requires Valid() && Legal(Now(), Images(St()), LoadEvent(s, c))
      modifies this`roots, this`cr3, vm
      ensures Valid() && Touches(old(St()), St(), s) && Images(St()) == Images(old(St()))
      ensures err.Success? ==> Now() == Apply(old(Now()), LoadEvent(s, c))
      ensures !err.Success? ==> err.NoEnoughMemory? && vm.Exhausted()
      ensures forall r :: r != s ==> SameAt(old(Now()), Now(), r)
    {
      hide Inv, Touches, ViewOf, ViewsOf, ChangesView, Private, Tracks, AllWindows, SameAt, AddressSpaces.Exhausted;
      ghost var before := St();
      LegalMeans(before, roots, appLoads, tasks, LoadEvent(s, c));
      NotBased(before, s);
      InViews(before, c);
      err := SetupPML4(s, c);
      ghost var rooted := St();
      if !err.Success? {
        TouchesSelf(before, s);
        StepElsewhere(before, rooted, tasks, s);
        return;
      }
      RootTracked(roots, appLoads, rooted.lay, s);
      err := CopyImage(s, c);
      TouchesTrans(before, rooted, St(), s);
      AppLoaded(before, St(), s, c);
      StepElsewhere(before, St(), tasks, s);
      if err.Success? {
        Loaded(before, rooted, St(), s, c);
      }
    }

    /** One event of some space, carried out by the kernel's code. A refused access is none that failed. */
    method Step(e: Event) returns (err: Error)
      requires Valid() && Legal(Now(), Images(St()), e)
      modifies this`roots, this`cr3, this`tasks, vm
      ensures Valid() && Touches(old(St()), St(), e.space) && Images(St()) == Images(old(St()))
      ensures vm.lay.kernel == old(vm.lay.kernel)
      ensures !err.NoEnoughMemory? ==> Now() == Apply(old(Now()), e)
      ensures err.NoEnoughMemory? ==> vm.Exhausted() && e.NeedsFrames() && (e.ByApp() ==> Now() == old(Now()))
      ensures forall r :: r != e.space ==> SameAt(old(Now()), Now(), r)
    {
      hide Inv, Touches, ViewOf, ViewsOf, ChangesView, EntryAt, Private, NoneShared, WithPage, WithPages, Addr.PageNo,
        Addr.EndOf, Tracks, AllWindows, Accessed, Stored, SameAt, Started, OpenFile, MapFile, DemandPages,
        AddressSpaces.Exhausted;
      ghost var before, tasks0 := St(), tasks;
      LegalMeans(before, roots, appLoads, tasks, e);
      TouchesSelf(before, e.space);
      err := Success;
      var s := e.space;
      match e {
        case LoadEvent(_, c) =>
          err := LoadCached(s, c);
        case PagesEvent(_, start, num) =>
          err := MapPages(s, start, num);
        case StartEvent(_, vaddrEnd, files) =>
          StartApp(s, vaddrEnd, files);
          TasksStep(Machine(ViewsOf(before), tasks0), Now(), e);
        case ReadEvent(_, a, offset) =>
          var frame;
          frame, err := Access(s, a, offset, false, true);
          StepView(before, St(), tasks, s,
                   if err.NoEnoughMemory? then ViewOf(before, s)
                   else Accessed(ViewOf(before, s), Task(s), a, offset, false));
        case StoreEvent(_, a, i, w) =>
          err := UserStore(s, a, i, w);
          StepView(before, St(), tasks, s,
                   if err.NoEnoughMemory? then ViewOf(before, s) else Stored(ViewOf(before, s), Task(s), a, i, w));
        case SysStoreEvent(_, a, i, w) =>
          err := KernelStore(s, a, i, w);
          StepView(before, St(), tasks, s,
                   if err.NoEnoughMemory? then ViewOf(before, s) else Stored(ViewOf(before, s), Task(s), a, i, w));
        case OpenEvent(_, content) =>
          var fd := SysOpenFile(s, content);
          TasksStep(Machine(ViewsOf(before), tasks0), Now(), e);
        case MapFileEvent(_, fd) =>
          var vaddrBegin, fileSize := SysMapFile(s, fd);
          TasksStep(Machine(ViewsOf(before), tasks0), Now(), e);
        case DemandPagesEvent(_, num) =>
          var dpEnd := SysDemandPages(s, num);
          TasksStep(Machine(ViewsOf(before), tasks0), Now(), e);
        case ExitEvent(_) =>
          ExitApp(s);
          TasksStep(Machine(ViewsOf(before), tasks0), Now(), e);
          ExitImages(before, St(), s);
      }
      TouchesKernel(before, St(), s);
    }

    /** SetupPageMaps where nothing is mapped. */
    method MapPages(s: Space, start: Addr, num: nat) returns (err: Error)
      requires Valid() && Legal(Now(), Images(St()), PagesEvent(s, start, num))
      modifies vm
      ensures Valid() && Touches(old(St()), St(), s) && Images(St()) == Images(old(St()))
      ensures err.Success? ==> Now() == Apply(old(Now()), PagesEvent(s, start, num))
      ensures !err.Success? ==> err.NoEnoughMemory? && vm.Exhausted()
      ensures forall r :: r != s ==> SameAt(old(Now()), Now(), r)
    {
      hide Inv, Touches, ViewOf, ViewsOf, ChangesView, Private, NoneShared, WithPages, Addr.PageNo, Addr.EndOf, Tracks,
        AllWindows, SameAt, AddressSpaces.Exhausted;
      ghost var before := St();
      LegalMeans(before, roots, appLoads, tasks, PagesEvent(s, start, num));
      InAppHalf(start);
      RootOn(before, s, start);
      FreeUnshared(before, s, start.PageNo(), start.PageNo() + num);
      ProcessIsPrivate(before, s);
      ghost var done;
      err, done := SetupPageMaps(s, start, num, true);
      StepView(before, St(), tasks, s, WithPages(ViewOf(before, s), start.PageNo(), start.PageNo() + done, true));
    }

    /**
     * Copy-on-write isolation over whole runs: whatever the interleaving of loads, accesses, system calls and exits in
     * any number of spaces, all spaces show what private memories would show. The run stops when an event finds no
     * free frame; then this still holds for all other spaces, and for its own as well unless the kernel was mapping
     * pages for an app that had not started.
     */
    method Run(es: seq<Event>) returns (n: nat, err: Error)
      requires Valid() && LegalAll(Now(), Images(St()), es)
      modifies this`roots, this`cr3, this`tasks, vm
      ensures Valid() && n <= |es| && Images(St()) == Images(old(St())) && vm.lay.kernel == old(vm.lay.kernel)
      ensures !err.NoEnoughMemory? ==> err.Success? && n == |es| && Now() == ApplyAll(old(Now()), es)
      ensures err.NoEnoughMemory? ==>
                && n < |es| && vm.Exhausted()
                && (forall r :: r != es[n].space ==> SameAt(ApplyAll(old(Now()), es[..n]), Now(), r))
                && (es[n].ByApp() ==> Now() == ApplyAll(old(Now()), es[..n]))
      ensures forall s :: (forall k :: 0 <= k < |es| ==> es[k].space == s) ==> Touches(old(St()), St(), s)
      decreases |es|
    {
      hide Inv, Touches, ViewsOf, Legal, Apply, Tracks, Images, SameAt, AllWindows, AddressSpaces.Exhausted;
      ghost var before, m := St(), Now();
      if es == [] {
        forall s ensures Touches(before, before, s) {
          TouchesSelf(before, s);
        }
        return 0, Success;
      }
      err := Step(es[0]);
      ghost var middle := St();
      if err.NoEnoughMemory? {
        n := 0;
        assert es[..0] == [];
        forall s ensures Touches(middle, middle, s) {
          TouchesSelf(middle, s);
        }
      } else {
        n, err := Run(es[1..]);
        n := n + 1;
        assert es[..n][1..] == es[1..][..n - 1];
      }
      forall s | forall k :: 0 <= k < |es| ==> es[k].space == s
        ensures Touches(before, St(), s)
      {
        assert es[0].space == s;
        TouchesTrans(before, middle, St(), s);
      }
    }

    /**
     * The run goes on when memory is exhausted: an app whose page fault finds no frame is killed and taken down, one
     * that could not be loaded does not start, and its other events do not happen. All other spaces show what they
     * would show with private memories and memory enough for everyone. Only when a system call's own access finds no
     * frame everything ends, after n events: the kernel halts.
     */
    method RunOn(es: seq<Event>) returns (stopped: set<Space>, n: nat)
      requires Valid() && LegalAll(Now(), Images(St()), es)
      modifies this`roots, this`cr3, this`tasks, vm
      ensures Valid() && Images(St()) == Images(old(St())) && vm.lay.kernel == old(vm.lay.kernel)
      ensures n <= |es| && (n < |es| ==> es[n].SysStoreEvent? && es[n].space !in stopped && vm.Exhausted())
      ensures forall s :: s !in stopped ==> SameAt(ApplyAll(old(Now()), es[..n]), Now(), s)
      ensures forall s :: s in stopped ==>
                s !in Images(St()) && exists k :: 0 <= k < n && es[k].space == s && es[k].NeedsFrames()
    {
      hide Inv, Touches, ViewsOf, Legal, LegalAll, ApplyAll, Apply, Tracks, Images, SameAt, AllWindows, Alike,
        AddressSpaces.Exhausted, Process;
      ghost var m, images := Now(), Images(St());
      stopped := {};
      NothingApplied(m, es);
      for k := 0 to |es|
        invariant Valid() && Images(St()) == images && vm.lay.kernel == old(vm.lay.kernel)
        invariant forall s :: s !in stopped ==> SameAt(ApplyAll(m, es[..k]), Now(), s)
        invariant forall s :: s in stopped ==>
                    s !in images && exists j :: 0 <= j < k && es[j].space == s && es[j].NeedsFrames()
      {
        var e := es[k];
        ghost var now, plan := Now(), ApplyAll(m, es[..k]);
        OneMoreApplied(m, images, es, k);
        if e.space in stopped {
          OthersFollow(plan, now, now, e, stopped);
        } else {
          StillLegal(plan, now, images, stopped, e);
          var err := Step(e);
          if err.NoEnoughMemory? && e.SysStoreEvent? {
            return stopped, k;
          }
          OthersFollow(plan, now, Now(), e, stopped);
          if err.NoEnoughMemory? {
            stopped := stopped + {e.space};
            OutOfImages(plan, images, e);
            if e.ByApp() {
              LegalMeans(St(), roots, appLoads, tasks, e);
              ghost var failed, st := Now(), St();
              ExitApp(e.space);
              TouchesKernel(st, St(), e.space);
              ExitImages(st, St(), e.space);
              TasksStep(failed, Now(), ExitEvent(e.space));
              AllSame(Apply(plan, e), failed, Now(), e.space, stopped);
            }
          }
        }
      }
      n := |es|;
    }

    /**
     * ExecuteFile for a cached app: load it, map its argument page and stack, set its files, heap and windows, let it
     * run (events), and take it down. Frame conservation: whether the app returns or is killed by a page fault that
     * cannot be served, every frame that it was given is given back, and none of the image's. The kernel halts when
     * a system call's own access finds no frame.
     */
    method ExecuteFile(file: nat, s: Space, vaddrEnd: nat, files: seq<Option<seq<Byte>>>, events: seq<Event>)
      returns (err: Error)
      requires Valid() && file in appLoads && s !in roots
      requires forall k :: 0 <= k < |events| ==> events[k].space == s && events[k].ByApp()
      requires LegalAll(Now(), Images(St()), [LoadEvent(s, appLoads[file])] + (Setup(s, vaddrEnd, files) + events))
      modifies this`roots, this`cr3, this`tasks, this`appLoads, vm
      ensures Valid() && appLoads == old(appLoads) && (err.Success? ==> vm.lay.kernel == old(vm.lay.kernel))
      ensures err.Success? || (err.NoEnoughMemory? && vm.Exhausted())
      ensures err.Success? ==>
                && vm.used == old(vm.used) && vm.lay.at == old(vm.lay.at) && ViewsOf(St()) == ViewsOf(old(St()))
                && Task(s).files == [] && Task(s).fileMaps == []
    {
      hide Inv, Touches, ViewOf, ViewsOf, Legal, Tracks, Images, LegalAll, ApplyAll, Apply, AllWindows, SameAt, Process,
        Setup, AddressSpaces.Exhausted;
      ghost var before, c := St(), appLoads[file];
      LegalSplit(Now(), Images(before), [LoadEvent(s, c)], Setup(s, vaddrEnd, files) + events);
      FirstLegal(before, roots, appLoads, tasks, s, c);
      assert SegmentsFit([]);
      err := LoadApp(file, s, s, []);
      if !err.Success? {
        return;
      }
      ghost var loaded, started := St(), Now();
      AppLoaded(before, loaded, s, c);
      LegalSplit(started, Images(loaded), Setup(s, vaddrEnd, files), events);
      var n;
      n, err := Run(Setup(s, vaddrEnd, files));
      if !err.Success? {
        return;
      }
      ghost var ready, m := St(), Now();
      StillProcess(loaded, ready, started.tasks, s, Setup(s, vaddrEnd, files));
      TouchesTrans(before, loaded, ready, s);
      n, err := Run(events);
      ghost var done := St();
      TouchesTrans(before, ready, done, s);
      assert events[..|events|] == events;
      StillProcess(ready, done, m.tasks, s, events[..n]);
      if err.NoEnoughMemory? && events[n].SysStoreEvent? {
        return;
      }
      err := Success;
      ExitApp(s);
      TouchesTrans(before, done, St(), s);
      TouchesKernel(before, St(), s);
      Conservation(before, St(), s);
      SameViews(before, St(), s);
    }
  }

  /** The argument page, the 16 pages of the stack, and the settings of the task. */
  function Setup(s: Space, vaddrEnd: nat, files: seq<Option<seq<Byte>>>): (es: seq<Event>)
    ensures |es| == 3 && forall k :: 0 <= k < 3 ==> es[k].space == s && !es[k].ExitEvent?
  {
    [PagesEvent(s, ARGS_PAGE, 1), PagesEvent(s, STACK_PAGE, 16), StartEvent(s, vaddrEnd, files)]
  }

  /**
   * Before it runs, an app finds what its image shows, and in addition 17 pages of zeros up to the end of the address
   * space, which are its own: the stack and above it the arguments.
   */
  lemma SetupGives(m: Machine, images: iset<Space>, s: Space, vaddrEnd: nat, files: seq<Option<seq<Byte>>>, b: Addr)
    requires s in m.views && b.pml4 >= 256 && LegalAll(m, images, Setup(s, vaddrEnd, files))
    ensures var m' := ApplyAll(m, Setup(s, vaddrEnd, files));
            && s in m'.views && m'.Task(s) == Started(m.Task(s), vaddrEnd, files)
            && (if VAddr(b) >= 0xffff_ffff_fffe_f000
                then b !in m.views[s] && b in m'.views[s] && m'.views[s][b] == Page(Blank(), true)
                else (b in m'.views[s] <==> b in m.views[s]) && (b in m.views[s] ==> m'.views[s][b] == m.views[s][b]))
  {
    hide Started, WithPages, Legal, VAddr, Addr.PageNo, LegalAll, ApplyAll;
    var v, es := m.views[s], Setup(s, vaddrEnd, files);
    var lo, hi := ARGS_PAGE.PageNo(), STACK_PAGE.PageNo();
    var v1 := WithPages(v, lo, lo + 1, true);
    ThreeEvents(m, images, es);
    SetupPlaces(b);
    PagesGiven(v, lo, lo + 1, true, b);
    PagesGiven(v1, hi, hi + 16, true, b);
    NewPages(m, images, es[0], b);
    NewPages(Apply(m, es[0]), images, es[1], b);
  }

  lemma ThreeEvents(m: Machine, images: iset<Space>, es: seq<Event>)
    requires |es| == 3
    ensures LegalAll(m, images, es) ==> Legal(m, images, es[0]) && Legal(Apply(m, es[0]), images, es[1])
    ensures ApplyAll(m, es) == Apply(Apply(Apply(m, es[0]), es[1]), es[2])
  {
    hide Legal, Apply;
    var m1, m2 := Apply(m, es[0]), Apply(Apply(m, es[0]), es[1]);
    var rest, last := es[1..], [es[2]];
    assert rest[0] == es[1] && rest[1..] == last && last[1..] == [];
    assert LegalAll(m, images, es) ==> LegalAll(m1, images, rest);
    assert ApplyAll(m, es) == ApplyAll(m1, rest);
    assert ApplyAll(m1, rest) == ApplyAll(m2, last);
    assert ApplyAll(m2, last) == ApplyAll(Apply(m2, es[2]), []);
  }

  lemma SetupPlaces(b: Addr)
    ensures ARGS_PAGE.PageNo() <= b.PageNo() < ARGS_PAGE.PageNo() + 1 <==> VAddr(b) >= 0xffff_ffff_ffff_f000
    ensures STACK_PAGE.PageNo() <= b.PageNo() < STACK_PAGE.PageNo() + 16 <==>
            0xffff_ffff_fffe_f000 <= VAddr(b) < 0xffff_ffff_ffff_f000
  {
    assert b.PageNo() < LAST_PAGE;
  }

  lemma NewPages(m: Machine, images: iset<Space>, e: Event, b: Addr)
    requires e.PagesEvent? && Legal(m, images, e)
    ensures b in m.views[e.space] ==> !(e.start.PageNo() <= b.PageNo() < e.start.PageNo() + e.num)
  {
  }

  lemma PagesGiven(v: View, lo: nat, hi: nat, own: bool, b: Addr)
    requires b.pml4 >= 256
    ensures var v' := WithPages(v, lo, hi, own);
            && (b in v' <==> b in v || lo <= b.PageNo() < hi)
            && (b in v' ==> v'[b] == if b in v then v[b] else Page(Blank(), own))
  {
  }

  lemma RootAdded(st: State, s: Space, b: Space, f: FrameId, content: Frame)
    requires Inv(st) && s !in st.lay.base && f !in st.used
    requires b == s || IsImage(st.lay, b)
    requires SameLowerHalf(content, st.lay.kernel.Root()) && forall i: Index :: i >= 256 ==> !content[i].present
    ensures var st' := AddRoot(st, s, b, f, content);
            && Inv(st') && Touches(st, st', s)
            && ViewsOf(st') == ViewsOf(st)[s := imap[]]
            && st'.lay.At(Pos(s, Top)) == f && st'.Words(Pos(s, Top)) == content
            && forall r :: r in st.lay.base ==> st'.lay.At(Pos(r, Top)) == st.lay.At(Pos(r, Top))
  {
    hide Inv, ViewOf;
    var st' := AddRoot(st, s, b, f, content);
    AddRootKeeps(st, s, b, f, content);
    AddRootTouches(st, s, b, f, content);
    NotBased(st, s);
    OneView(st, st', s);
    NewSpaceEmpty(st, st', s);
    assert forall r :: r != s ==> Pos(r, Top) != Pos(s, Top);
  }

  lemma NotBased(st: State, s: Space)
    requires Inv(st) && s !in st.lay.base
    ensures Private(st, s)
    ensures forall q :: q in st.lay.at ==> q.space != s
  {
  }

  lemma AddRootTouches(st: State, s: Space, b: Space, f: FrameId, content: Frame)
    requires Inv(st) && s !in st.lay.base && f !in st.used
    ensures Touches(st, AddRoot(st, s, b, f, content), s)
  {
    hide Inv;
    var st' := AddRoot(st, s, b, f, content);
    Unowned(st, f);
    forall q: Pos | q.space != s && q in st.lay.at
      ensures st'.lay.At(q) == st.lay.At(q) && st'.Words(q) == st.Words(q)
    {
      Backed(st, q);
    }
  }

  lemma NewSpaceEmpty(st: State, st': State, s: Space)
    requires Inv(st) && s !in st.lay.base
    requires st'.lay.at.Keys == st.lay.at.Keys + {Pos(s, Top)}
    ensures ViewOf(st', s) == imap[]
  {
    hide Inv;
    NotBased(st, s);
    forall a: Addr ensures PageAt(st', s, a).None? {
      assert On(s, a, 1).space == s;
    }
    hide PageAt;
  }
}
