/** The page-table code of kernel/paging.cpp, over the memory and layout of PageTables. */
module Paging {
  import opened Common
  import opened FrameAllocator
  import opened PageTables
  import opened PageViews

  lemma AttachWords(st: State, p: Pos, i: Index, f: FrameId, content: Frame, e: Word)
    requires Inv(st) && p in st.lay.at && f !in st.used && p.Child(i) !in st.lay.at
    ensures var st' := Attach(st, p, i, f, content, e);
            && (forall q :: q in st.lay.at && q != p ==> st'.Words(q) == st.Words(q))
            && st'.Words(p) == st.Words(p)[i := e]
            && st'.Words(p.Child(i)) == content
  {
    var st' := Attach(st, p, i, f, content, e);
    Unowned(st, f);
    Backed(st, p);
    hide Inv;
    forall q | q in st.lay.at && q != p
      ensures st'.Words(q) == st.Words(q)
    {
      Apart(st, p, q);
      Backed(st, q);
    }
  }

  /** What attaching any frame leaves alone: other spaces, other positions and the pages' content. */
  lemma AttachGrows(st: State, p: Pos, i: Index, f: FrameId, content: Frame, e: Word)
    requires Inv(st) && MayAttach(st, p, i, f, content, e)
    ensures Grown(st, Attach(st, p, i, f, content, e), p.space)
  {
    hide Inv, State.Words, Path.Level;
    AttachWords(st, p, i, f, content, e);
  }

  /** A new empty table maps nothing. */
  lemma AttachTableMapsNothing(st: State, p: Pos, i: Index, f: FrameId, e: Word, lo: nat, writable: bool)
    requires Inv(st) && MayAttach(st, p, i, f, Blank(), e) && p.Level() >= 2
    ensures MapsRange(st, Attach(st, p, i, f, Blank(), e), p.space, lo, lo, writable)
  {
    hide Grown, Inv;
    var st' := Attach(st, p, i, f, Blank(), e);
    AttachGrows(st, p, i, f, Blank(), e);
    AttachWords(st, p, i, f, Blank(), e);
    forall a: Addr ensures EntryAt(st', p.space, a) == EntryAt(st, p.space, a) {
      var q := On(p.space, a, 1);
      OnLevel(p.space, a, 1);
      if q == p.Child(i) {
        assert st'.Words(q) == Blank();
      }
    }
  }

  /** Attaching a page changes the entry for its address and no other. */
  lemma AttachPageEntry(st: State, p: Pos, i: Index, f: FrameId, content: Frame, e: Word, a: Addr)
    requires Inv(st) && MayAttach(st, p, i, f, content, e)
    requires p == On(p.space, a, 1) && i == a.page
    ensures var st' := Attach(st, p, i, f, content, e);
            && EntryAt(st', p.space, a) == Some(e)
            && Content(st', f) == content
            && forall b: Addr :: b != a ==> EntryAt(st', p.space, b) == EntryAt(st, p.space, b)
  {
    hide Inv;
    var st' := Attach(st, p, i, f, content, e);
    AttachWords(st, p, i, f, content, e);
    OnLevel(p.space, a, 1);
    forall b: Addr | b != a
      ensures EntryAt(st', p.space, b) == EntryAt(st, p.space, b)
    {
      var q := On(p.space, b, 1);
      OnLevel(p.space, b, 1);
      assert q != p.Child(i);
    }
  }

  lemma AttachPageMapsOne(st: State, p: Pos, i: Index, f: FrameId, e: Word, a: Addr)
    requires Inv(st) && MayAttach(st, p, i, f, Blank(), e)
    requires p == On(p.space, a, 1) && i == a.page
    requires EntryAt(st, p.space, a).None?
    ensures MapsRange(st, Attach(st, p, i, f, Blank(), e), p.space, a.PageNo(), a.PageNo() + 1, e.writable)
  {
    hide Grown, Inv;
    var st' := Attach(st, p, i, f, Blank(), e);
    AttachGrows(st, p, i, f, Blank(), e);
    AttachPageEntry(st, p, i, f, Blank(), e, a);
    forall b: Addr
      ensures if a.PageNo() <= b.PageNo() < a.PageNo() + 1 then Mapped(st, st', p.space, b, e.writable)
              else EntryAt(st', p.space, b) == EntryAt(st, p.space, b)
    {
      SamePage(a, b);
    }
  }

  /** A page that is already mapped with the wanted right stays as it is. */
  lemma PresentMapsOne(st: State, s: Space, a: Addr, writable: bool)
    requires Inv(st) && a.pml4 >= 256
    requires EntryAt(st, s, a).Some? && EntryAt(st, s, a).value.writable == writable
    ensures MapsRange(st, st, s, a.PageNo(), a.PageNo() + 1, writable)
  {
    hide Inv;
    EntryTarget(st, s, a);
    forall b: Addr
      ensures if a.PageNo() <= b.PageNo() < a.PageNo() + 1 then Mapped(st, st, s, b, writable)
              else EntryAt(st, s, b) == EntryAt(st, s, b)
    {
      SamePage(a, b);
    }
  }

  /** No page of the interval is mapped with the other right: none is shared with the image. */
  ghost predicate NoneShared(st: State, s: Space, lo: nat, hi: nat, writable: bool) {
    forall a: Addr :: lo <= a.PageNo() < hi && EntryAt(st, s, a).Some? ==> EntryAt(st, s, a).value.writable == writable
  }

  lemma NoneSharedLater(s0: State, s1: State, s: Space, lo: nat, mid: nat, hi: nat, writable: bool)
    requires NoneShared(s0, s, lo, hi, writable) && MapsRange(s0, s1, s, lo, mid, writable) && lo <= mid
    ensures NoneShared(s1, s, mid, hi, writable)
  {
  }

  lemma NoneSharedBelow(s0: State, s1: State, s: Space, addr: Addr, level: int, n: nat, hi: nat, writable: bool)
    requires 2 <= level <= 4 && hi == addr.PageNo() + Min(n, addr.EndOf(level) - addr.PageNo())
    requires NoneShared(s0, s, addr.PageNo(), hi, writable)
    requires MapsRange(s0, s1, s, addr.PageNo(), addr.PageNo(), writable)
    ensures NoneShared(s1, s, addr.PageNo(), addr.PageNo() + Min(n, addr.EndOf(level - 1) - addr.PageNo()), writable)
  {
    assert addr.EndOf(level - 1) <= addr.EndOf(level);
  }

  /** Mapping pages moves no table and changes no image. */
  lemma Persists(s0: State, s1: State, s: Space, lo: nat, hi: nat, writable: bool, p: Pos)
    requires MapsRange(s0, s1, s, lo, hi, writable) && p in s0.lay.at
    ensures p in s1.lay.at && s1.lay.At(p) == s0.lay.At(p) && s1.lay.base == s0.lay.base
  {
  }

  /** Where the entry for addr ends, compared with the table that holds it. */
  lemma EntryEnd(addr: Addr, level: int)
    requires 1 <= level <= 4
    ensures var end := if level == 1 then addr.PageNo() + 1 else addr.EndOf(level - 1);
            && addr.PageNo() < end <= addr.EndOf(level)
            && (addr.Part(level) == 511 <==> end == addr.EndOf(level))
    ensures addr.pml4 >= 256 ==> APP_HALF <= addr.PageNo()
  {
  }

  lemma NextAddr(addr: Addr, level: int)
    requires 1 <= level <= 4 && addr.Part(level) < 511
    ensures addr.Next(level).PageNo() == if level == 1 then addr.PageNo() + 1 else addr.EndOf(level - 1)
    ensures addr.Next(level).EndOf(level) == addr.EndOf(level)
    ensures forall s :: On(s, addr.Next(level), level) == On(s, addr, level)
    ensures addr.Next(level).pml4 >= addr.pml4
    ensures addr.Next(level).Part(level) == addr.Part(level) + 1 && LowerZero(addr.Next(level), level)
  {
  }

  /** After the flags are written, the entry leads to a table or page of the space, whether it is new or not. */
  lemma EntryMade(before: State, after: State, addr: Addr, level: int, child: FrameId, writable: bool, s: Space,
                  hi: nat)
    requires Inv(before) && 1 <= level <= 4 && addr.pml4 >= 256
    requires On(s, addr, level) in before.lay.at && writable == (before.lay.Base(s) != s)
    requires addr.PageNo() < hi && NoneShared(before, s, addr.PageNo(), hi, writable)
    requires var p := On(s, addr, level);
             var i := addr.Part(level);
             var e := before.Words(p)[i];
             var e' := e.(present := true, user := true, writable := if level == 1 then writable else true);
             if e.present then
               child == e.addr && after == before.(mem := before.mem[before.lay.At(p) := before.Words(p)[i := e']])
             else
               child !in before.used && after == Attach(before, p, i, child, Blank(), e'.(addr := child))
    ensures Inv(after)
    ensures level > 1 ==> On(s, addr, level - 1) in after.lay.at && child == after.lay.At(On(s, addr, level - 1))
    ensures MapsRange(before, after, s, addr.PageNo(), addr.PageNo() + (if level == 1 then 1 else 0), writable)
  {
    hide Inv, MapsRange;
    var p := On(s, addr, level);
    var i := addr.Part(level);
    var e := before.Words(p)[i];
    OnLevel(s, addr, level);
    Backed(before, p);
    GoodAt(before, p, i);
    if e.present {
      if level == 1 {
        assert EntryAt(before, s, addr) == Some(e);
        assert e.writable == writable;
        PresentMapsOne(before, s, addr, writable);
      } else {
        MapsNothing(before, s, addr.PageNo(), writable);
      }
      assert before.Words(p)[i := e] == before.Words(p);
      assert after.mem == before.mem;
    } else {
      var e' := e.(present := true, user := true, writable := if level == 1 then writable else true, addr := child);
      AttachKeeps(before, p, i, child, Blank(), e');
      if level == 1 {
        AttachPageMapsOne(before, p, i, child, e', addr);
      } else {
        AttachTableMapsNothing(before, p, i, child, e', addr.PageNo(), writable);
      }
    }
  }

  /** A store to the frame of a present page, past its rights. */
  function PlainStore(st: State, s: Space, a: Addr, content: Frame): State
    requires EntryAt(st, s, a).Some?
  {
    st.(mem := st.mem[EntryAt(st, s, a).value.addr := content])
  }

  /** SetupPageMap grants the right to write to a present page, which keeps its frame; then there is a store. */
  function GrantedStore(st: State, s: Space, a: Addr, content: Frame): State
    requires EntryAt(st, s, a).Some?
  {
    var e := EntryAt(st, s, a).value;
    var granted := Rewrite(st, On(s, a, 1), a.page, e.(writable := true));
    granted.(mem := granted.mem[e.addr := content])
  }

  /**
   * Kernel-mode code stores past the rights, because CR0.WP is clear. The space itself sees the store. The space's
   * image changes exactly when the page has not been split from it.
   */
  lemma StoreReachesImageIff(st: State, s: Space, a: Addr, content: Frame)
    requires Inv(st) && a.pml4 >= 256 && s in st.lay.base && st.lay.Base(s) != s && EntryAt(st, s, a).Some?
    requires PageAt(st, s, a) != Some(content)
    ensures var stored, c := PlainStore(st, s, a, content), st.lay.Base(s);
            && PageAt(stored, s, a) == Some(content)
            && (PageAt(stored, c, a) != PageAt(st, c, a) <==> !EntryAt(st, s, a).value.writable)
  {
    hide Inv;
    var e, c := EntryAt(st, s, a).value, st.lay.Base(s);
    EntryTarget(st, s, a);
    OnLevel(s, a, 1);
    OnLevel(c, a, 1);
    OnLevel(c, a, 0);
    var q := On(if e.writable then s else c, a, 0);
    Apart(st, On(s, a, 1), q);
    ImageBase(st, s);
    if e.writable {
      if EntryAt(st, c, a).Some? {
        EntryTarget(st, c, a);
        Apart(st, On(c, a, 0), q);
        Apart(st, On(c, a, 1), q);
      } else if On(c, a, 1) in st.lay.at {
        Apart(st, On(c, a, 1), q);
      }
    } else {
      ImageShows(st, c, a);
      Apart(st, On(c, a, 1), q);
    }
  }

  lemma ImageBase(st: State, s: Space)
    requires Inv(st) && s in st.lay.base
    ensures IsImage(st.lay, st.lay.Base(s)) && st.lay.Base(st.lay.Base(s)) == st.lay.Base(s)
  {
  }

  /** A space shows the page that it has at an address. */
  lemma ImageShows(st: State, s: Space, a: Addr)
    requires Inv(st) && a.pml4 >= 256 && On(s, a, 0) in st.lay.at
    ensures On(s, a, 1) in st.lay.at && EntryAt(st, s, a).Some?
    ensures EntryAt(st, s, a).value.addr == st.lay.At(On(s, a, 0))
  {
    OnLevel(s, a, 1);
    GoodAt(st, On(s, a, 1), a.page);
  }

  /**
   * SetupPageMap with writable over a page that is mapped already: from then on user-mode stores reach the image if
   * and only if the page is one of the image's.
   */
  lemma GrantingIsSafeIffOwn(st: State, s: Space, a: Addr, content: Frame)
    requires Inv(st) && a.pml4 >= 256 && s in st.lay.base && st.lay.Base(s) != s && EntryAt(st, s, a).Some?
    requires PageAt(st, s, a) != Some(content)
    ensures var stored, c := GrantedStore(st, s, a, content), st.lay.Base(s);
            && PageAt(stored, s, a) == Some(content)
            && (PageAt(stored, c, a) != PageAt(st, c, a) <==> !EntryAt(st, s, a).value.writable)
    ensures var e := EntryAt(st, s, a).value;
            Inv(Rewrite(st, On(s, a, 1), a.page, e.(writable := true))) <==> e.writable
  {
    hide Inv, GrantedStore, PlainStore;
    var p, e := On(s, a, 1), EntryAt(st, s, a).value;
    var granted := Rewrite(st, p, a.page, e.(writable := true));
    StoreReachesImageIff(st, s, a, content);
    GrantedElsewhere(st, s, a, content);
    OnLevel(s, a, 1);
    EntryTarget(st, s, a);
    GoodAt(st, p, a.page);
    RewriteKeepsIf(st, p, a.page, e.(writable := true));
    assert granted.Words(p)[a.page] == e.(writable := true);
    if Inv(granted) {
      GoodAt(granted, p, a.page);
    }
  }

  /** The grant itself is invisible in the image. */
  lemma GrantedElsewhere(st: State, s: Space, a: Addr, content: Frame)
    requires Inv(st) && a.pml4 >= 256 && s in st.lay.base && st.lay.Base(s) != s && EntryAt(st, s, a).Some?
    ensures var stored, c := GrantedStore(st, s, a, content), st.lay.Base(s);
            && PageAt(stored, c, a) == PageAt(PlainStore(st, s, a, content), c, a)
            && PageAt(stored, s, a) == Some(content)
  {
    hide Inv;
    var e, c, p := EntryAt(st, s, a).value, st.lay.Base(s), On(s, a, 1);
    OnLevel(s, a, 1);
    OnLevel(c, a, 1);
    OnLevel(c, a, 0);
    EntryTarget(st, s, a);
    Apart(st, p, On(if e.writable then s else c, a, 0));
    if On(c, a, 1) in st.lay.at {
      Apart(st, p, On(c, a, 1));
      Apart(st, On(c, a, 1), On(if e.writable then s else c, a, 0));
      if EntryAt(st, c, a).Some? {
        ImageBase(st, s);
        EntryTarget(st, c, a);
        Apart(st, p, On(c, a, 0));
      }
    }
  }

  lemma RewriteKeepsIf(st: State, p: Pos, i: Index, e: Word)
    requires Inv(st) && p in st.lay.at && p.Level() >= 1 && AppIndex(p, i)
    ensures GoodEntry(st.lay, p, i, e) ==> Inv(Rewrite(st, p, i, e))
  {
    if GoodEntry(st.lay, p, i, e) {
      RewriteKeeps(st, p, i, e);
    }
  }

  // ----- copying an image

  /** The pages lo, ..., hi - 1 of s become what image c has there; no other entry of s changes. */
  ghost predicate Copies(s0: State, s1: State, s: Space, c: Space, lo: nat, hi: nat) {
    && Grown(s0, s1, s)
    && forall a: Addr :: EntryAt(s1, s, a) == EntryAt(s0, if lo <= a.PageNo() < hi then c else s, a)
  }

  lemma CopiesNothing(st: State, s: Space, c: Space, lo: nat)
    ensures Copies(st, st, s, c, lo, lo)
  {
  }

  lemma CopiesJoin(s0: State, s1: State, s2: State, s: Space, c: Space, lo: nat, mid: nat, hi: nat)
    requires Copies(s0, s1, s, c, lo, mid) && Copies(s1, s2, s, c, mid, hi) && lo <= mid <= hi && c != s
    requires Rooted(s0.lay)
    ensures Copies(s0, s2, s, c, lo, hi)
  {
    GrownTrans(s0, s1, s2, s);
    forall a: Addr
      ensures EntryAt(s2, s, a) == EntryAt(s0, if lo <= a.PageNo() < hi then c else s, a)
    {
      assert On(c, a, 1).space == c;
      assert EntryAt(s1, c, a) == EntryAt(s0, c, a);
    }
  }

  /** Positions and images survive a copy. */
  lemma CopyPersists(s0: State, s1: State, s: Space, c: Space, lo: nat, hi: nat)
    requires Copies(s0, s1, s, c, lo, hi)
    ensures forall q :: q in s0.lay.at ==> q in s1.lay.at && s1.lay.At(q) == s0.lay.At(q)
    ensures s1.lay.base == s0.lay.base
  {
  }

  /** A read-only entry of the image is shared. */
  lemma ShareEntry(st: State, s: Space, c: Space, a: Addr)
    requires Inv(st) && c != s && st.lay.Base(s) == c && IsImage(st.lay, c) && a.pml4 >= 256
    requires On(s, a, 1) in st.lay.at && On(c, a, 1) in st.lay.at
    requires st.Words(On(c, a, 1))[a.page].present && !st.Words(On(s, a, 1))[a.page].present
    ensures var e := st.Words(On(c, a, 1))[a.page];
            var st' := Rewrite(st, On(s, a, 1), a.page, e);
            && !e.writable
            && Inv(st')
            && Copies(st, st', s, c, a.PageNo(), a.PageNo() + 1)
            && st'.Words(On(s, a, 1)) == st.Words(On(s, a, 1))[a.page := e]
            && forall q :: q in st.lay.at && q != On(s, a, 1) ==> st'.Words(q) == st.Words(q)
  {
    hide Inv;
    var p, pc := On(s, a, 1), On(c, a, 1);
    var e := st.Words(pc)[a.page];
    OnLevel(s, a, 1);
    OnLevel(c, a, 1);
    GoodAt(st, pc, a.page);
    GoodAt(st, p, a.page);
    RewriteKeeps(st, p, a.page, e);
    var st' := Rewrite(st, p, a.page, e);
    forall q | q in st.lay.at && q != p
      ensures st'.Words(q) == st.Words(q)
    {
      Apart(st, p, q);
    }
    ShareEntryCopies(st, st', s, c, a, e);
  }

  lemma ShareEntryCopies(st: State, st': State, s: Space, c: Space, a: Addr, e: Word)
    requires On(s, a, 1) in st.lay.at && On(c, a, 1) in st.lay.at && c != s
    requires st'.lay == st.lay && st'.used == st.used
    requires e == st.Words(On(c, a, 1))[a.page] && e.present
    requires st'.Words(On(s, a, 1)) == st.Words(On(s, a, 1))[a.page := e]
    requires forall q :: q in st.lay.at && q != On(s, a, 1) ==> st'.Words(q) == st.Words(q)
    ensures Copies(st, st', s, c, a.PageNo(), a.PageNo() + 1)
  {
    hide State.Words, Addr.PageNo;
    OnLevel(s, a, 1);
    forall b: Addr
      ensures EntryAt(st', s, b) == EntryAt(st, if a.PageNo() <= b.PageNo() < a.PageNo() + 1 then c else s, b)
    {
      SamePage(a, b);
    }
  }

  /** Where neither space has a subtree there is nothing to copy. */
  lemma BothEmpty(st: State, s: Space, c: Space, a: Addr, level: int)
    requires Inv(st) && c != s && a.pml4 >= 256 && 1 <= level <= 4
    requires On(s, a, level) in st.lay.at && On(c, a, level) in st.lay.at
    requires !st.Words(On(s, a, level))[a.Part(level)].present && !st.Words(On(c, a, level))[a.Part(level)].present
    requires LowerZero(a, level)
    ensures Copies(st, st, s, c, a.PageNo(), if level == 1 then a.PageNo() + 1 else a.EndOf(level - 1))
  {
    hide Inv;
    OnLevel(s, a, level);
    OnLevel(c, a, level);
    GoodAt(st, On(s, a, level), a.Part(level));
    GoodAt(st, On(c, a, level), a.Part(level));
    forall b: Addr
      ensures var end := if level == 1 then a.PageNo() + 1 else a.EndOf(level - 1);
              EntryAt(st, s, b) == EntryAt(st, if a.PageNo() <= b.PageNo() < end then c else s, b)
    {
      if a.PageNo() <= b.PageNo() < if level == 1 then a.PageNo() + 1 else a.EndOf(level - 1) {
        SubtreeOf(s, a, b, level);
        SubtreeOf(c, a, b, level);
        if level == 1 {
          SamePage(a, b);
        } else {
          Unreached(st.lay, s, b, level - 1) by { InvRooted(st); }
          Unreached(st.lay, c, b, level - 1) by { InvRooted(st); }
        }
      }
    }
  }

  /** A table of the copy's own, still empty, in the place of the image's table. */
  lemma CopyTable(before: State, after: State, s: Space, c: Space, addr: Addr, part: int, table: FrameId)
    requires Inv(before) && 2 <= part <= 4 && addr.pml4 >= 256 && LowerZero(addr, part)
    requires c != s && before.lay.Base(s) == c && IsImage(before.lay, c)
    requires On(s, addr, part) in before.lay.at && On(c, addr, part) in before.lay.at
    requires table !in before.used
    requires var p, i := On(s, addr, part), addr.Part(part);
             var e := before.Words(On(c, addr, part))[i];
             && e.present && !before.Words(p)[i].present
             && after.mem == before.mem[table := Blank()][before.lay.At(p) := before.Words(p)[i := e.(addr := table)]]
             && after.used == before.used + {table} && after.lay == before.lay.Fill(p.Child(i), table)
    ensures Inv(after)
    ensures Copies(before, after, s, c, addr.PageNo(), addr.PageNo())
    ensures var pc := On(c, addr, part - 1);
            pc in after.lay.at && after.lay.At(pc) == before.Words(On(c, addr, part))[addr.Part(part)].addr
    ensures var p := On(s, addr, part - 1);
            p in after.lay.at && after.lay.At(p) == table && after.Words(p) == Blank()
    ensures addr.Part(part - 1) == 0 && LowerZero(addr, part - 1)
    ensures var p := On(s, addr, part);
            && after.Words(p) == before.Words(p)[addr.Part(part) := after.Words(p)[addr.Part(part)]]
            && forall q :: q in before.lay.at && q != p ==> after.Words(q) == before.Words(q)
    ensures after.lay.base == before.lay.base
    ensures forall q :: q in before.lay.at ==> q in after.lay.at && after.lay.At(q) == before.lay.At(q)
  {
    hide Inv;
    var p, i := On(s, addr, part), addr.Part(part);
    var pc := On(c, addr, part);
    var e := before.Words(pc)[i];
    OnLevel(s, addr, part);
    OnLevel(c, addr, part);
    GoodAt(before, pc, i);
    GoodAt(before, p, i);
    var e' := e.(addr := table);
    AttachKeeps(before, p, i, table, Blank(), e');
    AttachTableMapsNothing(before, p, i, table, e', addr.PageNo(), true);
    AttachWords(before, p, i, table, Blank(), e');
  }

  lemma RootIn(st: State, s: Space)
    requires Inv(st) && s in st.lay.base
    ensures Pos(s, Top) in st.lay.at
  {
  }

  lemma InvRooted(st: State)
    requires Inv(st)
    ensures Rooted(st.lay)
  {
  }

  predicate LowerZero(a: Addr, level: int) {
    (level > 1 ==> a.page == 0) && (level > 2 ==> a.dir == 0) && (level > 3 ==> a.pdp == 0)
  }

  /** The pages of the interval that an entry maps are the pages below its table. */
  lemma SubtreeOf(r: Space, a: Addr, b: Addr, level: int)
    requires 1 <= level <= 4 && LowerZero(a, level)
    requires a.PageNo() <= b.PageNo() < if level == 1 then a.PageNo() + 1 else a.EndOf(level - 1)
    ensures On(r, b, level - 1) == On(r, a, level - 1)
  {
    if level == 1 {
      SamePage(a, b);
    } else {
      Prefixes(a, b);
    }
  }

  /** Which parts of two page numbers agree when they differ by less than a table's reach. */
  lemma Prefixes(a: Addr, b: Addr)
    requires a.PageNo() <= b.PageNo()
    ensures a.page == 0 && b.PageNo() < a.EndOf(1) ==> b.pml4 == a.pml4 && b.pdp == a.pdp && b.dir == a.dir
    ensures a.page == a.dir == 0 && b.PageNo() < a.EndOf(2) ==> b.pml4 == a.pml4 && b.pdp == a.pdp
    ensures a.page == a.dir == a.pdp == 0 && b.PageNo() < a.EndOf(3) ==> b.pml4 == a.pml4
  {
  }

  // ----- taking a space down

  /** The pages lo, ..., hi - 1 of s are unmapped, its other entries stay; frames are only given back. */
  ghost predicate Shrinks(s0: State, s1: State, s: Space, lo: nat, hi: nat) {
    && Touches(s0, s1, s)
    && s1.lay.base == s0.lay.base
    && s1.used <= s0.used
    && forall a: Addr :: EntryAt(s1, s, a) == if lo <= a.PageNo() < hi then None else EntryAt(s0, s, a)
  }

  lemma ShrinksNothing(st: State, s: Space, lo: nat)
    ensures Shrinks(st, st, s, lo, lo)
  {
  }

  lemma ShrinksJoin(s0: State, s1: State, s2: State, s: Space, lo: nat, mid: nat, hi: nat)
    requires Shrinks(s0, s1, s, lo, mid) && Shrinks(s1, s2, s, mid, hi) && lo <= mid <= hi
    ensures Shrinks(s0, s2, s, lo, hi)
  {
    TouchesTrans(s0, s1, s2, s);
  }

  /** The second of two steps may cover the first one's pages again. */
  lemma ShrinksAgain(s0: State, s1: State, s2: State, s: Space, lo: nat, hi: nat)
    requires Shrinks(s0, s1, s, lo, hi) && Shrinks(s1, s2, s, lo, hi)
    ensures Shrinks(s0, s2, s, lo, hi)
  {
    TouchesTrans(s0, s1, s2, s);
  }

  lemma ShrinksKeepBase(s0: State, s1: State, s: Space, lo: nat, hi: nat)
    requires Shrinks(s0, s1, s, lo, hi)
    ensures s1.lay.base == s0.lay.base
  {
  }

  /** The table at p has no present entry from index on. */
  ghost predicate EmptyFrom(st: State, p: Pos, index: Index) {
    forall j: Index :: index <= j ==> !st.Words(p)[j].present
  }

  function EntrySpan(a: Addr, level: int): nat {
    if level == 1 then a.PageNo() + 1 else a.EndOf(level - 1)
  }

  /** Below an entry that is not present nothing is mapped. */
  lemma EmptyEntry(st: State, s: Space, a: Addr, level: int)
    requires Inv(st) && a.pml4 >= 256 && 1 <= level <= 4 && LowerZero(a, level)
    requires On(s, a, level) in st.lay.at && !st.Words(On(s, a, level))[a.Part(level)].present
    ensures Shrinks(st, st, s, a.PageNo(), EntrySpan(a, level))
  {
    hide Inv;
    OnLevel(s, a, level);
    GoodAt(st, On(s, a, level), a.Part(level));
    forall b: Addr | a.PageNo() <= b.PageNo() < EntrySpan(a, level)
      ensures EntryAt(st, s, b) == None
    {
      SubtreeOf(s, a, b, level);
      if level == 1 {
        SamePage(a, b);
      } else {
        Unreached(st.lay, s, b, level - 1) by { InvRooted(st); }
      }
    }
  }

  lemma DetachWords(st: State, p: Pos, i: Index)
    requires Inv(st) && p in st.lay.at && p.Child(i) in st.lay.at
    ensures var st' := Detach(st, p, i);
            && (forall q :: q in st.lay.at && q != p && q != p.Child(i) ==> st'.Words(q) == st.Words(q))
            && st'.Words(p) == st.Words(p)[i := ZERO]
  {
    hide Inv;
    var st' := Detach(st, p, i);
    Backed(st, p);
    forall q | q in st.lay.at && q != p && q != p.Child(i)
      ensures st'.Words(q) == st.Words(q)
    {
      Apart(st, p, q);
      Backed(st, q);
    }
  }

  /** Freeing a page, or a table whose subtree is already gone. */
  lemma DetachShrinks(st: State, s: Space, a: Addr, level: int)
    requires Inv(st) && a.pml4 >= 256 && 1 <= level <= 4 && LowerZero(a, level) && st.lay.Base(s) != s
    requires On(s, a, level) in st.lay.at && On(s, a, level).Child(a.Part(level)) in st.lay.at
    requires level > 1 ==> EmptyFrom(st, On(s, a, level - 1), 0)
    ensures var st' := Detach(st, On(s, a, level), a.Part(level));
            Inv(st') && Shrinks(st, st', s, a.PageNo(), EntrySpan(a, level))
  {
    hide Inv;
    var p, i := On(s, a, level), a.Part(level);
    var st' := Detach(st, p, i);
    OnLevel(s, a, level);
    assert p.Child(i) == On(s, a, level - 1);
    forall j: Index ensures p.Child(i).Child(j) !in st.lay.at {
      if level > 1 {
        OnLevel(s, a, level - 1);
        GoodAt(st, p.Child(i), j);
      } else {
        LevelsEnd(st, p.Child(i), j);
      }
    }
    DetachKeeps(st, p, i);
    DetachWords(st, p, i);
    DetachEntries(st, st', s, a, level);
  }

  /** Nothing hangs from a page. */
  lemma LevelsEnd(st: State, q: Pos, j: Index)
    requires Inv(st) && q.Level() == 0
    ensures q.Child(j) !in st.lay.at
  {
  }

  lemma DetachEntries(st: State, st': State, s: Space, a: Addr, level: int)
    requires 1 <= level <= 4 && LowerZero(a, level) && Inv(st')
    requires On(s, a, level) in st.lay.at
    requires var p, i := On(s, a, level), a.Part(level);
             && st' == Detach(st, p, i)
             && (forall q :: q in st.lay.at && q != p && q != p.Child(i) ==> st'.Words(q) == st.Words(q))
             && st'.Words(p) == st.Words(p)[i := ZERO]
    requires level > 1 ==> EmptyFrom(st, On(s, a, level - 1), 0)
    ensures Shrinks(st, st', s, a.PageNo(), EntrySpan(a, level))
  {
    hide Inv, State.Words, Addr.PageNo, Addr.EndOf, LowerZero;
    var p, i := On(s, a, level), a.Part(level);
    OnLevel(s, a, level);
    forall b: Addr
      ensures EntryAt(st', s, b) == if a.PageNo() <= b.PageNo() < EntrySpan(a, level) then None else EntryAt(st, s, b)
    {
      OnLevel(s, b, 1);
      if a.PageNo() <= b.PageNo() < EntrySpan(a, level) {
        SubtreeOf(s, a, b, level);
        if level == 1 {
          SamePage(a, b);
        } else {
          Unreached(st'.lay, s, b, level - 1) by { InvRooted(st'); }
        }
      } else if level == 1 {
        SamePage(a, b);
      } else if level == 2 && On(s, b, 1) == p.Child(i) {
        assert st.Words(On(s, a, 1)) == st.Words(On(s, b, 1));
      }
    }
  }

  /** Clearing an entry that shows one of the image's pages frees nothing. */
  lemma UnshareShrinks(st: State, s: Space, a: Addr)
    requires Inv(st) && a.pml4 >= 256
    requires On(s, a, 1) in st.lay.at && On(s, a, 1).Child(a.page) !in st.lay.at
    ensures var st' := Rewrite(st, On(s, a, 1), a.page, ZERO);
            && Inv(st') && Shrinks(st, st', s, a.PageNo(), a.PageNo() + 1)
            && st'.Words(On(s, a, 1)) == st.Words(On(s, a, 1))[a.page := ZERO]
            && forall q :: q in st.lay.at && q != On(s, a, 1) ==> st'.Words(q) == st.Words(q)
  {
    hide Inv;
    var p := On(s, a, 1);
    OnLevel(s, a, 1);
    RewriteKeeps(st, p, a.page, ZERO);
    var st' := Rewrite(st, p, a.page, ZERO);
    forall q | q in st.lay.at && q != p
      ensures st'.Words(q) == st.Words(q)
    {
      Apart(st, p, q);
    }
    assert st'.Words(p) == st.Words(p)[a.page := ZERO];
    hide State.Words, Addr.PageNo;
    forall b: Addr
      ensures EntryAt(st', s, b) == if a.PageNo() <= b.PageNo() < a.PageNo() + 1 then None else EntryAt(st, s, b)
    {
      SamePage(a, b);
    }
  }

  // ----- splitting a shared page

  /** A frame that is not in use yet is on nobody's walk. */
  lemma WalkElsewhere(st: State, f: FrameId, s: Space, a: Addr)
    requires Inv(st) && s in st.lay.base && a.pml4 >= 256 && f !in st.used
    ensures Walk(st.mem[f := Blank()], st.lay.At(Pos(s, Top)), 4, a) == Walk(st.mem, st.lay.At(Pos(s, Top)), 4, a)
  {
    hide Inv, Walk;
    RootIn(st, s);
    var st' := st.(mem := st.mem[f := Blank()]);
    UnusedKeeps(st, f);
    forall q | q in st.lay.at ensures st'.Words(q) == st.Words(q) {
      Backed(st, q);
    }
    WalkIsEntry(st, s, a, 4);
    WalkIsEntry(st', s, a, 4);
  }

  lemma UnusedKeeps(st: State, f: FrameId)
    requires Inv(st) && f !in st.used
    ensures Inv(st.(mem := st.mem[f := Blank()]))
  {
    var st' := st.(mem := st.mem[f := Blank()]);
    RewriteAccounted(st, st'.mem);
    UnusedKernel(st, f);
    hide Bijective, Rooted, Accounted, KernelKept;
    forall q | q in st.lay.at && q.Level() >= 1 ensures GoodTable(st', q) {
      Backed(st, q);
      assert GoodTable(st, q);
    }
  }

  lemma UnusedKernel(st: State, f: FrameId)
    requires Inv(st) && f !in st.used
    ensures KernelKept(st.(mem := st.mem[f := Blank()]))
  {
    hide TablesGood, KernelKept, GoodEntry;
    var st' := st.(mem := st.mem[f := Blank()]);
    forall g | g in st.lay.kernel.frames ensures g in st.mem && g in st'.mem && st'.mem[g] == st.mem[g] {
      KernelApart(st, g);
      KernelFrame(st, g);
    }
    forall s | s in st.lay.base ensures SameLowerHalf(st'.Words(Pos(s, Top)), st.Words(Pos(s, Top))) {
      Backed(st, Pos(s, Top));
    }
    KernelStays(st, st');
  }

  /** What a write fault does: s shows the same pages as before, and the page at a is now its own. */
  ghost predicate Splits(s0: State, s1: State, s: Space, a: Addr) {
    && Touches(s0, s1, s)
    && s1.lay.base == s0.lay.base
    && (forall b: Addr :: b.pml4 >= 256 ==> PageAt(s1, s, b) == PageAt(s0, s, b))
    && (forall b: Addr :: b != a ==> EntryAt(s1, s, b) == EntryAt(s0, s, b))
    && EntryAt(s1, s, a).Some? && EntryAt(s1, s, a).value.writable
    && (forall q :: q in s0.lay.at ==> q in s1.lay.at && s1.lay.At(q) == s0.lay.At(q))
  }

  lemma SplitPage(st: State, s: Space, a: Addr, f: FrameId)
    requires Inv(st) && a.pml4 >= 256 && st.lay.Base(s) != s && f !in st.used
    requires EntryAt(st, s, a).Some? && !EntryAt(st, s, a).value.writable
    ensures var p := On(s, a, 1);
            var e := st.Words(p)[a.page].(addr := f, writable := true);
            var st' := Attach(st, p, a.page, f, PageAt(st, s, a).value, e);
            && p.Child(a.page) !in st.lay.at && Inv(st') && Splits(st, st', s, a)
  {
    hide Inv;
    var p := On(s, a, 1);
    var old_e := st.Words(p)[a.page];
    var content := PageAt(st, s, a).value;
    var e := old_e.(addr := f, writable := true);
    OnLevel(s, a, 1);
    GoodAt(st, p, a.page);
    AttachKeeps(st, p, a.page, f, content, e);
    AttachPageEntry(st, p, a.page, f, content, e, a);
    AttachGrows(st, p, a.page, f, content, e);
    var st' := Attach(st, p, a.page, f, content, e);
    forall b: Addr | b.pml4 >= 256
      ensures PageAt(st', s, b) == PageAt(st, s, b)
    {
      if b != a && EntryAt(st, s, b).Some? {
        EntryTarget(st, s, b);
        GrownContent(st, st', s, b);
      }
    }
  }

  /** Pages that are mapped keep their content while a space grows. */
  lemma GrownContent(s0: State, s1: State, s: Space, a: Addr)
    requires Inv(s0) && Grown(s0, s1, s) && a.pml4 >= 256 && EntryAt(s0, s, a).Some?
    ensures Content(s1, EntryAt(s0, s, a).value.addr) == Content(s0, EntryAt(s0, s, a).value.addr)
  {
    hide Inv;
    EntryTarget(s0, s, a);
    var e := EntryAt(s0, s, a).value;
    var q := On(if e.writable then s else s0.lay.Base(s), a, 0);
    assert s1.Words(q) == s0.Words(q);
  }

  /** A writable entry leads to a frame of the space's own, which is in use. */
  lemma PrivateTarget(st: State, p: Pos, i: Index)
    requires Inv(st) && p in st.lay.at && p.Level() >= 1 && AppIndex(p, i)
    requires st.Words(p)[i].present && st.Words(p)[i].writable
    ensures p.Child(i) in st.lay.at && st.lay.At(p.Child(i)) == st.Words(p)[i].addr && st.Words(p)[i].addr in st.used
  {
    hide Inv;
    GoodAt(st, p, i);
    Backed(st, p.Child(i));
  }

  class AddressSpaces {
    var mem: map<FrameId, Frame>
    var used: set<FrameId>
    const rangeBegin: FrameId
    const rangeEnd: FrameId
    const kernelTable: FrameId
    ghost var lay: Layout

    ghost function St(): State
      reads this
    {
      State(mem, used, lay)
    }

    ghost predicate Valid()
      reads this
    {
      Inv(St()) && lay.kernel.table == kernelTable
    }

    /** No frame of the allocator's range is free. */
    ghost predicate Exhausted()
      reads this
    {
      FirstFit(used, rangeBegin, rangeEnd, 1).None?
    }

    /** After boot there are no app address spaces; the kernel's own frames, its tables among them, are reserved. */
    constructor (begin: FrameId, end: FrameId, kernelFrames: set<FrameId>, tables: map<FrameId, Frame>, root: FrameId)
      requires root in tables && tables.Keys <= kernelFrames
      ensures Valid() && used == kernelFrames && rangeBegin == begin && rangeEnd == end && kernelTable == root
      ensures mem == tables && lay == Layout(map[], map[], map[], kernelFrames, Kernel(root, tables))
    {
      rangeBegin, rangeEnd, kernelTable := begin, end, root;
      mem, used := tables, kernelFrames;
      lay := Layout(map[], map[], map[], kernelFrames, Kernel(root, tables));
    }

    method NewPageMap() returns (frame: FrameId, err: Error)
      modifies this`mem, this`used
      ensures err.Success? ==> frame !in old(used) && used == old(used) + {frame} && mem == old(mem)[frame := Blank()]
      ensures !err.Success? ==> err.NoEnoughMemory? && mem == old(mem) && used == old(used)
      ensures err.Success? <==> !old(Exhausted())
    {
      FirstFitIsLowest(used, rangeBegin, rangeEnd, 1);
      match FirstFit(used, rangeBegin, rangeEnd, 1)
      case None =>
        return 0, NoEnoughMemory;
      case Some(f) =>
        assert IsFree(used, rangeEnd, f);
        used := used + {f};
        mem := mem[f := Blank()];
        return f, Success;
    }

    method SetNewPageMapIfNotPresent(table: FrameId, i: Index) returns (child: FrameId, err: Error)
      requires table in mem && table in used
      modifies this`mem, this`used
      ensures old(mem[table][i]).present ==>
                err.Success? && mem == old(mem) && child == mem[table][i].addr && used == old(used)
      ensures !old(mem[table][i]).present && err.Success? ==>
                && child !in old(used) && used == old(used) + {child}
                && mem == old(mem)[child := Blank()][table :=
                     old(mem[table])[i := old(mem[table][i]).(addr := child, present := true)]]
      ensures !err.Success? ==> err.NoEnoughMemory? && Exhausted() && mem == old(mem) && used == old(used)
    {
      if mem[table][i].present {
        return mem[table][i].addr, Success;
      }
      child, err := NewPageMap();
      if !err.Success? {
        return;
      }
      var entry := mem[table][i];
      mem := mem[table := mem[table][i := entry.(addr := child)]];
      mem := mem[table := mem[table][i := mem[table][i].(present := true)]];
      assert mem[table] == old(mem[table])[i := old(mem[table][i]).(addr := child, present := true)];
    }

    /** The address of the next entry of the table: its index one higher, all lower parts zero. */
    method NextEntry(addr: Addr, level: int) returns (next: Addr)
      requires 1 <= level <= 4 && addr.Part(level) < 511
      ensures next == addr.Next(level)
    {
      next := addr.SetPart(level, addr.Part(level) + 1);
      var l := level - 1;
      while l >= 1
        invariant l <= level - 1
        invariant next.pml4 == addr.SetPart(level, addr.Part(level) + 1).pml4
        invariant next.pdp == if l < 3 < level then 0 else addr.SetPart(level, addr.Part(level) + 1).pdp
        invariant next.dir == if l < 2 < level then 0 else addr.SetPart(level, addr.Part(level) + 1).dir
        invariant next.page == if l < 1 < level then 0 else addr.SetPart(level, addr.Part(level) + 1).page
      {
        next := next.SetPart(l, 0);
        l := l - 1;
      }
    }

    /** One turn of the loop up to the recursive call: the entry for addr becomes present and gets its rights. */
    method OpenEntry(table: FrameId, level: int, addr: Addr, writable: bool, ghost s: Space, ghost hi: nat)
      returns (child: FrameId, err: Error)
      requires Valid() && 1 <= level <= 4 && addr.pml4 >= 256
      requires On(s, addr, level) in lay.at && table == lay.At(On(s, addr, level))
      requires writable == (lay.Base(s) != s)
      requires addr.PageNo() < hi && NoneShared(St(), s, addr.PageNo(), hi, writable)
      modifies this`mem, this`used, this`lay
      ensures Valid()
      ensures err.Success? ==>
                && MapsRange(old(St()), St(), s, addr.PageNo(), addr.PageNo() + (if level == 1 then 1 else 0), writable)
                && (level > 1 ==> On(s, addr, level - 1) in lay.at && child == lay.At(On(s, addr, level - 1)))
      ensures !err.Success? ==> err.NoEnoughMemory? && Exhausted() && St() == old(St())
    {
      hide AddressSpaces.Exhausted, Inv, MapsRange, NoneShared;
      ghost var p := On(s, addr, level);
      ghost var before := St();
      var i := addr.Part(level);
      Backed(before, p);
      child, err := SetNewPageMapIfNotPresent(table, i);
      if !err.Success? {
        return;
      }
      mem := mem[table := mem[table][i := mem[table][i].(user := true)]];
      if level == 1 {
        mem := mem[table := mem[table][i := mem[table][i].(writable := writable)]];
      } else {
        mem := mem[table := mem[table][i := mem[table][i].(writable := true)]];
      }
      ghost var e :=
        before.Words(p)[i].(present := true, user := true, writable := if level == 1 then writable else true);
      if before.Words(p)[i].present {
        assert mem[table] == before.Words(p)[i := e];
        assert mem == before.mem[table := before.Words(p)[i := e]];
      } else {
        lay := lay.Fill(p.Child(i), child);
        assert mem[table] == before.Words(p)[i := e.(addr := child)];
        assert mem == before.mem[child := Blank()][table := before.Words(p)[i := e.(addr := child)]];
      }
      EntryMade(before, St(), addr, level, child, writable, s, hi);
    }

    /**
     * Maps the pages from addr on, at most num of them and none behind the end of this table.
     * done counts the pages mapped: all that fit, or those mapped before memory ran out.
     */
    method SetupPageMap(table: FrameId, level: int, start: Addr, num: nat, writable: bool, ghost s: Space)
      returns (remain: nat, err: Error, ghost done: nat)
      requires Valid() && 1 <= level <= 4 && start.pml4 >= 256
      requires On(s, start, level) in lay.at && table == lay.At(On(s, start, level))
      requires writable == (lay.Base(s) != s)
      requires NoneShared(St(), s, start.PageNo(),
                start.PageNo() + Min(num, start.EndOf(level) - start.PageNo()), writable)
      modifies this`mem, this`used, this`lay
      ensures Valid()
      ensures done <= Min(num, start.EndOf(level) - start.PageNo())
      ensures MapsRange(old(St()), St(), s, start.PageNo(), start.PageNo() + done, writable)
      ensures err.Success? ==> done == Min(num, start.EndOf(level) - start.PageNo()) && remain == num - done
      ensures !err.Success? ==>
                err.NoEnoughMemory? && Exhausted() && done < Min(num, start.EndOf(level) - start.PageNo())
      decreases level
    {
      hide AddressSpaces.Exhausted, Inv, MapsRange, NoneShared, On, Addr.PageNo, Addr.EndOf, Addr.Part, Addr.Next;
      EntryEnd(start, level);
      ghost var p := On(s, start, level);
      ghost var hi := start.PageNo() + Min(num, start.EndOf(level) - start.PageNo());
      var addr, n := start, num;
      done := 0;
      MapsNothing(St(), s, start.PageNo(), writable);
      while n > 0
        invariant Valid()
        invariant p in lay.at && table == lay.At(p) && writable == (lay.Base(s) != s)
        invariant done == num - n
        invariant done <= Min(num, start.EndOf(level) - start.PageNo())
        invariant MapsRange(old(St()), St(), s, start.PageNo(), start.PageNo() + done, writable)
        invariant n > 0 ==> addr.PageNo() == start.PageNo() + done
        invariant n > 0 ==> On(s, addr, level) == p && addr.EndOf(level) == start.EndOf(level)
        invariant addr.pml4 >= 256
        decreases n
      {
        var entryIndex := addr.Part(level);
        ghost var before := St();
        EntryEnd(addr, level);
        NoneSharedLater(old(St()), before, s, start.PageNo(), addr.PageNo(), hi, writable);
        Persists(old(St()), before, s, start.PageNo(), addr.PageNo(), writable, p);
        var child, e := OpenEntry(table, level, addr, writable, s, hi);
        if !e.Success? {
          return n, e, done;
        }
        MapsJoin(old(St()), before, St(), s, start.PageNo(), addr.PageNo(),
                 addr.PageNo() + if level == 1 then 1 else 0, writable);

        Persists(before, St(), s, addr.PageNo(), addr.PageNo() + (if level == 1 then 1 else 0), writable, p);

        if level == 1 {
          n := n - 1;
          done := done + 1;
        } else {
          ghost var middle := St();
          NoneSharedBelow(before, middle, s, addr, level, n, hi, writable);
          var numRemain, e2, part := SetupPageMap(child, level - 1, addr, n, writable, s);
          MapsJoin(old(St()), middle, St(), s, start.PageNo(), addr.PageNo(), addr.PageNo() + part, writable);
          Persists(middle, St(), s, addr.PageNo(), addr.PageNo() + part, writable, p);
          done := done + part;
          if !e2.Success? {
            return n, e2, done;
          }
          n := numRemain;
        }

        if entryIndex == 511 {
          break;
        }
        NextAddr(addr, level);
        addr := NextEntry(addr, level);
      }
      return n, Success, done;
    }

    /** A new table takes the place that entry has in the image. */
    method NewTableFor(dest: FrameId, part: int, i: Index, entry: Word, ghost s: Space, ghost c: Space,
                       ghost addr: Addr)
      returns (table: FrameId, err: Error)
      requires Valid() && 2 <= part <= 4 && addr.pml4 >= 256
      requires c != s && lay.Base(s) == c && IsImage(lay, c)
      requires addr.Part(part) == i && LowerZero(addr, part)
      requires On(s, addr, part) in lay.at && dest == lay.At(On(s, addr, part))
      requires On(c, addr, part) in lay.at && entry == St().Words(On(c, addr, part))[i] && entry.present
      requires !St().Words(On(s, addr, part))[i].present
      modifies this`mem, this`used, this`lay
      ensures Valid()
      ensures !err.Success? ==> err.NoEnoughMemory? && Exhausted() && St() == old(St())
      ensures err.Success? ==>
                && Copies(old(St()), St(), s, c, addr.PageNo(), addr.PageNo())
                && lay.base == old(lay.base)
                && (forall q :: q in old(lay.at) ==> q in lay.at && lay.At(q) == old(lay.At(q)))
                && (forall q :: q in old(lay.at) && q != On(s, addr, part) ==> St().Words(q) == old(St()).Words(q))
                && (forall j: Index :: j != i ==>
                     St().Words(On(s, addr, part))[j] == old(St()).Words(On(s, addr, part))[j])
                && On(s, addr, part - 1) in lay.at && table == lay.At(On(s, addr, part - 1))
                && St().Words(On(s, addr, part - 1)) == Blank()
                && On(c, addr, part - 1) in lay.at && entry.addr == lay.At(On(c, addr, part - 1))
                && addr.Part(part - 1) == 0 && LowerZero(addr, part - 1)
    {
      hide AddressSpaces.Exhausted, Inv, Copies, On, Addr.PageNo, LowerZero;
      ghost var before := St();
      ghost var p := On(s, addr, part);
      Backed(before, p);
      table, err := NewPageMap();
      if !err.Success? {
        return;
      }
      mem := mem[dest := mem[dest][i := entry]];
      mem := mem[dest := mem[dest][i := mem[dest][i].(addr := table)]];
      assert mem[dest] == before.Words(p)[i := entry.(addr := table)];
      assert mem == before.mem[table := Blank()][dest := before.Words(p)[i := entry.(addr := table)]];
      lay := lay.Fill(p.Child(i), table);
      CopyTable(before, St(), s, c, addr, part, table);
    }

    /** One turn of the copying loops: nothing, a shared page, or a table of the copy's own filled by recursion. */
    method CopyEntry(dest: FrameId, src: FrameId, part: int, i: Index, ghost s: Space, ghost c: Space, ghost addr: Addr)
      returns (err: Error, ghost done: nat)
      requires Valid() && 1 <= part <= 4 && addr.pml4 >= 256
      requires c != s && lay.Base(s) == c && IsImage(lay, c)
      requires addr.Part(part) == i && LowerZero(addr, part)
      requires On(s, addr, part) in lay.at && dest == lay.At(On(s, addr, part))
      requires On(c, addr, part) in lay.at && src == lay.At(On(c, addr, part))
      requires !St().Words(On(s, addr, part))[i].present
      modifies this`mem, this`used, this`lay
      ensures Valid()
      ensures addr.PageNo() <= done <= if part == 1 then addr.PageNo() + 1 else addr.EndOf(part - 1)
      ensures Copies(old(St()), St(), s, c, addr.PageNo(), done)
      ensures err.Success? ==> done == if part == 1 then addr.PageNo() + 1 else addr.EndOf(part - 1)
      ensures !err.Success? ==> err.NoEnoughMemory? && Exhausted()
      ensures forall j: Index :: j != i ==> St().Words(On(s, addr, part))[j] == old(St()).Words(On(s, addr, part))[j]
      ensures forall q :: q in old(lay.at) && q.Level() >= part && q != On(s, addr, part) ==>
                St().Words(q) == old(St()).Words(q)
      decreases part, 0
    {
      hide AddressSpaces.Exhausted, Inv, Copies, On, Addr.PageNo, Addr.EndOf, Addr.Next, LowerZero;
      ghost var before := St();
      ghost var p, pc := On(s, addr, part), On(c, addr, part);
      OnLevel(s, addr, part);
      OnLevel(c, addr, part);
      EntryEnd(addr, part);
      Backed(before, p);
      Backed(before, pc);
      var entry := mem[src][i];
      if !entry.present {
        BothEmpty(before, s, c, addr, part);
        return Success, if part == 1 then addr.PageNo() + 1 else addr.EndOf(part - 1);
      }
      if part == 1 {
        ShareEntry(before, s, c, addr);
        mem := mem[dest := mem[dest][i := entry]];
        mem := mem[dest := mem[dest][i := mem[dest][i].(writable := false)]];
        assert mem[dest] == before.Words(p)[i := entry];
        assert mem == Rewrite(before, p, i, entry).mem;
        return Success, addr.PageNo() + 1;
      }
      var table;
      table, err := NewTableFor(dest, part, i, entry, s, c, addr);
      if !err.Success? {
        CopiesNothing(before, s, c, addr.PageNo());
        return err, addr.PageNo();
      }
      ghost var middle := St();
      err, done := CopyPageMaps(table, entry.addr, part - 1, 0, s, c, addr);
      CopiesJoin(before, middle, St(), s, c, addr.PageNo(), addr.PageNo(), done) by { InvRooted(before); }
    }

    /** Copies the image's tables; its pages are shared. done is the first page not copied. */
    method CopyPageMaps(dest: FrameId, src: FrameId, part: int, start: Index, ghost s: Space, ghost c: Space,
                        ghost begin: Addr)
      returns (err: Error, ghost done: nat)
      requires Valid() && 1 <= part <= 4 && begin.pml4 >= 256
      requires c != s && lay.Base(s) == c && IsImage(lay, c)
      requires begin.Part(part) == start && LowerZero(begin, part)
      requires On(s, begin, part) in lay.at && dest == lay.At(On(s, begin, part))
      requires On(c, begin, part) in lay.at && src == lay.At(On(c, begin, part))
      requires forall i: Index :: start <= i ==> !St().Words(On(s, begin, part))[i].present
      modifies this`mem, this`used, this`lay
      ensures Valid()
      ensures begin.PageNo() <= done <= begin.EndOf(part)
      ensures Copies(old(St()), St(), s, c, begin.PageNo(), done)
      ensures err.Success? ==> done == begin.EndOf(part)
      ensures !err.Success? ==> err.NoEnoughMemory? && Exhausted()
      ensures forall q :: q in old(lay.at) && q.Level() >= part && q != On(s, begin, part) ==>
                St().Words(q) == old(St()).Words(q)
      decreases part, 1
    {
      hide AddressSpaces.Exhausted, Inv, Copies, On, Addr.PageNo, Addr.EndOf, Addr.Next, LowerZero;
      ghost var p, pc := On(s, begin, part), On(c, begin, part);
      ghost var addr := begin;
      EntryEnd(begin, part);
      CopiesNothing(St(), s, c, begin.PageNo());
      done := begin.PageNo();
      var i := start;
      while true
        invariant Valid()
        invariant 0 <= i < 512 && addr.Part(part) == i && LowerZero(addr, part)
        invariant On(s, addr, part) == p && On(c, addr, part) == pc && addr.EndOf(part) == begin.EndOf(part)
        invariant addr.pml4 >= 256
        invariant p in lay.at && dest == lay.At(p) && pc in lay.at && src == lay.At(pc) && lay.base == old(lay.base)
        invariant done == addr.PageNo() && begin.PageNo() <= done <= begin.EndOf(part)
        invariant Copies(old(St()), St(), s, c, begin.PageNo(), done)
        invariant forall j: Index :: i <= j ==> !St().Words(p)[j].present
        invariant forall q :: q in old(lay.at) ==> q in lay.at
        invariant forall q :: q in old(lay.at) && q.Level() >= part && q != p ==> St().Words(q) == old(St()).Words(q)
        decreases 512 - i
      {
        ghost var before := St();
        EntryEnd(addr, part);
        ghost var part1;
        err, part1 := CopyEntry(dest, src, part, i, s, c, addr);
        CopiesJoin(old(St()), before, St(), s, c, begin.PageNo(), done, part1) by { InvRooted(old(St())); }
        CopyPersists(before, St(), s, c, done, part1);
        done := part1;
        if !err.Success? || i == 511 {
          return;
        }
        NextAddr(addr, part);
        addr := addr.Next(part);
        i := i + 1;
      }
    }

    /** memory_manager->Free for one frame. Only frames in use are freed: none is freed twice. */
    method FreeFrame(frame: FrameId)
      requires frame in used
      modifies this`used
      ensures used == old(used) - {frame}
    {
      used := used - {frame};
    }

    /** One turn of CleanPageMap's loop: first the subtree, then the frame itself unless it is the image's. */
    method CleanEntry(table: FrameId, level: int, i: Index, addr: Addr, ghost s: Space, ghost here: Addr)
      requires Valid() && 1 <= level <= 4 && here.pml4 >= 256
      requires s in lay.base && lay.Base(s) != s
      requires here.Part(level) == i && LowerZero(here, level) && LowerZero(addr, level)
      requires On(s, here, level) in lay.at && table == lay.At(On(s, here, level))
      modifies this`mem, this`used, this`lay
      ensures Valid()
      ensures Shrinks(old(St()), St(), s, here.PageNo(), EntrySpan(here, level))
      ensures On(s, here, level) in lay.at && table == lay.At(On(s, here, level))
      ensures !St().Words(On(s, here, level))[i].present
      ensures forall j: Index :: j != i ==> St().Words(On(s, here, level))[j] == old(St()).Words(On(s, here, level))[j]
      ensures forall q :: q in old(lay.at) && q.Level() >= level ==> q in lay.at && lay.At(q) == old(lay.At(q))
      ensures forall q :: q in old(lay.at) && q.Level() >= level && q != On(s, here, level) ==>
                St().Words(q) == old(St()).Words(q)
      decreases level, 0
    {
      hide Inv, Shrinks, On, Addr.PageNo, Addr.EndOf, Addr.Next;
      ghost var before := St();
      ghost var p := On(s, here, level);
      OnLevel(s, here, level);
      Backed(before, p);
      GoodAt(before, p, i);
      var entry := mem[table][i];
      if !entry.present {
        EmptyEntry(before, s, here, level);
        return;
      }
      if level > 1 {
        CleanPageMap(entry.addr, level - 1, addr, s, here);
        ShrinksKeepBase(before, St(), s, here.PageNo(), EntrySpan(here, level));
      }
      ghost var middle := St();
      ReleaseEntry(table, level, i, entry, s, here);
      if level > 1 {
        ShrinksAgain(before, middle, St(), s, here.PageNo(), EntrySpan(here, level));
      }
    }

    /** The entry is cleared, and its frame freed if the space owns it. */
    method ReleaseEntry(table: FrameId, level: int, i: Index, entry: Word, ghost s: Space, ghost here: Addr)
      requires Valid() && 1 <= level <= 4 && here.pml4 >= 256
      requires s in lay.base && lay.Base(s) != s
      requires here.Part(level) == i && LowerZero(here, level)
      requires On(s, here, level) in lay.at && table == lay.At(On(s, here, level))
      requires entry == St().Words(On(s, here, level))[i] && entry.present
      requires level > 1 ==> EmptyFrom(St(), On(s, here, level - 1), 0)
      modifies this`mem, this`used, this`lay
      ensures Valid()
      ensures Shrinks(old(St()), St(), s, here.PageNo(), EntrySpan(here, level))
      ensures On(s, here, level) in lay.at && table == lay.At(On(s, here, level))
      ensures St().Words(On(s, here, level)) == old(St()).Words(On(s, here, level))[i := ZERO]
      ensures forall q :: q in old(lay.at) && q.Level() >= level ==> q in lay.at && lay.At(q) == old(lay.At(q))
      ensures forall q :: q in old(lay.at) && q.Level() >= level && q != On(s, here, level) ==>
                St().Words(q) == old(St()).Words(q)
    {
      hide Inv, Shrinks, On, Addr.PageNo, Addr.EndOf, LowerZero, EmptyFrom;
      ghost var before := St();
      ghost var p := On(s, here, level);
      OnLevel(s, here, level);
      Backed(before, p);
      GoodAt(before, p, i);
      if entry.writable {
        PrivateTarget(before, p, i);
        FreeFrame(entry.addr);
        lay := lay.Clear(p.Child(i));
        DetachShrinks(before, s, here, level);
        DetachWords(before, p, i);
      } else {
        assert level == 1 && i == here.page;
        assert Target(before.lay, p, i, entry) != p.Child(i);
        UnshareShrinks(before, s, here);
      }
      mem := mem[table := mem[table][i := ZERO]];
    }

    /** Unmaps everything from addr to the end of this table. addr is zero below the table's level. */
    method CleanPageMap(table: FrameId, level: int, addr: Addr, ghost s: Space, ghost begin: Addr)
      requires Valid() && 1 <= level <= 4 && begin.pml4 >= 256
      requires s in lay.base && lay.Base(s) != s
      requires LowerZero(addr, level) && LowerZero(begin, level) && begin.Part(level) == addr.Part(level)
      requires On(s, begin, level) in lay.at && table == lay.At(On(s, begin, level))
      modifies this`mem, this`used, this`lay
      ensures Valid()
      ensures Shrinks(old(St()), St(), s, begin.PageNo(), begin.EndOf(level))
      ensures On(s, begin, level) in lay.at && table == lay.At(On(s, begin, level))
      ensures EmptyFrom(St(), On(s, begin, level), begin.Part(level))
      ensures forall q :: q in old(lay.at) && q.Level() >= level ==> q in lay.at && lay.At(q) == old(lay.At(q))
      ensures forall q :: q in old(lay.at) && q.Level() >= level && q != On(s, begin, level) ==>
                St().Words(q) == old(St()).Words(q)
      decreases level, 1
    {
      hide Inv, Shrinks, On, Addr.PageNo, Addr.EndOf, Addr.Next;
      ghost var p := On(s, begin, level);
      ghost var here := begin;
      EntryEnd(begin, level);
      OnLevel(s, begin, level);
      ShrinksNothing(St(), s, begin.PageNo());
      var i := addr.Part(level);
      while true
        invariant Valid() && s in lay.base && lay.Base(s) != s
        invariant 0 <= i < 512 && here.Part(level) == i && LowerZero(here, level) && begin.Part(level) <= i
        invariant On(s, here, level) == p && here.EndOf(level) == begin.EndOf(level) && here.pml4 >= 256
        invariant p in lay.at && table == lay.At(p)
        invariant begin.PageNo() <= here.PageNo() <= begin.EndOf(level)
        invariant Shrinks(old(St()), St(), s, begin.PageNo(), here.PageNo())
        invariant forall j: Index :: begin.Part(level) <= j < i ==> !St().Words(p)[j].present
        invariant forall q :: q in old(lay.at) && q.Level() >= level ==> q in lay.at && lay.At(q) == old(lay.At(q))
        invariant forall q :: q in old(lay.at) && q.Level() >= level && q != p ==> St().Words(q) == old(St()).Words(q)
        decreases 511 - i
      {
        ghost var before := St();
        EntryEnd(here, level);
        CleanEntry(table, level, i, addr, s, here);
        ShrinksKeepBase(before, St(), s, here.PageNo(), EntrySpan(here, level));
        ShrinksJoin(old(St()), before, St(), s, begin.PageNo(), here.PageNo(), EntrySpan(here, level));
        if i == 511 {
          return;
        }
        NextAddr(here, level);
        here := here.Next(level);
        i := i + 1;
      }
    }

    /** Points the level-1 entry for addr at content and makes it writable; st is memory before content was filled. */
    method SetPageContent(table: FrameId, part: int, addr: Addr, content: FrameId, ghost s: Space, ghost st: State)
      requires Inv(st) && 1 <= part <= 4 && addr.pml4 >= 256 && st.lay.Base(s) != s
      requires On(s, addr, part) in st.lay.at && On(s, addr, 1) in st.lay.at && table == st.lay.At(On(s, addr, part))
      requires content !in st.used && content in mem && mem == st.mem[content := mem[content]]
      modifies this`mem
      ensures var p := On(s, addr, 1);
              mem == old(mem)[st.lay.At(p) :=
                st.Words(p)[addr.page := st.Words(p)[addr.page].(addr := content, writable := true)]]
      decreases part
    {
      hide Inv, On;
      ghost var p := On(s, addr, part);
      Backed(st, p);
      OnLevel(s, addr, part);
      var i := addr.Part(part);
      assert mem[table] == st.Words(p);
      if part == 1 {
        mem := mem[table := mem[table][i := mem[table][i].(addr := content)]];
        mem := mem[table := mem[table][i := mem[table][i].(writable := true)]];
        assert mem[table] == st.Words(p)[i := st.Words(p)[i].(addr := content, writable := true)];
        return;
      }
      GoodAt(st, p, i);
      if On(s, addr, part - 1) !in st.lay.at {
        Unreached(st.lay, s, addr, part - 1) by { InvRooted(st); }
      }
      SetPageContent(mem[table][i].addr, part - 1, addr, content, s, st);
    }

    /** Answers a user-mode write to a read-only page by giving the space a copy of its own. */
    method CopyOnePage(cr3: FrameId, addr: Addr, ghost s: Space) returns (err: Error)
      requires Valid() && addr.pml4 >= 256 && s in lay.base && lay.Base(s) != s && cr3 == lay.At(Pos(s, Top))
      requires EntryAt(St(), s, addr).Some? && !EntryAt(St(), s, addr).value.writable
      modifies this`mem, this`used, this`lay
      ensures Valid()
      ensures err.Success? ==> Splits(old(St()), St(), s, addr)
      ensures !err.Success? ==> err.NoEnoughMemory? && Exhausted() && St() == old(St())
    {
      hide AddressSpaces.Exhausted, Inv, Splits, Walk;
      ghost var before := St();
      RootIn(before, s);
      WalkIsEntry(before, s, addr, 4);
      EntryTarget(before, s, addr);
      var frame;
      frame, err := NewPageMap();
      if !err.Success? {
        return;
      }
      WalkElsewhere(before, frame, s, addr);
      var from := Walk(mem, cr3, 4, addr).value.frame;
      mem := mem[frame := if from in mem then mem[from] else Blank()];
      assert mem == before.mem[frame := PageAt(before, s, addr).value];
      SplitPage(before, s, addr, frame);
      SetPageContent(cr3, 4, addr, frame, s, before);
      lay := lay.Fill(On(s, addr, 1).Child(addr.page), frame);
    }
  }
}
