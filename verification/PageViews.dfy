/** What an address space shows, and how one space's changes look from the others. */
module PageViews {
  import opened Common
  import opened FrameAllocator
  import opened PageTables

  /** The level-1 entry for an address, read off the layout. */
  function EntryAt(st: State, s: Space, a: Addr): Option<Word> {
    var p := On(s, a, 1);
    if p in st.lay.at && st.Words(p)[a.page].present then Some(st.Words(p)[a.page]) else None
  }

  function Content(st: State, f: FrameId): Frame {
    if f in st.mem then st.mem[f] else Blank()
  }

  /** The page that a space shows at an address. */
  function PageAt(st: State, s: Space, a: Addr): Option<Frame> {
    match EntryAt(st, s, a)
    case None => None
    case Some(e) => Some(Content(st, e.addr))
  }

  // ----- the hardware's view

  datatype Access = Access(frame: FrameId, writable: bool, user: bool)

  /** The page walk of the MMU: rights are the conjunction of the rights on every level. */
  function Walk(mem: map<FrameId, Frame>, table: FrameId, level: nat, a: Addr): Option<Access>
    decreases level
  {
    if level == 0 then Some(Access(table, true, true))
    else if table !in mem then None
    else
      var e := mem[table][a.Part(level)];
      if !e.present then None
      else
        match Walk(mem, e.addr, level - 1, a)
        case None => None
        case Some(x) => Some(Access(x.frame, e.writable && x.writable, e.user && x.user))
  }

  lemma OnLevel(s: Space, a: Addr, level: nat)
    requires level <= 4
    ensures On(s, a, level).Level() == level && On(s, a, level).space == s
    ensures level > 0 ==> On(s, a, level - 1) == On(s, a, level).Child(a.Part(level))
  {
    var p3 := Down(Top, a.pml4);
    var p2 := Down(p3, a.pdp);
    var p1 := Down(p2, a.dir);
    assert p3.Level() == 3;
    assert p2.Level() == 2;
    assert p1.Level() == 1;
    assert Down(p1, a.page).Level() == 0;
  }

  lemma WalkStep(st: State, s: Space, a: Addr, level: nat)
    requires Inv(st) && s in st.lay.base && a.pml4 >= 256
    requires 1 <= level <= 4 && On(s, a, level) in st.lay.at
    ensures st.lay.At(On(s, a, level)) in st.mem
    ensures On(s, a, level).Level() == level
    ensures GoodEntry(st.lay, On(s, a, level), a.Part(level), st.Words(On(s, a, level))[a.Part(level)])
  {
    OnLevel(s, a, level);
    Backed(st, On(s, a, level));
    GoodAt(st, On(s, a, level), a.Part(level));
  }

  /** The walk from the root finds the level-1 entry; all tables above grant every right. */
  lemma {:induction false} WalkIsEntry(st: State, s: Space, a: Addr, level: nat)
    requires Inv(st) && s in st.lay.base && a.pml4 >= 256
    requires 1 <= level <= 4 && On(s, a, level) in st.lay.at
    ensures Walk(st.mem, st.lay.At(On(s, a, level)), level, a)
         == match EntryAt(st, s, a)
            case None => None
            case Some(e) => Some(Access(e.addr, e.writable, true))
    decreases level
  {
    WalkStep(st, s, a, level);
    if level > 1 {
      assert On(s, a, level - 1) == On(s, a, level).Child(a.Part(level));
      if On(s, a, level - 1) in st.lay.at {
        WalkIsEntry(st, s, a, level - 1);
      } else {
        Unreached(st.lay, s, a, level - 1);
      }
    } else {
      assert Walk(st.mem, st.Words(On(s, a, 1))[a.page].addr, 0, a).Some?;
    }
  }

  /** A walk that ends depends on the tables that it meets only. */
  lemma {:induction false} WalkGrows(part: map<FrameId, Frame>, mem: map<FrameId, Frame>, table: FrameId, level: nat,
                                     a: Addr)
    requires forall f :: f in part ==> f in mem && mem[f] == part[f]
    requires Walk(part, table, level, a).Some?
    ensures Walk(mem, table, level, a) == Walk(part, table, level, a)
    decreases level
  {
    if level > 0 {
      WalkGrows(part, mem, part[table][a.Part(level)].addr, level - 1, a);
    }
  }

  /** Every space maps the kernel's addresses as the kernel's own tables do, which never change. */
  lemma KernelSeen(st: State, s: Space, a: Addr)
    requires Inv(st) && s in st.lay.base && a.pml4 < 256
    requires Walk(st.lay.kernel.frames, st.lay.kernel.table, 4, a).Some?
    ensures Walk(st.mem, st.lay.At(Pos(s, Top)), 4, a) == Walk(st.lay.kernel.frames, st.lay.kernel.table, 4, a)
  {
    WalkGrows(st.lay.kernel.frames, st.mem, st.lay.kernel.table, 4, a);
    assert SameLowerHalf(st.Words(Pos(s, Top)), st.lay.kernel.Root());
    Backed(st, Pos(s, Top));
    var root, e := st.lay.At(Pos(s, Top)), st.Words(Pos(s, Top))[a.pml4];
    assert st.mem[root][a.Part(4)] == e == st.lay.kernel.Root()[a.pml4];
  }

  /** Without the table on a level there is none on the levels below. */
  lemma {:induction false} Unreached(lay: Layout, s: Space, a: Addr, level: nat)
    requires Rooted(lay) && 1 <= level <= 4 && On(s, a, level) !in lay.at
    ensures On(s, a, 1) !in lay.at
  {
    if level > 1 {
      assert On(s, a, level - 1) == On(s, a, level).Child(a.Part(level));
      Unreached(lay, s, a, level - 1);
    }
  }

  // ----- relations between states

  /** Only space s changes: the positions of the others keep their frames, and these their words. */
  ghost predicate Touches(s0: State, s1: State, s: Space) {
    && s1.lay.reserved == s0.lay.reserved && s1.lay.kernel == s0.lay.kernel
    && (forall r :: r != s ==> s1.lay.Base(r) == s0.lay.Base(r) && (r in s1.lay.base <==> r in s0.lay.base))
    && (forall q: Pos :: q.space != s ==> (q in s1.lay.at <==> q in s0.lay.at))
    && (forall q: Pos :: q.space != s && q in s0.lay.at ==> s1.lay.At(q) == s0.lay.At(q) && s1.Words(q) == s0.Words(q))
  }

  lemma TouchesTrans(s0: State, s1: State, s2: State, s: Space)
    requires Touches(s0, s1, s) && Touches(s1, s2, s)
    ensures Touches(s0, s2, s)
  {
  }

  /** A read-only page shows the image's frame, any other mapped page a frame of the space's own. */
  lemma EntryTarget(st: State, s: Space, a: Addr)
    requires Inv(st) && a.pml4 >= 256 && EntryAt(st, s, a).Some?
    ensures var e := EntryAt(st, s, a).value;
            var q := On(if e.writable then s else st.lay.Base(s), a, 0);
            && e.user && q in st.lay.at && e.addr == st.lay.At(q) && Content(st, e.addr) == st.Words(q)
            && q.Level() == 0 && e.addr in st.used
            && (e.writable ==> st.lay.Base(s) != s)
  {
    var p := On(s, a, 1);
    OnLevel(s, a, 1);
    OnLevel(s, a, 0);
    GoodAt(st, p, a.page);
    var q := Target(st.lay, p, a.page, st.Words(p)[a.page]);
    Backed(st, q);
  }

  /** Isolation, one step: what s does is invisible in every space that is not based on s. */
  lemma OthersSee(s0: State, s1: State, s: Space, r: Space, a: Addr)
    requires Inv(s0) && Touches(s0, s1, s)
    requires r != s && s0.lay.Base(r) != s && a.pml4 >= 256
    ensures EntryAt(s1, r, a) == EntryAt(s0, r, a)
    ensures PageAt(s1, r, a) == PageAt(s0, r, a)
  {
    hide Inv;
    assert On(r, a, 1).space == r;
    if EntryAt(s0, r, a).Some? {
      EntryTarget(s0, r, a);
    }
  }

  /** Space s has only gained positions, and no existing page's content has changed. */
  ghost predicate Grown(s0: State, s1: State, s: Space) {
    && Touches(s0, s1, s)
    && s1.lay.base == s0.lay.base
    && s0.used <= s1.used
    && (forall q :: q in s0.lay.at ==> q in s1.lay.at && s1.lay.At(q) == s0.lay.At(q))
    && (forall q :: q in s0.lay.at && q.Level() == 0 ==> s1.Words(q) == s0.Words(q))
  }

  lemma GrownTrans(s0: State, s1: State, s2: State, s: Space)
    requires Grown(s0, s1, s) && Grown(s1, s2, s)
    ensures Grown(s0, s2, s)
  {
    TouchesTrans(s0, s1, s2, s);
  }

  /** Page a is mapped in s1; if it was mapped before it kept its frame, otherwise it got a new, zeroed one. */
  ghost predicate Mapped(s0: State, s1: State, s: Space, a: Addr, writable: bool) {
    match EntryAt(s1, s, a)
    case None => false
    case Some(e) =>
      && e.user && e.writable == writable
      && match EntryAt(s0, s, a)
         case Some(e0) => e.addr == e0.addr
         case None => e.addr !in s0.used && Content(s1, e.addr) == Blank()
  }

  /** The pages lo, ..., hi - 1 of space s become mapped and no other entry changes. */
  ghost predicate MapsRange(s0: State, s1: State, s: Space, lo: nat, hi: nat, writable: bool) {
    && Grown(s0, s1, s)
    && forall a: Addr ::
         if lo <= a.PageNo() < hi then Mapped(s0, s1, s, a, writable) else EntryAt(s1, s, a) == EntryAt(s0, s, a)
  }

  lemma MapsNothing(st: State, s: Space, lo: nat, writable: bool)
    ensures MapsRange(st, st, s, lo, lo, writable)
  {
  }

  lemma MapsJoin(s0: State, s1: State, s2: State, s: Space, lo: nat, mid: nat, hi: nat, writable: bool)
    requires Inv(s1) && lo <= mid <= hi && APP_HALF <= lo
    requires MapsRange(s0, s1, s, lo, mid, writable) && MapsRange(s1, s2, s, mid, hi, writable)
    ensures MapsRange(s0, s2, s, lo, hi, writable)
  {
    GrownTrans(s0, s1, s2, s);
    forall a: Addr
      ensures if lo <= a.PageNo() < hi then Mapped(s0, s2, s, a, writable) else EntryAt(s2, s, a) == EntryAt(s0, s, a)
    {
      if lo <= a.PageNo() < mid {
        assert Mapped(s0, s1, s, a, writable);
        assert EntryAt(s2, s, a) == EntryAt(s1, s, a);
        EntryTarget(s1, s, a);
        var q := On(if EntryAt(s1, s, a).value.writable then s else s1.lay.Base(s), a, 0);
        assert s2.Words(q) == s1.Words(q);
      } else if mid <= a.PageNo() < hi {
        assert Mapped(s1, s2, s, a, writable);
      }
    }
  }

  // ----- address arithmetic

  lemma SamePage(a: Addr, b: Addr)
    ensures a.PageNo() == b.PageNo() <==> a == b
  {
    Digit((a.pml4 * 512 + a.pdp) * 512 + a.dir, (b.pml4 * 512 + b.pdp) * 512 + b.dir, a.page, b.page);
    Digit(a.pml4 * 512 + a.pdp, b.pml4 * 512 + b.pdp, a.dir, b.dir);
    Digit(a.pml4, b.pml4, a.pdp, b.pdp);
  }

  lemma Digit(x: int, y: int, i: int, j: int)
    requires 0 <= i < 512 && 0 <= j < 512
    ensures x * 512 + i == y * 512 + j <==> x == y && i == j
  {
  }

  /** The addresses below a level's table are an interval of page numbers. */
  lemma Within(a: Addr, b: Addr, level: int)
    requires 1 <= level <= 4
    requires On(0, a, level) == On(0, b, level)
    ensures b.PageNo() < a.EndOf(level)
  {
  }
}
