/** The bitmap frame allocator (kernel/memory_manager.cpp). */
module FrameAllocator {
  import opened Common

  type FrameId = nat

  const BITS_PER_MAP_LINE: nat := 64
  const BYTES_PER_FRAME: nat := 4096
  /** 128 GiB of 4 KiB frames. */
  const FRAME_COUNT: nat := 0x200_0000

  /** The frames `start`, ..., `start + n - 1` all lie below `end` and are free. */
  predicate FreeRun(used: set<FrameId>, end: nat, start: nat, n: nat) {
    forall f :: start <= f < start + n ==> IsFree(used, end, f)
  }

  predicate IsFree(used: set<FrameId>, end: nat, f: FrameId) {
    f < end && f !in used
  }

  /** First fit by trying every start in turn: the meaning of `Allocate`. */
  function FirstFit(used: set<FrameId>, start: nat, end: nat, n: nat): Option<FrameId>
    decreases end - start
  {
    if FreeRun(used, end, start, n) then Some(start)
    else if start >= end then None
    else FirstFit(used, start + 1, end, n)
  }

  /** `FirstFit` answers the lowest free run, and answers nothing only when there is none. */
  lemma {:induction false} FirstFitIsLowest(used: set<FrameId>, start: nat, end: nat, n: nat)
    ensures var r := FirstFit(used, start, end, n);
            match r
            case Some(s) =>
              && start <= s
              && FreeRun(used, end, s, n)
              && forall t :: start <= t < s ==> !FreeRun(used, end, t, n)
            case None => forall t :: start <= t ==> !FreeRun(used, end, t, n)
    decreases end - start
  {
    if FreeRun(used, end, start, n) {
    } else if start >= end {
      forall t | start <= t ensures !FreeRun(used, end, t, n) {
        assert !IsFree(used, end, t);
      }
    } else {
      FirstFitIsLowest(used, start + 1, end, n);
    }
  }

  /** A frame that is in use rules out every start up to and including itself, so the search may resume behind it. */
  lemma {:induction false} SkipBehind(used: set<FrameId>, start: nat, end: nat, n: nat, bad: nat)
    requires start <= bad < start + n
    requires bad in used
    requires bad < end
    ensures FirstFit(used, start, end, n) == FirstFit(used, bad + 1, end, n)
    decreases bad - start
  {
    assert !IsFree(used, end, bad);
    if start < bad {
      SkipBehind(used, start + 1, end, n, bad);
    }
  }

  // ----- bits of a line

  function BitOf(frame: FrameId): bv6 {
    (frame % BITS_PER_MAP_LINE) as bv6
  }

  function Mask(bit: bv6): bv64 {
    (1 as bv64) << bit
  }

  /** Setting or clearing one bit of a line leaves the other 63 alone. */
  lemma MaskBits(line: bv64, b: bv6, c: bv6)
    ensures (line | Mask(b)) & Mask(c) != 0 <==> b == c || line & Mask(c) != 0
    ensures (line & !Mask(b)) & Mask(c) != 0 <==> b != c && line & Mask(c) != 0
  {
  }

  lemma SameLineSameBit(f: FrameId, g: FrameId)
    requires f / BITS_PER_MAP_LINE == g / BITS_PER_MAP_LINE
    ensures BitOf(f) == BitOf(g) <==> f == g
  {
    BitOfAsInt(f);
    BitOfAsInt(g);
    hide BitOf;
    assert f == f / BITS_PER_MAP_LINE * BITS_PER_MAP_LINE + f % BITS_PER_MAP_LINE;
  }

  lemma BitOfAsInt(f: FrameId)
    ensures BitOf(f) as int == f % BITS_PER_MAP_LINE
  {
  }

  predicate BitAt(line: bv64, b: bv6) {
    line & Mask(b) != 0
  }

  function WithBitAt(line: bv64, b: bv6, mark: bool): bv64 {
    if mark then line | Mask(b) else line & !Mask(b)
  }

  lemma BitSet(line: bv64, b: bv6, c: bv6, mark: bool)
    ensures BitAt(WithBitAt(line, b, mark), c) <==> if b == c then mark else BitAt(line, c)
  {
    MaskBits(line, b, c);
  }

  predicate BitIn(line: bv64, frame: FrameId) {
    BitAt(line, BitOf(frame))
  }

  function WithBit(line: bv64, frame: FrameId, mark: bool): bv64 {
    WithBitAt(line, BitOf(frame), mark)
  }

  lemma WithBitIn(line: bv64, f: FrameId, mark: bool, g: FrameId)
    requires f / BITS_PER_MAP_LINE == g / BITS_PER_MAP_LINE
    ensures BitIn(WithBit(line, f, mark), g) <==> if f == g then mark else BitIn(line, g)
  {
    hide BitOf, Mask, BitAt, WithBitAt;
    SameLineSameBit(f, g);
    BitSet(line, BitOf(f), BitOf(g), mark);
  }

  // ----- memory map

  datatype MemoryDescriptor = MemoryDescriptor(physicalStart: nat, numberOfPages: nat, available: bool) {
    function End(): nat { physicalStart + numberOfPages * BYTES_PER_FRAME }
    predicate Covers(f: FrameId) { physicalStart <= f * BYTES_PER_FRAME < End() }
  }

  /** What UEFI hands over: page-aligned regions in ascending order that do not overlap and fit the bitmap. */
  ghost predicate WellFormedMap(ds: seq<MemoryDescriptor>) {
    && (forall i :: 0 <= i < |ds| ==> ds[i].physicalStart % BYTES_PER_FRAME == 0)
    && (forall i :: 0 <= i < |ds| ==> ds[i].End() <= FRAME_COUNT * BYTES_PER_FRAME)
    && (forall i, j :: 0 <= i < j < |ds| ==> ds[i].End() <= ds[j].physicalStart)
  }

  ghost predicate Available(ds: seq<MemoryDescriptor>, f: FrameId) {
    exists i :: 0 <= i < |ds| && ds[i].available && ds[i].Covers(f)
  }

  /** A free run of the wanted size is what first fit answers. */
  lemma RunFits(used: set<FrameId>, startFrame: nat, rangeEnd: nat, numFrames: nat)
    requires FreeRun(used, rangeEnd, startFrame, numFrames)
    ensures FirstFit(used, startFrame, rangeEnd, numFrames) == Some(startFrame)
    ensures numFrames > 0 ==>
              startFrame + numFrames <= rangeEnd && forall f :: startFrame <= f < startFrame + numFrames ==> f !in used
  {
    assert numFrames > 0 ==> IsFree(used, rangeEnd, startFrame + numFrames - 1);
    forall f | startFrame <= f < startFrame + numFrames ensures f !in used {
      assert IsFree(used, rangeEnd, f);
    }
  }

  /** Where a run does not fit below the end of the range, no later one does. */
  lemma NoneLeft(used: set<FrameId>, startFrame: nat, rangeEnd: nat, numFrames: nat, i: nat)
    requires i < numFrames && startFrame + i >= rangeEnd
    ensures FirstFit(used, startFrame, rangeEnd, numFrames) == None
  {
    FirstFitIsLowest(used, startFrame, rangeEnd, numFrames);
    forall t | startFrame <= t ensures !FreeRun(used, rangeEnd, t, numFrames) {
      assert !IsFree(used, rangeEnd, startFrame + i);
      assert !IsFree(used, rangeEnd, t + numFrames - 1);
    }
  }

  class BitmapMemoryManager {
    const allocMap: array<bv64>
    var rangeBegin: FrameId
    var rangeEnd: FrameId

    ghost predicate Valid()
      reads this
    {
      allocMap.Length * BITS_PER_MAP_LINE == FRAME_COUNT && rangeEnd <= FRAME_COUNT
    }

    constructor ()
      ensures Valid() && fresh(allocMap) && Used() == {}
      ensures rangeBegin == 0 && rangeEnd == FRAME_COUNT
    {
      allocMap := new bv64[FRAME_COUNT / BITS_PER_MAP_LINE](_ => 0);
      rangeBegin, rangeEnd := 0, FRAME_COUNT;
    }

    predicate GetBit(frame: FrameId)
      requires Valid() && frame < FRAME_COUNT
      reads this, allocMap
    {
      BitIn(allocMap[frame / BITS_PER_MAP_LINE], frame)
    }

    /** The frames marked allocated. */
    ghost function Used(): (s: set<FrameId>)
      requires Valid()
      reads this, allocMap
      ensures forall f: nat :: f in s <==> f < FRAME_COUNT && GetBit(f)
    {
      set f: nat | f < FRAME_COUNT && GetBit(f)
    }

    method SetBit(frame: FrameId, mark: bool)
      requires Valid() && frame < FRAME_COUNT
      modifies allocMap
      ensures Used() == if mark then old(Used()) + {frame} else old(Used()) - {frame}
    {
      var lineIndex := frame / BITS_PER_MAP_LINE;
      ghost var line := allocMap[lineIndex];
      allocMap[lineIndex] := WithBit(allocMap[lineIndex], frame, mark);
      forall g: nat | g < FRAME_COUNT
        ensures GetBit(g) <==> if frame == g then mark else old(GetBit(g))
      {
        if g / BITS_PER_MAP_LINE == lineIndex {
          WithBitIn(line, frame, mark, g);
        }
      }
    }

    method MarkAllocated(startFrame: FrameId, numFrames: nat)
      requires Valid() && startFrame + numFrames <= FRAME_COUNT
      modifies allocMap
      ensures forall f :: f in Used() <==> f in old(Used()) || startFrame <= f < startFrame + numFrames
    {
      for i := 0 to numFrames
        invariant forall f :: f in Used() <==> f in old(Used()) || startFrame <= f < startFrame + i
      {
        SetBit(startFrame + i, true);
      }
    }

    method Free(startFrame: FrameId, numFrames: nat) returns (err: Error)
      requires Valid() && startFrame + numFrames <= FRAME_COUNT
      modifies allocMap
      ensures err.Success?
      ensures forall f :: f in Used() <==> f in old(Used()) && !(startFrame <= f < startFrame + numFrames)
    {
      for i := 0 to numFrames
        invariant forall f :: f in Used() <==> f in old(Used()) && !(startFrame <= f < startFrame + i)
      {
        SetBit(startFrame + i, false);
      }
      err := Success;
    }

    /** The search that skips behind each used frame answers what first fit answers. */
    method Allocate(numFrames: nat) returns (frame: FrameId, err: Error)
      requires Valid()
      modifies allocMap
      ensures match FirstFit(old(Used()), rangeBegin, rangeEnd, numFrames)
              case Some(s) =>
                && err.Success? && frame == s
                && forall f :: f in Used() <==> f in old(Used()) || s <= f < s + numFrames
              case None => err.NoEnoughMemory? && Used() == old(Used())
    {
      hide FirstFit, FreeRun;
      ghost var used := Used();
      var startFrame := rangeBegin;
      while true
        invariant Used() == used
        invariant FirstFit(used, rangeBegin, rangeEnd, numFrames) == FirstFit(used, startFrame, rangeEnd, numFrames)
        decreases rangeEnd - startFrame
      {
        var i := FreeFrames(startFrame, numFrames);
        if i == numFrames {
          RunFits(used, startFrame, rangeEnd, numFrames);
          if numFrames > 0 {
            MarkAllocated(startFrame, numFrames);
          }
          return startFrame, Success;
        }
        if startFrame + i >= rangeEnd {
          NoneLeft(used, startFrame, rangeEnd, numFrames, i);
          return 0, NoEnoughMemory;
        }
        SkipBehind(used, startFrame, rangeEnd, numFrames, startFrame + i);
        startFrame := startFrame + i + 1;
      }
    }

    /** Allocate's inner loop: how many frames are free from startFrame on. */
    method FreeFrames(startFrame: FrameId, numFrames: nat) returns (i: nat)
      requires Valid()
      ensures i <= numFrames && FreeRun(Used(), rangeEnd, startFrame, i)
      ensures i < numFrames && startFrame + i < rangeEnd ==> startFrame + i in Used()
    {
      i := 0;
      while i < numFrames
        invariant i <= numFrames && FreeRun(Used(), rangeEnd, startFrame, i)
      {
        if startFrame + i >= rangeEnd {
          return;
        }
        var used := GetBit(startFrame + i);
        if used {
          return;
        }
        i := i + 1;
      }
    }

    method SetMemoryRange(begin: FrameId, end: FrameId)
      requires Valid() && end <= FRAME_COUNT
      modifies this`rangeBegin, this`rangeEnd
      ensures Valid() && rangeBegin == begin && rangeEnd == end
    {
      rangeBegin, rangeEnd := begin, end;
    }

    /** Reads the UEFI memory map: below the range's end, exactly the frames of available regions stay free. */
    method LoadMemoryMap(ds: seq<MemoryDescriptor>)
      requires Valid() && Used() == {} && WellFormedMap(ds)
      modifies this`rangeBegin, this`rangeEnd, allocMap
      ensures Valid() && rangeBegin == 1
      ensures forall f :: 0 <= f < rangeEnd ==> (f !in Used() <==> Available(ds, f))
      ensures forall f: nat :: Available(ds, f) ==> f < rangeEnd
    {
      hide MapLoaded, Available, MemoryDescriptor.Covers;
      var availableEnd: nat := 0;
      NoMapLoaded(ds);
      for k := 0 to |ds|
        invariant Valid()
        invariant MapLoaded(ds, k, availableEnd, Used())
      {
        var desc := ds[k];
        ghost var used0, end0 := Used(), availableEnd;
        MapBounds(ds, k, availableEnd, used0);
        if availableEnd < desc.physicalStart {
          MarkAllocated(availableEnd / BYTES_PER_FRAME, (desc.physicalStart - availableEnd) / BYTES_PER_FRAME);
        }
        if desc.available {
          availableEnd := desc.End();
        } else {
          MarkAllocated(desc.physicalStart / BYTES_PER_FRAME, desc.numberOfPages * BYTES_PER_FRAME / BYTES_PER_FRAME);
        }
        MapStep(ds, k, end0, used0, Used());
      }
      MapDone(ds, availableEnd, Used());
      SetMemoryRange(1, availableEnd / BYTES_PER_FRAME);
    }
  }

  /** After k descriptors: below availableEnd exactly the available frames are free. */
  ghost predicate MapLoaded(ds: seq<MemoryDescriptor>, k: nat, availableEnd: nat, used: set<FrameId>)
    requires k <= |ds|
  {
    && availableEnd % BYTES_PER_FRAME == 0 && availableEnd <= FRAME_COUNT * BYTES_PER_FRAME
    && (k > 0 ==> availableEnd <= ds[k - 1].End()) && (k == 0 ==> availableEnd == 0)
    && (forall f :: 0 <= f < availableEnd / BYTES_PER_FRAME ==> (f !in used <==> Available(ds[..k], f)))
    && (forall f: nat :: Available(ds[..k], f) ==> f < availableEnd / BYTES_PER_FRAME)
    && (forall f :: f in used && f >= availableEnd / BYTES_PER_FRAME ==> k > 0 && f * BYTES_PER_FRAME < ds[k - 1].End())
  }

  lemma NoMapLoaded(ds: seq<MemoryDescriptor>)
    ensures MapLoaded(ds, 0, 0, {})
  {
  }

  lemma MapBounds(ds: seq<MemoryDescriptor>, k: nat, availableEnd: nat, used: set<FrameId>)
    requires WellFormedMap(ds) && k < |ds| && MapLoaded(ds, k, availableEnd, used)
    ensures availableEnd <= ds[k].physicalStart && availableEnd % BYTES_PER_FRAME == 0
    ensures ds[k].End() <= FRAME_COUNT * BYTES_PER_FRAME && ds[k].physicalStart % BYTES_PER_FRAME == 0
  {
  }

  lemma MapDone(ds: seq<MemoryDescriptor>, availableEnd: nat, used: set<FrameId>)
    requires MapLoaded(ds, |ds|, availableEnd, used)
    ensures availableEnd / BYTES_PER_FRAME <= FRAME_COUNT
    ensures forall f :: 0 <= f < availableEnd / BYTES_PER_FRAME ==> (f !in used <==> Available(ds, f))
    ensures forall f: nat :: Available(ds, f) ==> f < availableEnd / BYTES_PER_FRAME
  {
    assert ds[..|ds|] == ds;
  }

  lemma MapStep(ds: seq<MemoryDescriptor>, k: nat, end0: nat, used0: set<FrameId>, used1: set<FrameId>)
    requires WellFormedMap(ds) && k < |ds| && MapLoaded(ds, k, end0, used0)
    requires var lo := ds[k].physicalStart / BYTES_PER_FRAME;
             var hi := lo + ds[k].numberOfPages;
             forall f :: f in used1 <==>
               f in used0 || end0 / BYTES_PER_FRAME <= f < lo || (!ds[k].available && lo <= f < hi)
    ensures MapLoaded(ds, k + 1, if ds[k].available then ds[k].End() else end0, used1)
  {
    var desc := ds[k];
    var seen := ds[..k + 1];
    var before := end0 / BYTES_PER_FRAME;
    var lo, hi := desc.physicalStart / BYTES_PER_FRAME, desc.physicalStart / BYTES_PER_FRAME + desc.numberOfPages;
    MapBounds(ds, k, end0, used0);
    assert before <= lo && desc.End() / BYTES_PER_FRAME == hi;
    forall f: nat
      ensures Available(seen, f) <==> Available(ds[..k], f) || (desc.available && lo <= f < hi)
    {
      AvailableOneMore(ds, k, f);
      assert desc.Covers(f) <==> lo <= f < hi;
    }
    assert k > 0 ==> ds[k - 1].End() <= desc.physicalStart;
    forall f: nat | Available(ds[..k], f) ensures f < before {
    }
    hide Available;
  }

  lemma AvailableOneMore(ds: seq<MemoryDescriptor>, k: nat, f: FrameId)
    requires k < |ds|
    ensures Available(ds[..k + 1], f) <==> Available(ds[..k], f) || (ds[k].available && ds[k].Covers(f))
  {
  }
}
