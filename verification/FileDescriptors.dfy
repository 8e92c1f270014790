/** fat::FileDescriptor of kernel/fat.cpp: reading and writing a file through cursors. */
module FileDescriptors {
  import opened Common
  import opened FatChains
  import opened FileBytes
  import opened FileWriting

  class VolumeImage {
    const bytesPerCluster: nat
    const fat: array<nat>
    const data: array<seq<Byte>>

    constructor (bytesPerCluster: nat, fat: array<nat>, data: array<seq<Byte>>)
      ensures this.bytesPerCluster == bytesPerCluster && this.fat == fat && this.data == data
    {
      this.bytesPerCluster, this.fat, this.data := bytesPerCluster, fat, data;
    }

    ghost predicate Valid()
      reads fat, data
    {
      Volume(fat[..], data[..], bytesPerCluster)
    }
  }

  class DirectoryEntry {
    var firstClusterLow: nat
    var firstClusterHigh: nat
    var fileSize: nat

    function FirstCluster(): nat
      reads this`firstClusterLow, this`firstClusterHigh
    {
      firstClusterLow + firstClusterHigh * 0x1_0000
    }

    /** The two 16-bit halves together give back any 32-bit cluster number, and a small one needs the low half only. */
    method SetFirstCluster(c: Cluster)
      requires c < 0x1_0000_0000
      modifies this`firstClusterLow, this`firstClusterHigh
      ensures FirstCluster() == c && firstClusterLow < 0x1_0000 && firstClusterHigh < 0x1_0000
      ensures c < 0x1_0000 <==> firstClusterHigh == 0
      ensures c < 0x1_0000 ==> firstClusterLow == c
    {
      firstClusterLow := c % 0x1_0000;
      firstClusterHigh := c / 0x1_0000 % 0x1_0000;
    }
  }

  /** The chain of a file with that first cluster; a file that has none is empty. */
  ghost predicate FileChain(fat: seq<nat>, first: nat, q: seq<Cluster>) {
    if first == 0 then q == [] else IsChain(fat, q) && q[0] == first
  }

  /** A reading cursor: byte `pos` of the file is at `off` in `cluster`. */
  predicate CursorAt(q: seq<Cluster>, bpc: nat, pos: nat, cluster: nat, off: nat)
    requires bpc > 0
  {
    off == pos % bpc && cluster == if pos / bpc < |q| then q[pos / bpc] else END_OF_CLUSTERCHAIN
  }

  /** The bytes that a read of len bytes at pos gives. */
  function Segment(content: seq<Byte>, pos: nat, len: nat): seq<Byte>
    requires pos <= |content|
  {
    content[pos..pos + Min(len, |content| - pos)]
  }

  /** One piece of a read: it is inside the current cluster. */
  lemma CursorMoves(data: seq<seq<Byte>>, q: seq<Cluster>, bpc: nat, pos: nat, cluster: nat, off: nat, n: nat)
    requires Clusters(data, bpc) && Within(data, q) && CursorAt(q, bpc, pos, cluster, off)
    requires pos < |q| * bpc && off + n <= bpc
    ensures pos / bpc < |q| && cluster == q[pos / bpc] && off < bpc
    ensures pos + n <= |q| * bpc && Flat(data, q, bpc)[pos..pos + n] == data[cluster][off..off + n]
    ensures off + n < bpc ==> CursorAt(q, bpc, pos + n, cluster, off + n)
    ensures off + n == bpc ==>
              CursorAt(q, bpc, pos + n, if pos / bpc + 1 < |q| then q[pos / bpc + 1] else END_OF_CLUSTERCHAIN, 0)
  {
    Position(pos, |q|, bpc);
    var k := pos / bpc;
    FlatChunk(data, q, bpc, k, off, n);
    if off + n < bpc {
      PositionOf(k, off + n, bpc);
    } else {
      PositionOf(k + 1, 0, bpc);
      Product(k, k + 1, bpc);
    }
  }

  /** The state of Read's loop: buf has been read from `start` on, n bytes in all are wanted. */
  ghost predicate Reading(data: seq<seq<Byte>>, q: seq<Cluster>, bpc: nat, start: nat, n: nat, buf: seq<Byte>,
                          cluster: nat, off: nat)
  {
    && Clusters(data, bpc) && Within(data, q) && |buf| <= n && start + n <= |q| * bpc
    && buf == Flat(data, q, bpc)[start..start + |buf|]
    && CursorAt(q, bpc, start + |buf|, cluster, off)
  }

  lemma ReadStep(fat: seq<nat>, data: seq<seq<Byte>>, q: seq<Cluster>, bpc: nat, start: nat, n: nat, buf: seq<Byte>,
                 cluster: nat, off: nat, step: nat)
    requires Volume(fat, data, bpc) && IsChain(fat, q) && Reading(data, q, bpc, start, n, buf, cluster, off)
    requires off <= bpc && |buf| < n && step == Min(n - |buf|, bpc - off)
    ensures cluster < |data| == |fat| && off + step <= |data[cluster]| == bpc && step > 0
    ensures var buf' := buf + data[cluster][off..off + step];
            if off + step == bpc then Reading(data, q, bpc, start, n, buf', Next(fat, cluster), 0)
            else Reading(data, q, bpc, start, n, buf', cluster, off + step)
  {
    hide Flat, IsChain, FatSize, CursorAt, Next;
    var pos := start + |buf|;
    CursorMoves(data, q, bpc, pos, cluster, off, 0);
    CursorMoves(data, q, bpc, pos, cluster, off, step);
    ChainStep(fat, q, bpc, pos);
    SliceJoin(Flat(data, q, bpc), start, pos, pos + step);
  }

  lemma ChainStep(fat: seq<nat>, q: seq<Cluster>, bpc: nat, pos: nat)
    requires FatSize(fat) && IsChain(fat, q) && bpc > 0 && pos / bpc < |q|
    ensures var k := pos / bpc;
            q[k] < |fat| && Next(fat, q[k]) == if k + 1 < |q| then q[k + 1] else END_OF_CLUSTERCHAIN
  {
    NextInChain(fat, q, pos / bpc);
  }

  lemma SliceJoin(s: seq<Byte>, a: nat, b: nat, c: nat)
    requires a <= b <= c <= |s|
    ensures s[a..b] + s[b..c] == s[a..c]
  {
  }

  /** The cursor that Read begins with: at the first cluster when nothing has been read yet. */
  lemma Opened(fat: seq<nat>, q: seq<Cluster>, bpc: nat, first: nat, pos: nat, cluster: nat, off: nat)
    requires bpc > 0 && FileChain(fat, first, q)
    requires CursorAt(q, bpc, pos, cluster, off) || cluster == pos == off == 0
    ensures var cluster' := if cluster == 0 then first else cluster;
            && (CursorAt(q, bpc, pos, cluster', off) || cluster' == pos == off == 0)
            && (q != [] ==> CursorAt(q, bpc, pos, cluster', off))
  {
  }

  lemma ReadStarts(fat: seq<nat>, data: seq<seq<Byte>>, q: seq<Cluster>, bpc: nat, start: nat, n: nat, cluster: nat,
                   off: nat)
    requires Volume(fat, data, bpc) && IsChain(fat, q)
    requires start + n <= |q| * bpc && CursorAt(q, bpc, start, cluster, off)
    ensures Reading(data, q, bpc, start, n, [], cluster, off)
  {
    ChainBounds(fat, q);
  }

  class FileDescriptor {
    const volume: VolumeImage
    const entry: DirectoryEntry
    var rdOff: nat
    var rdCluster: nat
    var rdClusterOff: nat
    var wrOff: nat
    var wrCluster: nat
    var wrClusterOff: nat
    ghost var wrIndex: nat

    constructor (volume: VolumeImage, entry: DirectoryEntry)
      ensures this.volume == volume && this.entry == entry
      ensures rdOff == rdCluster == rdClusterOff == 0 && wrOff == wrCluster == wrClusterOff == 0
    {
      this.volume, this.entry := volume, entry;
      rdOff, rdCluster, rdClusterOff := 0, 0, 0;
      wrOff, wrCluster, wrClusterOff := 0, 0, 0;
    }

    /** q is the file's chain, and it is long enough for the file's size. */
    ghost predicate File(q: seq<Cluster>)
      reads volume.fat, volume.data, entry
    {
      && volume.Valid() && FileChain(volume.fat[..], entry.FirstCluster(), q)
      && entry.fileSize <= |q| * volume.bytesPerCluster
    }

    /** What the file holds. */
    ghost function Content(q: seq<Cluster>): (r: seq<Byte>)
      requires File(q)
      reads volume.fat, volume.data, entry
      ensures |r| == entry.fileSize
    {
      Flat(volume.data[..], q, volume.bytesPerCluster)[..entry.fileSize]
    }

    ghost predicate ReadCursor(q: seq<Cluster>)
      requires File(q)
      reads this, entry, volume.fat, volume.data
    {
      && rdOff <= entry.fileSize
      && (CursorAt(q, volume.bytesPerCluster, rdOff, rdCluster, rdClusterOff)
          || rdCluster == rdOff == rdClusterOff == 0)
    }

    /** Read: the next min(len, rest) bytes of the file. */
    method Read(len: nat, ghost q: seq<Cluster>) returns (buf: seq<Byte>)
      requires File(q) && ReadCursor(q)
      modifies this`rdOff, this`rdCluster, this`rdClusterOff
      ensures File(q) && ReadCursor(q)
      ensures buf == Segment(Content(q), old(rdOff), len)
      ensures rdOff == old(rdOff) + |buf|
    {
      hide Reading, IsChain, CursorAt, FatSize, Clusters, Flat, FileChain, DirectoryEntry.FirstCluster, Segment;
      ghost var bpc, data, fat := volume.bytesPerCluster, volume.data[..], volume.fat[..];
      Positive(data, bpc);
      ChainInside(fat, data, q, entry.FirstCluster());
      SegmentIs(Flat(data, q, bpc), entry.fileSize, rdOff, len);
      Opened(fat, q, bpc, entry.FirstCluster(), rdOff, rdCluster, rdClusterOff);
      if rdCluster == 0 {
        rdCluster := entry.FirstCluster();
      }
      var n := Min(len, entry.fileSize - rdOff);
      buf := [];
      if n > 0 {
        NotEmpty(fat, q, entry.FirstCluster());
        ReadStarts(fat, data, q, bpc, rdOff, n, rdCluster, rdClusterOff);
        buf := ReadPieces(n, q);
        ReadBounds(data, q, bpc, rdOff, n, buf, rdCluster, rdClusterOff);
      }
      rdOff := rdOff + |buf|;
    }

    /** The loop of Read, when there is anything to read. */
    method ReadPieces(n: nat, ghost q: seq<Cluster>) returns (buf: seq<Byte>)
      requires volume.Valid() && IsChain(volume.fat[..], q)
      requires Reading(volume.data[..], q, volume.bytesPerCluster, rdOff, n, [], rdCluster, rdClusterOff)
      modifies this`rdCluster, this`rdClusterOff
      ensures Reading(volume.data[..], q, volume.bytesPerCluster, rdOff, n, buf, rdCluster, rdClusterOff) && |buf| == n
    {
      hide Reading, IsChain, FatSize, Clusters;
      ghost var bpc, data, fat := volume.bytesPerCluster, volume.data[..], volume.fat[..];
      buf := [];
      ReadBounds(data, q, bpc, rdOff, n, buf, rdCluster, rdClusterOff);
      while |buf| < n
        invariant |buf| <= n && rdClusterOff < bpc && Reading(data, q, bpc, rdOff, n, buf, rdCluster, rdClusterOff)
      {
        var step := Min(n - |buf|, volume.bytesPerCluster - rdClusterOff);
        ReadStep(fat, data, q, bpc, rdOff, n, buf, rdCluster, rdClusterOff, step);
        buf := buf + volume.data[rdCluster][rdClusterOff..rdClusterOff + step];
        rdClusterOff := rdClusterOff + step;
        if rdClusterOff == volume.bytesPerCluster {
          rdCluster := NextCluster(volume.fat, rdCluster);
          rdClusterOff := 0;
        }
        ReadBounds(data, q, bpc, rdOff, n, buf, rdCluster, rdClusterOff);
      }
    }

    /** Any reads: the pieces join to the bytes up to the sum of the lengths or the end of the file. */
    method ReadAll(lens: seq<nat>, ghost q: seq<Cluster>) returns (pieces: seq<seq<Byte>>)
      requires File(q) && ReadCursor(q)
      modifies this`rdOff, this`rdCluster, this`rdClusterOff
      ensures File(q) && ReadCursor(q) && |pieces| == |lens|
      ensures Concat(pieces) == Segment(Content(q), old(rdOff), Sum(lens))
      ensures rdOff == old(rdOff) + |Concat(pieces)|
    {
      hide FileDescriptor.File, FileDescriptor.ReadCursor, FileDescriptor.Content, Segment, Concat, Sum;
      ghost var content, start := Content(q), rdOff;
      ContentLength(q);
      ReadsStart(content, start);
      pieces := [];
      for i := 0 to |lens|
        invariant File(q) && ReadCursor(q) && Content(q) == content
        invariant start <= |content| && |pieces| == i
        invariant Concat(pieces) == Segment(content, start, Sum(lens[..i]))
        invariant rdOff == start + |Concat(pieces)|
      {
        ContentLength(q);
        var piece := Read(lens[i], q);
        ReadsStep(content, start, lens, i, pieces, piece);
        pieces := pieces + [piece];
      }
      assert lens[..|lens|] == lens;
    }

    lemma ContentLength(q: seq<Cluster>)
      requires File(q) && ReadCursor(q)
      ensures rdOff <= |Content(q)|
    {
    }

    /** Load: what is at `offset`, through a descriptor of its own; the reading cursor stays. */
    method Load(len: nat, offset: nat, ghost q: seq<Cluster>) returns (buf: seq<Byte>)
      requires File(q) && offset <= entry.fileSize
      ensures buf == Segment(Content(q), offset, len)
    {
      hide IsChain, FatSize, Clusters, Flat, DirectoryEntry.FirstCluster, Walked, FileChain, CursorAt;
      ghost var bpc, fat, first := volume.bytesPerCluster, volume.fat[..], entry.FirstCluster();
      Positive(volume.data[..], bpc);
      var fd := new FileDescriptor(volume, entry);
      fd.rdOff := offset;
      var cluster: nat, rest: nat := entry.FirstCluster(), offset;
      ghost var k: nat := 0;
      WalkStarts(fat, q, bpc, first, offset);
      while rest >= volume.bytesPerCluster
        invariant fd.rdOff == offset && Walked(q, bpc, offset, cluster, rest, k)
        decreases rest
      {
        WalkStep(fat, q, bpc, first, offset, cluster, rest, k);
        rest := rest - volume.bytesPerCluster;
        cluster := NextCluster(volume.fat, cluster);
        k := k + 1;
      }
      WalkEnds(q, bpc, offset, cluster, rest, k);
      fd.rdCluster := cluster;
      fd.rdClusterOff := rest;
      buf := fd.Read(len, q);
    }

    /** The loop of Write is at stage st. */
    ghost predicate At(job: Job, st: Stage)
      reads this, volume.fat, volume.data
    {
      && job.bpc == volume.bytesPerCluster && volume.fat[..] == st.fat && volume.data[..] == st.data
      && wrIndex == st.index < |job.chain + st.more| && wrCluster == (job.chain + st.more)[st.index]
      && wrClusterOff == st.off
    }

    /** At the end of a cluster: the next one of the chain, or the last one of its extension. */
    method NextForWriting(total: nat, len: nat, ghost job: Job, ghost st: Stage, ghost j: nat)
      returns (ghost st': Stage)
      requires At(job, st) && Going(job, st, j) && AtHead(job, st, j)
      requires total == st.total < job.len == len && st.off == job.bpc
      modifies volume.fat, this`wrCluster, this`wrClusterOff, this`wrIndex
      ensures At(job, st') && Going(job, st', j + 1) && Chosen(job, st', j + 1) && st'.total == total
    {
      hide Begins, Going, AtHead, Chosen, Counting, Shape, IsChain, LowestFree, FreeCount, Linked, Free, NumCluster,
        Advances;
      StageBounds(job, st, j);
      ghost var q := job.chain + st.more;
      NextInChain(st.fat, q, wrIndex);
      var next := NextCluster(volume.fat, wrCluster);
      if next == END_OF_CLUSTERCHAIN {
        ExtendPossible(job, st, j);
        var n := NumCluster(len - total, volume.bytesPerCluster);
        wrCluster := ExtendCluster(volume.fat, wrCluster, n, q, wrIndex);
        ghost var again := LowestFree(st.fat, 2, n);
        ExtensionIs(job, st, j, volume.fat[..], n);
        Extends(job, st, j, volume.fat[..], again);
        st' := Extended(job, st, volume.fat[..], again);
        assert q + again == job.chain + st'.more;
      } else {
        Moves(job, st, j);
        wrCluster := next;
        st' := Moved(st);
      }
      wrClusterOff := 0;
      wrIndex := st'.index;
    }

    method WriteLoop(buf: seq<Byte>, len: nat, ghost job: Job) returns (total: nat, ghost st: Stage)
      requires Begins(job) && At(job, Start(job)) && job.buf == buf && job.len == len
      modifies volume.fat, volume.data, this`wrCluster, this`wrClusterOff, this`wrIndex
      ensures Finished(job, st) && At(job, st) && total == st.total
    {
      hide Begins, Going, AtHead, Chosen, Counting, Shape, IsChain, LowestFree, FreeCount, Linked, Free, NumCluster,
        Advances, Copied, Finished;
      Starts(job);
      total := 0;
      st := Start(job);
      ghost var j: nat := 0;
      while total < len
        invariant total == st.total && At(job, st) && Going(job, st, j) && AtHead(job, st, j)
        decreases len - total
      {
        StageBounds(job, st, j);
        if wrClusterOff == volume.bytesPerCluster {
          st := NextForWriting(total, len, job, st, j);
          j := j + 1;
          StageBounds(job, st, j);
        } else {
          HeadChosen(job, st, j);
        }
        Copies(job, st, j);
        CopiedIs(job, st, j);
        var n := Min(len, volume.bytesPerCluster - wrClusterOff);
        var sec := volume.data[wrCluster];
        volume.data[wrCluster] := sec[..wrClusterOff] + buf[total..total + n] + sec[wrClusterOff + n..];
        total := total + n;
        wrClusterOff := wrClusterOff + n;
        st := Copied(job, st);
      }
      Finishes(job, st, j);
    }

    /** The writing cursor is at byte wrOff, in the wrIndex-th cluster; possibly at the end of that cluster. */
    ghost predicate WriteCursor(q: seq<Cluster>)
      reads this
    {
      || wrCluster == wrOff == wrClusterOff == 0
      || (wrIndex < |q| && wrCluster == q[wrIndex] && wrClusterOff <= volume.bytesPerCluster
          && wrOff == wrIndex * volume.bytesPerCluster + wrClusterOff)
    }

    ghost function JobOf(buf: seq<Byte>, len: nat, q: seq<Cluster>): Job
      reads this, volume.fat, volume.data
    {
      Job(volume.bytesPerCluster, volume.fat[..], volume.data[..], q,
          if wrCluster == 0 then 0 else wrIndex, wrClusterOff, buf, len)
    }

    /** Enough readable memory at buf, and enough free clusters. */
    ghost predicate CanWrite(buf: seq<Byte>, len: nat, q: seq<Cluster>)
      requires File(q)
      reads this, volume.fat, volume.data, entry
    {
      if q == [] then CanBegin(volume.fat[..], volume.bytesPerCluster, buf, len) else Begins(JobOf(buf, len, q))
    }

    /** Write adds at most one cluster to a chain that exists already. */
    ghost predicate GoesStraight(len: nat, q: seq<Cluster>)
      requires File(q) && WriteCursor(q)
      reads this, volume.fat, volume.data, entry
    {
      q == [] || Straight(JobOf([], len, q))
    }

    /** How many clusters a Write that goes straight adds to the chain. */
    ghost function Adds(len: nat, q: seq<Cluster>): nat
      requires File(q) && WriteCursor(q)
      reads this, volume.fat, volume.data, entry
    {
      var job := JobOf([], len, q);
      if q == [] then Max(NumCluster(len, job.bpc), 1) else Max(Rounds(job) - Ahead(job), 0)
    }

    /**
     * Write. However long it is, it stores and counts Written(...) bytes; `more` are the clusters it adds. If it
     * goes straight, these are the bytes behind the old prefix of the file; if not, the cluster behind the old chain
     * is part of what is reported as written and still has its old bytes.
     */
    method Write(buf: seq<Byte>, len: nat, ghost q: seq<Cluster>) returns (total: nat, ghost more: seq<Cluster>)
      requires File(q) && WriteCursor(q) && CanWrite(buf, len, q)
      modifies volume.fat, volume.data, entry, this`wrCluster, this`wrClusterOff, this`wrIndex, this`wrOff
      ensures total == Written(volume.bytesPerCluster - old(wrClusterOff), len, volume.bytesPerCluster) <= |buf|
      ensures wrOff == old(wrOff) + total && entry.fileSize == wrOff % 0x1_0000_0000
      ensures Grown(old(volume.fat[..]), old(volume.data[..]), volume.fat[..], volume.data[..], volume.bytesPerCluster,
                    entry.FirstCluster(), q, more)
      ensures old(GoesStraight(len, q)) ==>
                && File(q + more) && WriteCursor(q + more) && wrCluster != 0 && |more| == old(Adds(len, q))
                && Appends(old(volume.data[..]), volume.data[..], volume.bytesPerCluster, q, more, old(wrOff),
                     buf[..total])
      ensures !old(GoesStraight(len, q)) ==>
                Skips(old(volume.data[..]), volume.data[..], volume.bytesPerCluster, q, more, old(wrOff), total)
    {
      hide Begins, IsChain, LowestFree, FreeCount, Linked, Free, Advances, Finished, Written, Prefix, Straight,
        Clusters, FatSize, FileDescriptor.WriteCursor, FileDescriptor.CanWrite, FileDescriptor.GoesStraight,
        FileDescriptor.Adds, Start, FileChain, DirectoryEntry.FirstCluster, Rounds, Ahead, Flat, Within, Max,
        FileDescriptor.JobOf, Grown, Appends, Skips, FileDescriptor.File;
      ghost var fat0, data0, start := volume.fat[..], volume.data[..], wrOff;
      ghost var job := OpenForWriting(buf, len, q);
      ghost var st;
      total, st := WriteLoop(buf, len, job);
      wrOff := wrOff + total;
      entry.fileSize := wrOff % 0x1_0000_0000;
      more := if q == [] then job.chain + st.more else st.more;
      DoneLinks(fat0, q, more, job, st);
      if Straight(job) {
        DoneStraight(fat0, q, more, job, st, start);
        DoneCursor(fat0, data0, q, more, job, st, start);
      } else {
        DoneSkipping(job, st, start);
      }
    }

    /** The first lines of Write: the file's first cluster, or a new chain for it. */
    method OpenForWriting(ghost buf: seq<Byte>, len: nat, ghost q: seq<Cluster>) returns (ghost job: Job)
      requires File(q) && WriteCursor(q) && CanWrite(buf, len, q)
      modifies volume.fat, entry, this`wrCluster, this`wrIndex
      ensures Begins(job) && At(job, Start(job)) && job.buf == buf && job.len == len && job.data == volume.data[..]
      ensures FatSize(old(volume.fat[..]))
      ensures wrOff == job.index * job.bpc + job.off && job.off == wrClusterOff && (q == [] ==> wrOff == 0)
      ensures job.chain != [] && entry.FirstCluster() == job.chain[0] >= 2
      ensures if q == [] then Straight(job) && Linked(old(volume.fat[..]), job.fat, [], job.chain)
                              && forall i :: 0 <= i < |job.chain| ==> Free(old(volume.fat[..]), job.chain[i])
              else job == old(JobOf(buf, len, q)) && job.chain == q && job.fat == old(volume.fat[..])
      ensures Straight(job) <==> old(GoesStraight(len, q))
      ensures old(Adds(len, q)) == Max(Rounds(job) - Ahead(job), 0) + if q == [] then |job.chain| else 0
    {
      hide Begins, LowestFree, FreeCount, Linked, Free, Advances, Finished, Written, Prefix, Clusters, CanBegin;
      ghost var fat0, data0, bpc := volume.fat[..], volume.data[..], volume.bytesPerCluster;
      ghost var chain := q;
      Positive(data0, bpc);
      if wrCluster == 0 {
        if entry.FirstCluster() != 0 {
          wrCluster := entry.FirstCluster();
        } else {
          BeginBounds(fat0, bpc, buf, len);
          wrCluster := AllocateClusterChain(volume.fat, NumCluster(len, volume.bytesPerCluster));
          chain := LowestFree(fat0, 2, Max(NumCluster(len, bpc), 1));
          NewFile(fat0, volume.fat[..], data0, bpc, buf, len);
          entry.SetFirstCluster(wrCluster);
        }
        wrIndex := 0;
      }
      job := Job(bpc, volume.fat[..], data0, chain, wrIndex, wrClusterOff, buf, len);
      assert job.chain + [] == job.chain;
    }

    lemma DoneCursor(fat: seq<nat>, data: seq<seq<Byte>>, q: seq<Cluster>, more: seq<Cluster>, job: Job, st: Stage,
                     start: nat)
      requires At(job, st) && q + more == job.chain + st.more && IsChain(st.fat, job.chain + st.more)
      requires Grown(fat, data, st.fat, st.data, job.bpc, entry.FirstCluster(), q, more)
      requires wrOff == start + st.total == st.index * job.bpc + st.off <= |q + more| * job.bpc && st.off <= job.bpc
      requires entry.fileSize == wrOff % 0x1_0000_0000
      ensures File(q + more) && WriteCursor(q + more) && wrCluster >= 2
    {
      hide Clusters;
    }
  }

  /** The chain q has become q + more: the rest of the volume is as before. */
  ghost predicate Grown(fat: seq<nat>, data: seq<seq<Byte>>, fat': seq<nat>, data': seq<seq<Byte>>, bpc: nat,
                        first: nat,
                        q: seq<Cluster>, more: seq<Cluster>)
  {
    && Volume(fat', data', bpc) && q + more != [] && FileChain(fat', first, q + more)
    && Linked(fat, fat', q, more) && (forall i :: 0 <= i < |more| ==> Free(fat, more[i]))
    && |data'| == |data| && forall c :: 0 <= c < |data| && c !in q + more ==> data'[c] == data[c]
  }

  /** The bytes stand behind the first pos bytes of the file, which are as before. */
  ghost predicate Appends(data: seq<seq<Byte>>, data': seq<seq<Byte>>, bpc: nat, q: seq<Cluster>, more: seq<Cluster>,
                          pos: nat, bytes: seq<Byte>)
  {
    Prefix(data', q + more, bpc, pos + |bytes|) == Prefix(data, q, bpc, pos) + bytes
  }

  /** The first new cluster lies between the old and the new position, and has not been written. */
  ghost predicate Skips(data: seq<seq<Byte>>, data': seq<seq<Byte>>, bpc: nat, q: seq<Cluster>, more: seq<Cluster>,
                        pos: nat, total: nat)
  {
    && |more| >= 2 && more[0] < |data| == |data'| && data'[more[0]] == data[more[0]]
    && pos <= |q| * bpc <= (|q| + 1) * bpc <= pos + total
  }

  /** Load agrees with reading `offset` bytes first. */
  method LoadLikeRead(fd: FileDescriptor, offset: nat, len: nat, ghost q: seq<Cluster>)
    returns (read: seq<Byte>, loaded: seq<Byte>)
    requires fd.File(q) && offset <= fd.entry.fileSize
    ensures read == loaded == Segment(fd.Content(q), offset, len)
  {
    var other := new FileDescriptor(fd.volume, fd.entry);
    var _ := other.Read(offset, q);
    read := other.Read(len, q);
    loaded := fd.Load(len, offset, q);
  }

  // ----- writing a new file and reading it back

  /** No write of the sequence crosses the end of a cluster. */
  predicate NoStraddle(bufs: seq<seq<Byte>>, bpc: nat)
    requires bpc > 0
  {
    forall i :: 0 <= i < |bufs| ==> |Concat(bufs[..i])| % bpc + |bufs[i]| <= bpc
  }

  /** The number of clusters of a file of n bytes that has been written; the first write takes one in any case. */
  function ClustersFor(n: nat, bpc: nat): nat
    requires bpc > 0
  {
    Max(NumCluster(n, bpc), 1)
  }

  /** k clusters are no more than a file of n bytes needs. */
  predicate Tight(k: nat, n: nat, bpc: nat) {
    if k <= 1 then k == 1 || n == 0 else (k - 1) * bpc < n
  }

  lemma TightFits(k: nat, n: nat, total: nat, bpc: nat)
    requires bpc > 0 && Tight(k, n, bpc) && n <= total
    ensures k <= ClustersFor(total, bpc)
  {
    hide NumCluster;
    var c := NumCluster(total, bpc);
    NumClusterIs(total, bpc, c);
    if c + 1 <= k - 1 {
      Times(c + 1, k - 1, bpc);
    }
  }

  /** Writes that stay inside clusters: the new file holds exactly their concatenation. */
  method WriteAll(fd: FileDescriptor, bufs: seq<seq<Byte>>) returns (ghost chain: seq<Cluster>)
    requires fd.File([]) && fd.entry.fileSize == 0 && fd.wrCluster == fd.wrOff == fd.wrClusterOff == 0
    requires NoStraddle(bufs, fd.volume.bytesPerCluster) && |Concat(bufs)| < 0x1_0000_0000
    requires bufs != [] ==> FreeCount(fd.volume.fat[..], 2) >= ClustersFor(|Concat(bufs)|, fd.volume.bytesPerCluster)
    modifies fd.volume.fat, fd.volume.data, fd.entry, fd`wrCluster, fd`wrClusterOff, fd`wrIndex, fd`wrOff
    ensures fd.File(chain) && fd.entry.fileSize == |Concat(bufs)| && fd.Content(chain) == Concat(bufs)
    ensures fd.wrOff == |Concat(bufs)|
  {
    hide Concat, NoStraddle, FileDescriptor.File, FileDescriptor.WriteCursor, FileDescriptor.CanWrite,
      FileDescriptor.GoesStraight, FileDescriptor.Adds, Prefix, FreeCount, Written, Linked, Free, FileChain,
      FileDescriptor.Content, IsChain, ClustersFor, Tight;
    chain := [];
    Positive(fd.volume.data[..], fd.volume.bytesPerCluster) by {
      FileBounds(fd, []);
    }
    NothingWritten(fd, bufs);
    for i := 0 to |bufs|
      invariant fd.File(chain) && fd.WriteCursor(chain)
      invariant fd.wrOff == fd.entry.fileSize == |Concat(bufs[..i])| && |Concat(bufs[..i])| <= |Concat(bufs)|
      invariant Prefix(fd.volume.data[..], chain, fd.volume.bytesPerCluster, fd.wrOff) == Concat(bufs[..i])
      invariant Tight(|chain|, fd.wrOff, fd.volume.bytesPerCluster)
      invariant bufs != [] ==>
                  FreeCount(fd.volume.fat[..], 2) + |chain| >= ClustersFor(|Concat(bufs)|, fd.volume.bytesPerCluster)
      invariant (fd.wrCluster == 0) == (chain == [])
    {
      ConcatPrefix(bufs, i);
      CanGoOn(fd, chain, bufs, i);
      ghost var fat := fd.volume.fat[..];
      var total, more := fd.Write(bufs[i], |bufs[i]|, chain);
      FreeAfterWrite(fat, fd.volume.fat[..], chain, more);
      chain := chain + more;
    }
    assert bufs[..|bufs|] == bufs;
    AllWritten(fd, chain);
  }

  lemma FileBounds(fd: FileDescriptor, chain: seq<Cluster>)
    requires fd.File(chain)
    ensures Clusters(fd.volume.data[..], fd.volume.bytesPerCluster)
  {
  }

  lemma NothingWritten(fd: FileDescriptor, bufs: seq<seq<Byte>>)
    requires fd.wrCluster == fd.wrOff == fd.wrClusterOff == 0
    ensures Concat(bufs[..0]) == [] && fd.WriteCursor([]) && Tight(0, 0, fd.volume.bytesPerCluster)
    ensures Prefix(fd.volume.data[..], [], fd.volume.bytesPerCluster, 0) == []
  {
  }

  lemma AllWritten(fd: FileDescriptor, chain: seq<Cluster>)
    requires fd.File(chain)
    ensures fd.Content(chain) == Prefix(fd.volume.data[..], chain, fd.volume.bytesPerCluster, fd.entry.fileSize)
  {
    if chain != [] {
      ChainBounds(fd.volume.fat[..], chain);
    }
  }

  lemma {:induction false} ConcatPrefix(bufs: seq<seq<Byte>>, i: nat)
    requires i < |bufs|
    ensures Concat(bufs[..i + 1]) == Concat(bufs[..i]) + bufs[i]
    ensures |Concat(bufs[..i + 1])| <= |Concat(bufs)|
    decreases |bufs| - i
  {
    assert bufs[..i + 1] == bufs[..i] + [bufs[i]];
    ConcatAppend(bufs[..i], bufs[i]);
    if i + 1 < |bufs| {
      ConcatPrefix(bufs, i + 1);
    } else {
      assert bufs[..i + 1] == bufs;
    }
  }

  /** A write that stays inside a cluster stores what it should, and adds a cluster only if the bytes need it. */
  lemma CanGoOn(fd: FileDescriptor, chain: seq<Cluster>, bufs: seq<seq<Byte>>, i: nat)
    requires fd.File(chain) && fd.WriteCursor(chain) && i < |bufs| && fd.volume.bytesPerCluster > 0
    requires NoStraddle(bufs, fd.volume.bytesPerCluster) && fd.wrOff == |Concat(bufs[..i])|
    requires fd.wrOff + |bufs[i]| <= |Concat(bufs)| && Tight(|chain|, fd.wrOff, fd.volume.bytesPerCluster)
    requires FreeCount(fd.volume.fat[..], 2) + |chain| >= ClustersFor(|Concat(bufs)|, fd.volume.bytesPerCluster)
    requires (fd.wrCluster == 0) == (chain == [])
    ensures fd.CanWrite(bufs[i], |bufs[i]|, chain) && fd.GoesStraight(|bufs[i]|, chain)
    ensures Tight(|chain| + fd.Adds(|bufs[i]|, chain), fd.wrOff + |bufs[i]|, fd.volume.bytesPerCluster)
    ensures fd.wrClusterOff <= fd.volume.bytesPerCluster && (chain == [] || IsChain(fd.volume.fat[..], chain))
    ensures Written(fd.volume.bytesPerCluster - fd.wrClusterOff, |bufs[i]|, fd.volume.bytesPerCluster) == |bufs[i]|
  {
    hide Concat, FreeCount, Flat, Linked, ClustersFor, Tight;
    var len, bpc, k := |bufs[i]|, fd.volume.bytesPerCluster, |chain|;
    InsideCluster(fd.wrIndex, fd.wrClusterOff, bpc, len, fd.wrOff);
    StaysTight(k, fd.wrIndex, fd.wrClusterOff, bpc, len, fd.wrOff);
    TightFits(k + fd.Adds(len, chain), fd.wrOff + len, |Concat(bufs)|, bpc);
    assert Triangle(1) == 1;
  }

  /** Where the write begins in a chain of k clusters, and how many it adds. */
  lemma StaysTight(k: nat, index: nat, off: nat, bpc: nat, len: nat, pos: nat)
    requires bpc > 0 && off <= bpc && pos % bpc + len <= bpc && Tight(k, pos, bpc)
    requires if k == 0 then pos == off == 0 else index < k && pos == index * bpc + off
    ensures k == 0 ==> Tight(1, pos + len, bpc)
    ensures k > 0 ==> Tight(k + Max(Advances(bpc - off, len, bpc) - (k - 1 - index), 0), pos + len, bpc)
  {
    hide NumCluster;
    if k > 0 {
      InsideCluster(index, off, bpc, len, pos);
      if Advances(bpc - off, len, bpc) == 1 && index == k - 1 {
        if off < bpc {
          PositionOf(index, off, bpc);
        }
        assert pos == k * bpc && len > 0;
      }
    }
  }

  lemma InsideCluster(index: nat, off: nat, bpc: nat, len: nat, pos: nat)
    requires bpc > 0 && off <= bpc && (pos == index * bpc + off || pos == off == 0) && pos % bpc + len <= bpc
    ensures Advances(bpc - off, len, bpc) <= 1 && Written(bpc - off, len, bpc) == len && NumCluster(len, bpc) <= 1
  {
    hide NumCluster, Written;
    WrittenExact(bpc - off, len, bpc);
    if pos == index * bpc + off {
      if off < bpc {
        PositionOf(index, off, bpc);
      } else {
        PositionOf(index + 1, 0, bpc);
        Product(index, index + 1, bpc);
      }
    }
    NumClusterIs(len, bpc, 1);
    NumClusterIs(len, bpc, 0);
  }

  lemma FreeAfterWrite(fat: seq<nat>, fat': seq<nat>, q: seq<Cluster>, more: seq<Cluster>)
    requires FatSize(fat') && Linked(fat, fat', q, more) && (q == [] || IsChain(fat, q))
    requires forall i :: 0 <= i < |more| ==> Free(fat, more[i])
    ensures FreeCount(fat', 2) == FreeCount(fat, 2) - |more|
  {
    hide FreeCount;
    Acyclic(fat', q + more);
    forall i, j | 0 <= i < j < |more| ensures more[i] != more[j] {
      assert (q + more)[|q| + i] == more[i] && (q + more)[|q| + j] == more[j];
    }
    FreeLeft(fat, fat', q, more);
  }

  /** Round trip: what any reads of the new file return is the beginning of what has been written. */
  method WriteThenRead(volume: VolumeImage, entry: DirectoryEntry, bufs: seq<seq<Byte>>, lens: seq<nat>)
    returns (pieces: seq<seq<Byte>>)
    requires volume.Valid() && entry.FirstCluster() == entry.fileSize == 0
    requires volume.bytesPerCluster > 0 && NoStraddle(bufs, volume.bytesPerCluster)
    requires |Concat(bufs)| < 0x1_0000_0000
    requires bufs != [] ==> FreeCount(volume.fat[..], 2) >= ClustersFor(|Concat(bufs)|, volume.bytesPerCluster)
    modifies volume.fat, volume.data, entry
    ensures Concat(pieces) == Concat(bufs)[..Min(Sum(lens), |Concat(bufs)|)] && entry.fileSize == |Concat(bufs)|
  {
    hide Concat, NoStraddle, FreeCount, Sum, ClustersFor;
    var writer := new FileDescriptor(volume, entry);
    ghost var chain := WriteAll(writer, bufs);
    var reader := new FileDescriptor(volume, entry);
    pieces := reader.ReadAll(lens, chain);
  }

  /** Other files keep their chains and their bytes, whatever is written. */
  lemma WriteKeepsOthers(fat: seq<nat>, fat': seq<nat>, data: seq<seq<Byte>>, data': seq<seq<Byte>>, bpc: nat,
                         q: seq<Cluster>, more: seq<Cluster>, other: seq<Cluster>)
    requires Volume(fat, data, bpc) && Volume(fat', data', bpc) && Linked(fat, fat', q, more)
    requires forall i :: 0 <= i < |more| ==> Free(fat, more[i])
    requires forall c :: 0 <= c < |data| && c !in q + more ==> data'[c] == data[c]
    requires IsChain(fat, other) && Disjoint(q, other)
    ensures IsChain(fat', other) && Disjoint(q + more, other) && Within(data, other)
    ensures Flat(data', other, bpc) == Flat(data, other, bpc)
  {
    OtherChain(fat, fat', q, other, more);
    FlatSame(data, data', other, bpc);
  }

  function Sum(lens: seq<nat>): nat {
    if lens == [] then 0 else Sum(lens[..|lens| - 1]) + lens[|lens| - 1]
  }

  lemma SumAppend(lens: seq<nat>, len: nat)
    ensures Sum(lens + [len]) == Sum(lens) + len
  {
    assert (lens + [len])[..|lens|] == lens;
  }

  /** One read after another is one read of both lengths. */
  lemma SegmentsJoin(content: seq<Byte>, pos: nat, a: nat, b: nat)
    requires pos <= |content|
    ensures var first := Segment(content, pos, a);
            first + Segment(content, pos + |first|, b) == Segment(content, pos, a + b)
  {
  }

  // ----- Write before and after its loop

  ghost predicate CanBegin(fat: seq<nat>, bpc: nat, buf: seq<Byte>, len: nat)
    requires bpc > 0
  {
    && len <= |buf| && Written(bpc, len, bpc) <= |buf|
    && FreeCount(fat, 2) >= Max(NumCluster(len, bpc), 1)
  }

  lemma BeginBounds(fat: seq<nat>, bpc: nat, buf: seq<Byte>, len: nat)
    requires bpc > 0 && CanBegin(fat, bpc, buf, len)
    ensures FreeCount(fat, 2) >= Max(NumCluster(len, bpc), 1)
  {
  }

  /** A new file's chain is long enough for its first Write. */
  lemma NewFile(fat: seq<nat>, fat': seq<nat>, data: seq<seq<Byte>>, bpc: nat, buf: seq<Byte>, len: nat)
    requires Volume(fat, data, bpc) && CanBegin(fat, bpc, buf, len)
    requires var q := LowestFree(fat, 2, Max(NumCluster(len, bpc), 1));
             |q| == Max(NumCluster(len, bpc), 1) && Linked(fat, fat', [], q)
    ensures var q := LowestFree(fat, 2, Max(NumCluster(len, bpc), 1));
            var job := Job(bpc, fat', data, q, 0, 0, buf, len);
            && Begins(job) && Rounds(job) <= Ahead(job) && q[0] >= 2 && IsChain(fat', q) && q[0] < 0x1_0000_0000
            && (forall i :: 0 <= i < |q| ==> Free(fat, q[i]))
  {
    hide FreeCount, Triangle, LowestFree, Written, NumCluster;
    var q := LowestFree(fat, 2, Max(NumCluster(len, bpc), 1));
    assert [] + q == q;
    LowestFreeAre(fat, 2, |q|);
    FirstRounds(len, bpc);
  }

  lemma FirstRounds(len: nat, bpc: nat)
    requires bpc > 0
    ensures Advances(bpc, len, bpc) <= Max(NumCluster(len, bpc), 1) - 1
  {
    if len > bpc {
      var n := NumCluster(len, bpc);
      NumClusterIs(len, bpc, n);
      assert (n - 1) * bpc == n * bpc - bpc;
      NumClusterIs(len - bpc, bpc, n - 1);
    }
  }

  /** How the loop's chain and the file's old chain belong together. */
  ghost predicate Opens(fat: seq<nat>, q: seq<Cluster>, more: seq<Cluster>, job: Job, st: Stage) {
    if q == [] then
      && Linked(fat, job.fat, [], job.chain) && (forall i :: 0 <= i < |job.chain| ==> Free(fat, job.chain[i]))
      && more == job.chain + st.more
    else q == job.chain && fat == job.fat && more == st.more
  }

  /** The new table, whether the chain existed before or not. */
  lemma DoneLinks(fat: seq<nat>, q: seq<Cluster>, more: seq<Cluster>, job: Job, st: Stage)
    requires Finished(job, st) && FatSize(fat) && Opens(fat, q, more, job, st)
    requires job.chain != [] ==> job.chain[0] >= 2
    ensures q + more == job.chain + st.more && job.chain != []
    ensures Grown(fat, job.data, st.fat, st.data, job.bpc, job.chain[0], q, more)
    ensures job.bpc > 0 && job.off <= job.bpc && job.index < |job.chain|
    ensures st.total == Written(Room(job), job.len, job.bpc) <= |job.buf|
  {
    hide FreeCount, Triangle, Straight, Placed, Skipping, Written, Advances, NumCluster;
    assert q + more == job.chain + st.more;
    if q == [] {
      assert [] + job.chain == job.chain;
      LinkedTwice(fat, job.fat, st.fat, [], job.chain, st.more);
    }
  }

  lemma DoneStraight(fat: seq<nat>, q: seq<Cluster>, more: seq<Cluster>, job: Job, st: Stage, start: nat)
    requires Finished(job, st) && Straight(job) && start == job.index * job.bpc + job.off
    requires Opens(fat, q, more, job, st) && (q == [] ==> start == 0) && st.total <= |job.buf|
    ensures Appends(job.data, st.data, job.bpc, q, more, start, job.buf[..st.total])
    ensures st.off <= job.bpc && IsChain(st.fat, job.chain + st.more) && Volume(st.fat, st.data, job.bpc)
    ensures start + st.total == st.index * job.bpc + st.off <= |job.chain + st.more| * job.bpc
    ensures |st.more| == Max(Rounds(job) - Ahead(job), 0)
  {
    hide FreeCount, Triangle, Prefix, Clusters, Written, Advances, NumCluster;
    Product(st.index, |job.chain + st.more|, job.bpc);
    assert q + more == job.chain + st.more;
    EmptyPrefix(job.data, q, job.bpc);
    EmptyPrefix(job.data, job.chain, job.bpc);
  }

  lemma DoneSkipping(job: Job, st: Stage, start: nat)
    requires Finished(job, st) && !Straight(job) && start == job.index * job.bpc + job.off
    ensures Skips(job.data, st.data, job.bpc, job.chain, st.more, start, st.total)
  {
    hide FreeCount, Triangle, Prefix, Written, NumCluster, Linked, Placed;
    assert Begins(job);
    var room, r, ahead, bpc := Room(job), Rounds(job), Ahead(job), job.bpc;
    WrittenExact(room, job.len, bpc);
    NumClusterIs(job.len - room, bpc, r);
    Times(ahead + 2, r, bpc);
    assert (ahead + 2) * bpc == ahead * bpc + 2 * bpc;
    assert (job.index + 1 + ahead) * bpc == job.index * bpc + bpc + ahead * bpc;
    assert (|job.chain| + 1) * bpc == |job.chain| * bpc + bpc;
  }

  lemma EmptyPrefix(data: seq<seq<Byte>>, q: seq<Cluster>, bpc: nat)
    ensures Prefix(data, q, bpc, 0) == []
  {
  }

  // ----- the loop of Write

  lemma ExtensionIs(job: Job, st: Stage, j: nat, fat: seq<nat>, n: nat)
    requires Begins(job) && n == Rounds(job) - j && j < Rounds(job)
    requires Linked(st.fat, fat, job.chain + st.more, LowestFree(st.fat, 2, n)) && |LowestFree(st.fat, 2, n)| == n
    ensures Extension(job, st, j, fat, LowestFree(st.fat, 2, n))
  {
    LowestFreeAre(st.fat, 2, n);
  }

  lemma HeadChosen(job: Job, st: Stage, j: nat)
    requires Begins(job) && AtHead(job, st, j) && st.off < job.bpc && st.total < job.len
    ensures Chosen(job, st, j)
  {
  }

  lemma CopiedIs(job: Job, st: Stage, j: nat)
    requires Chosen(job, st, j) && st.off <= job.bpc && st.total + FileWriting.Piece(job, st) <= |job.buf|
    requires st.index < |job.chain + st.more|
    requires var c := (job.chain + st.more)[st.index]; c < |st.data| && |st.data[c]| == job.bpc
    ensures var st', n, c := Copied(job, st), FileWriting.Piece(job, st), (job.chain + st.more)[st.index];
            && n == Min(job.len, job.bpc - st.off) > 0
            && st' == st.(data := st'.data, off := st.off + n, total := st.total + n)
            && st'.data ==
                 st.data[c := st.data[c][..st.off] + job.buf[st.total..st.total + n] + st.data[c][st.off + n..]]
  {
  }

  lemma ReadsStart(content: seq<Byte>, start: nat)
    requires start <= |content|
    ensures Concat([]) == [] == Segment(content, start, Sum([]))
  {
  }

  lemma ReadsStep(content: seq<Byte>, start: nat, lens: seq<nat>, i: nat, pieces: seq<seq<Byte>>, piece: seq<Byte>)
    requires start <= |content| && i < |lens| && Concat(pieces) == Segment(content, start, Sum(lens[..i]))
    requires start + |Concat(pieces)| <= |content| && piece == Segment(content, start + |Concat(pieces)|, lens[i])
    ensures Concat(pieces + [piece]) == Segment(content, start, Sum(lens[..i + 1]))
    ensures |Concat(pieces + [piece])| == |Concat(pieces)| + |piece|
  {
    ConcatAppend(pieces, piece);
    SumAppend(lens[..i], lens[i]);
    assert lens[..i + 1] == lens[..i] + [lens[i]];
    SegmentsJoin(content, start, Sum(lens[..i]), lens[i]);
  }

  /** The state of Load's loop: k clusters have been passed. */
  predicate Walked(q: seq<Cluster>, bpc: nat, offset: nat, cluster: nat, rest: nat, k: nat) {
    && offset == k * bpc + rest <= |q| * bpc
    && if q == [] then cluster == 0 else k <= |q| && cluster == if k < |q| then q[k] else END_OF_CLUSTERCHAIN
  }

  lemma WalkStarts(fat: seq<nat>, q: seq<Cluster>, bpc: nat, first: nat, offset: nat)
    requires FileChain(fat, first, q) && offset <= |q| * bpc
    ensures Walked(q, bpc, offset, first, offset, 0)
  {
  }

  /** As long as the offset is past a whole cluster, the chain goes on. */
  lemma WalkStep(fat: seq<nat>, q: seq<Cluster>, bpc: nat, first: nat, offset: nat, cluster: nat, rest: nat, k: nat)
    requires FatSize(fat) && FileChain(fat, first, q) && bpc > 0
    requires Walked(q, bpc, offset, cluster, rest, k) && rest >= bpc
    ensures cluster < |fat| && Walked(q, bpc, offset, Next(fat, cluster), rest - bpc, k + 1)
  {
    Times(|q|, k, bpc);
    assert (k + 1) * bpc == k * bpc + bpc;
    NextInChain(fat, q, k);
  }

  lemma WalkEnds(q: seq<Cluster>, bpc: nat, offset: nat, cluster: nat, rest: nat, k: nat)
    requires bpc > 0 && Walked(q, bpc, offset, cluster, rest, k) && rest < bpc
    ensures CursorAt(q, bpc, offset, cluster, rest) || cluster == offset == rest == 0
  {
    PositionOf(k, rest, bpc);
  }

  lemma ReadBounds(data: seq<seq<Byte>>, q: seq<Cluster>, bpc: nat, start: nat, n: nat, buf: seq<Byte>,
                   cluster: nat, off: nat)
    requires Reading(data, q, bpc, start, n, buf, cluster, off)
    ensures bpc > 0 && off < bpc && |buf| <= n && CursorAt(q, bpc, start + |buf|, cluster, off)
    ensures Clusters(data, bpc) && Within(data, q) && start + n <= |q| * bpc
    ensures buf == Flat(data, q, bpc)[start..start + |buf|]
  {
  }

  lemma Positive(data: seq<seq<Byte>>, bpc: nat)
    requires Clusters(data, bpc)
    ensures bpc > 0
  {
  }

  lemma ChainInside(fat: seq<nat>, data: seq<seq<Byte>>, q: seq<Cluster>, first: nat)
    requires FileChain(fat, first, q) && |data| == |fat|
    ensures Within(data, q)
  {
  }

  /** A segment of a file's content is one of its clusters' bytes. */
  lemma SegmentIs(flat: seq<Byte>, size: nat, pos: nat, len: nat)
    requires pos <= size <= |flat|
    ensures Segment(flat[..size], pos, len) == flat[pos..pos + Min(len, size - pos)]
  {
  }

  lemma NotEmpty(fat: seq<nat>, q: seq<Cluster>, first: nat)
    requires FileChain(fat, first, q)
    ensures q != [] ==> IsChain(fat, q)
  {
  }
}
