/** The loop of FileDescriptor::Write (kernel/fat.cpp:302-318), round by round. */
module FileWriting {
  import opened Common
  import opened FatChains
  import opened FileBytes

  /** Where a Write begins: the volume, the file's chain, the cluster (by its place in the chain) and offset. */
  datatype Job = Job(bpc: nat, fat: seq<nat>, data: seq<seq<Byte>>, chain: seq<Cluster>, index: nat, off: nat,
                     buf: seq<Byte>, len: nat)

  /** Where it has got to; `more` are the clusters added to the chain so far. */
  datatype Stage = Stage(fat: seq<nat>, data: seq<seq<Byte>>, more: seq<Cluster>, index: nat, off: nat, total: nat)

  predicate Volume(fat: seq<nat>, data: seq<seq<Byte>>, bpc: nat) {
    FatSize(fat) && |data| == |fat| && Clusters(data, bpc)
  }

  function Room(job: Job): nat
    requires job.off <= job.bpc
  {
    job.bpc - job.off
  }

  function Rounds(job: Job): nat
    requires job.bpc > 0 && job.off <= job.bpc
  {
    Advances(Room(job), job.len, job.bpc)
  }

  /** The clusters of the chain behind the current one. */
  function Ahead(job: Job): nat
    requires job.index < |job.chain|
  {
    |job.chain| - 1 - job.index
  }

  /** What Write needs: enough readable bytes, and enough free clusters if it has to extend the chain. */
  ghost predicate Begins(job: Job) {
    && Volume(job.fat, job.data, job.bpc) && IsChain(job.fat, job.chain)
    && job.index < |job.chain| && job.off <= job.bpc
    && job.len <= |job.buf| && Written(Room(job), job.len, job.bpc) <= |job.buf|
    && (Ahead(job) < Rounds(job) ==> FreeCount(job.fat, 2) >= Triangle(Rounds(job)))
  }

  /** The bytes go where they belong unless two or more clusters are added at once. */
  predicate Straight(job: Job)
    requires job.bpc > 0 && job.off <= job.bpc && job.index < |job.chain|
  {
    Rounds(job) <= Ahead(job) + 1
  }

  // ----- the invariant of the loop

  ghost predicate Shape(job: Job, st: Stage) {
    && Begins(job) && Volume(st.fat, st.data, job.bpc)
    && Linked(job.fat, st.fat, job.chain, st.more)
    && (forall i :: 0 <= i < |st.more| ==> Free(job.fat, st.more[i]))
    && st.index < |job.chain + st.more| && st.off <= job.bpc
    && forall c :: 0 <= c < |job.data| && c !in job.chain + st.more ==> st.data[c] == job.data[c]
  }

  /** After j moves to a next cluster. */
  predicate Counting(job: Job, st: Stage, j: nat)
    requires job.bpc > 0 && job.off <= job.bpc
  {
    && st.total + job.bpc - st.off == Room(job) + j * job.bpc
    && j <= Rounds(job)
    && (st.total >= job.len ==> st.total == Written(Room(job), job.len, job.bpc))
  }

  /** Between the rounds. */
  predicate AtHead(job: Job, st: Stage, j: nat) {
    st.total < job.len ==> (st.total == 0 && j == 0 && st.off == job.off) || st.off == job.bpc
  }

  /** In a round, with the current cluster chosen. */
  predicate Chosen(job: Job, st: Stage, j: nat) {
    st.total < job.len && st.off < job.bpc && ((st.total == 0 && j == 0 && st.off == job.off) || (st.off == 0 && j > 0))
  }

  ghost predicate Placed(job: Job, st: Stage)
    requires Shape(job, st)
  {
    var start := job.index * job.bpc + job.off;
    && st.index * job.bpc + st.off == start + st.total
    && Prefix(job.data, job.chain, job.bpc, start) + job.buf[..Min(st.total, |job.buf|)]
       == Prefix(st.data, job.chain + st.more, job.bpc, start + st.total)
  }

  /** The first n bytes of a chain. */
  ghost function Prefix(data: seq<seq<Byte>>, q: seq<Cluster>, bpc: nat, n: nat): seq<Byte> {
    if Clusters(data, bpc) && Within(data, q) && n <= |q| * bpc then Flat(data, q, bpc)[..n] else []
  }

  /** Which clusters have been visited: one after the other, or past a gap. */
  predicate InOrder(job: Job, st: Stage, j: nat) {
    && st.index == job.index + j
    && ((st.more == [] && st.index < |job.chain|) || (|st.more| == 1 && st.index == |job.chain| && j > 0))
  }

  /** Past a gap: the first of the added clusters has been left out. */
  predicate Skipping(job: Job, st: Stage) {
    && |st.more| >= 2 && st.index == |job.chain| + |st.more| - 1
    && st.more[0] < |st.data| == |job.data| && st.data[st.more[0]] == job.data[st.more[0]]
  }

  ghost predicate Going(job: Job, st: Stage, j: nat) {
    && Shape(job, st) && Counting(job, st, j)
    && (if Straight(job) then Placed(job, st) && InOrder(job, st, j)
        else (InOrder(job, st, j) && st.more == []) || Skipping(job, st))
    && (Rounds(job) <= Ahead(job) || |st.more| == 1 == Rounds(job) - Ahead(job)
        || FreeCount(st.fat, 2) >= Triangle(Rounds(job) - j))
  }

  function Start(job: Job): Stage {
    Stage(job.fat, job.data, [], job.index, job.off, 0)
  }

  lemma Starts(job: Job)
    requires Begins(job)
    ensures Going(job, Start(job), 0) && AtHead(job, Start(job), 0)
  {
    assert job.chain + [] == job.chain;
    assert job.buf[..0] == [];
    assert 0 * job.bpc == 0;
    Product(job.index, |job.chain|, job.bpc);
  }

  // ----- the end

  /** When the loop has ended: either everything is in its place, or a cluster has been skipped. */
  lemma Ends(job: Job, st: Stage, j: nat)
    requires Going(job, st, j) && st.total >= job.len
    ensures st.total == Written(Room(job), job.len, job.bpc) <= |job.buf|
    ensures Straight(job) ==> Placed(job, st) && |st.more| == Max(Rounds(job) - Ahead(job), 0)
    ensures !Straight(job) ==> Skipping(job, st)
  {
    hide FreeCount, Prefix, Written, NumCluster, Advances, Linked, Free;
    EndCount(job, st, j);
  }

  lemma EndCount(job: Job, st: Stage, j: nat)
    requires Begins(job) && Counting(job, st, j) && st.total >= job.len && st.off <= job.bpc
    ensures j == Rounds(job)
  {
    var room := Room(job);
    if job.len > room {
      NumClusterIs(job.len - room, job.bpc, Rounds(job));
      Times(j + 1, Rounds(job), job.bpc);
      assert (j + 1) * job.bpc == j * job.bpc + job.bpc;
    }
  }

  // ----- moving to the next cluster

  function Moved(st: Stage): Stage {
    st.(index := st.index + 1, off := 0)
  }

  lemma MoveCount(job: Job, st: Stage, j: nat)
    requires Begins(job) && Counting(job, st, j) && AtHead(job, st, j) && st.total < job.len && st.off == job.bpc
    ensures j < Rounds(job) && NumCluster(job.len - st.total, job.bpc) == Rounds(job) - j
    ensures (j + 1) * job.bpc == j * job.bpc + job.bpc
  {
    hide NumCluster, IsChain, FreeCount, Written, Triangle, FatSize;
    Product(j, j + 1, job.bpc);
    NumClusterLeft(job.len - Room(job), job.bpc, j, job.len - st.total);
  }

  lemma Moves(job: Job, st: Stage, j: nat)
    requires Going(job, st, j) && AtHead(job, st, j) && st.total < job.len && st.off == job.bpc
    requires st.index + 1 < |job.chain + st.more|
    ensures Going(job, Moved(st), j + 1) && Chosen(job, Moved(st), j + 1)
  {
    hide Linked, FreeCount, Prefix, Written, NumCluster, Free, Straight, Advances, IsChain, Triangle;
    MoveCount(job, st, j);
    TriangleGrows(Rounds(job) - j - 1, Rounds(job) - j);
    Product(st.index, st.index + 1, job.bpc);
  }

  function Extended(job: Job, st: Stage, fat: seq<nat>, again: seq<Cluster>): Stage
    requires again != []
  {
    Stage(fat, st.data, st.more + again, |job.chain| + |st.more| + |again| - 1, 0, st.total)
  }

  ghost predicate Extension(job: Job, st: Stage, j: nat, fat: seq<nat>, again: seq<Cluster>)
    requires job.bpc > 0 && job.off <= job.bpc
  {
    && Linked(st.fat, fat, job.chain + st.more, again)
    && |again| == Rounds(job) - j
    && (forall i :: 0 <= i < |again| ==> Free(st.fat, again[i]))
    && (forall i, k :: 0 <= i < k < |again| ==> again[i] != again[k])
  }

  lemma Extends(job: Job, st: Stage, j: nat, fat: seq<nat>, again: seq<Cluster>)
    requires Going(job, st, j) && AtHead(job, st, j) && st.total < job.len && st.off == job.bpc
    requires st.index + 1 == |job.chain + st.more| && Extension(job, st, j, fat, again)
    ensures again != [] && Going(job, Extended(job, st, fat, again), j + 1)
    ensures Chosen(job, Extended(job, st, fat, again), j + 1)
  {
    hide Linked, FreeCount, Prefix, Written, NumCluster, Free, Advances, IsChain, Triangle;
    MoveCount(job, st, j);
    ExtendShape(job, st, j, fat, again);
    ExtendReserve(job, st, j, fat, again);
    if Straight(job) {
      ExtendPlaced(job, st, j, fat, again);
    } else {
      ExtendSkips(job, st, j, fat, again);
    }
  }

  /** The chain can be extended whenever Write finds its end. */
  lemma ExtendPossible(job: Job, st: Stage, j: nat)
    requires Going(job, st, j) && AtHead(job, st, j) && st.total < job.len && st.off == job.bpc
    requires st.index + 1 == |job.chain + st.more|
    ensures j < Rounds(job) && NumCluster(job.len - st.total, job.bpc) == Rounds(job) - j
    ensures FreeCount(st.fat, 2) >= Rounds(job) - j
  {
    hide Linked, FreeCount, Prefix, Written, NumCluster, Free, Advances, IsChain, Triangle;
    MoveCount(job, st, j);
  }

  lemma ExtendShape(job: Job, st: Stage, j: nat, fat: seq<nat>, again: seq<Cluster>)
    requires Shape(job, st) && Extension(job, st, j, fat, again) && again != []
    ensures Shape(job, Extended(job, st, fat, again))
    ensures forall i :: 0 <= i < |again| ==> again[i] !in job.chain + st.more
  {
    hide FreeCount, Written, NumCluster, Advances, Triangle, Clusters;
    assert (job.chain + st.more) + again == job.chain + (st.more + again);
    LinkedTwice(job.fat, st.fat, fat, job.chain, st.more, again);
    var all := job.chain + st.more;
    forall i | 0 <= i < |again| ensures again[i] !in all {
      forall k | 0 <= k < |all| ensures all[k] != again[i] {
        InUse(st.fat, all, k);
      }
    }
  }

  lemma ExtendReserve(job: Job, st: Stage, j: nat, fat: seq<nat>, again: seq<Cluster>)
    requires Going(job, st, j) && Extension(job, st, j, fat, again) && j < Rounds(job)
    ensures FreeCount(st.fat, 2) >= Triangle(Rounds(job) - j) ==> FreeCount(fat, 2) >= Triangle(Rounds(job) - (j + 1))
  {
    hide FreeCount, Written, NumCluster, Advances, Clusters, Prefix;
    FreeLeft(st.fat, fat, job.chain + st.more, again);
  }

  lemma ExtendPlaced(job: Job, st: Stage, j: nat, fat: seq<nat>, again: seq<Cluster>)
    requires Going(job, st, j) && st.index + 1 == |job.chain + st.more| && st.off == job.bpc && j < Rounds(job)
    requires again != [] && Extension(job, st, j, fat, again) && Straight(job)
    requires Shape(job, Extended(job, st, fat, again))
    ensures st.more == [] && |again| == 1 && Rounds(job) - Ahead(job) == 1
    ensures Placed(job, Extended(job, st, fat, again)) && InOrder(job, Extended(job, st, fat, again), j + 1)
  {
    hide FreeCount, Written, NumCluster, Advances, Triangle, IsChain, Free, Prefix, Linked, Begins, Volume;
    assert st.more == [];
    assert job.chain + st.more == job.chain && st.more + again == again;
    Product(st.index, st.index + 1, job.bpc);
    ChainWithin(job, st);
    ChainWithin(job, Extended(job, st, fat, again));
    PrefixMore(job, st, again);
  }

  /** Clusters behind a full chain do not change what is written before them. */
  lemma PrefixMore(job: Job, st: Stage, again: seq<Cluster>)
    requires Shape(job, st) && Within(st.data, job.chain) && Within(st.data, job.chain + again)
    ensures var n := |job.chain| * job.bpc;
            Prefix(st.data, job.chain + again, job.bpc, n) == Prefix(st.data, job.chain, job.bpc, n)
  {
    hide FreeCount, Written, NumCluster, Advances, Triangle, Flat, IsChain, Free, Linked;
    forall i | 0 <= i < |again| ensures again[i] < |st.data| {
      assert (job.chain + again)[|job.chain| + i] == again[i];
    }
    FlatMore(st.data, job.chain, again, job.bpc);
  }

  lemma ExtendSkips(job: Job, st: Stage, j: nat, fat: seq<nat>, again: seq<Cluster>)
    requires Going(job, st, j) && st.index + 1 == |job.chain + st.more| && j < Rounds(job)
    requires again != [] && Extension(job, st, j, fat, again)
    requires !Straight(job) && Shape(job, Extended(job, st, fat, again))
    requires forall i :: 0 <= i < |again| ==> again[i] !in job.chain + st.more
    ensures Skipping(job, Extended(job, st, fat, again))
  {
    hide FreeCount, Written, NumCluster, Advances, Triangle, Flat, IsChain, Prefix, Linked;
    ChainWithin(job, st);
    if st.more == [] {
      assert st.more + again == again;
      assert again[0] !in job.chain + st.more;
      assert Free(st.fat, again[0]);
    }
  }

  /** The clusters of the chain are on the volume, and no two are the same. */
  lemma ChainWithin(job: Job, st: Stage)
    requires Shape(job, st)
    ensures Within(st.data, job.chain + st.more) && Within(job.data, job.chain)
    ensures var q := job.chain + st.more; forall i, k :: 0 <= i < k < |q| ==> q[i] != q[k]
    ensures |job.data| == |st.data|
  {
    hide FreeCount, Written, NumCluster, Advances, Triangle, Clusters;
    Acyclic(st.fat, job.chain + st.more);
  }

  // ----- copying a piece

  function Piece(job: Job, st: Stage): nat
    requires st.off <= job.bpc
  {
    Min(job.len, job.bpc - st.off)
  }

  ghost function Copied(job: Job, st: Stage): Stage
    requires st.off <= job.bpc && st.total + Piece(job, st) <= |job.buf| && st.index < |job.chain + st.more|
    requires var c := (job.chain + st.more)[st.index]; c < |st.data| && |st.data[c]| == job.bpc
  {
    var n := Piece(job, st);
    st.(data := Stored(st.data, (job.chain + st.more)[st.index], st.off, job.buf[st.total..st.total + n]),
        off := st.off + n, total := st.total + n)
  }

  lemma CopyCount(job: Job, st: Stage, j: nat)
    requires Begins(job) && Counting(job, st, j) && Chosen(job, st, j)
    ensures st.total + Piece(job, st) <= |job.buf|
    ensures var n := Piece(job, st);
            var st' := st.(off := st.off + n, total := st.total + n); Counting(job, st', j) && AtHead(job, st', j)
  {
    hide FreeCount, NumCluster, Triangle, IsChain, Clusters;
    var room, r, n := Room(job), Rounds(job), Piece(job, st);
    WrittenExact(room, job.len, job.bpc);
    if j > 0 && st.total + n >= job.len {
      NumClusterIs(job.len - room, job.bpc, r);
      NumClusterIs(job.len - room, job.bpc, j);
      assert (j - 1) * job.bpc == j * job.bpc - job.bpc;
      if job.len < job.bpc {
        Times(2, j, job.bpc);
        assert 1 * job.bpc == job.bpc;
      }
    }
  }

  lemma Copies(job: Job, st: Stage, j: nat)
    requires Going(job, st, j) && Chosen(job, st, j)
    ensures st.total + Piece(job, st) <= |job.buf|
    ensures var c := (job.chain + st.more)[st.index]; c < |st.data| && |st.data[c]| == job.bpc
    ensures Going(job, Copied(job, st), j) && AtHead(job, Copied(job, st), j)
  {
    hide Linked, FreeCount, Prefix, Written, NumCluster, Free, Advances, IsChain, Triangle, Straight;
    CopyCount(job, st, j);
    ChainWithin(job, st);
    var q := job.chain + st.more;
    var n := Piece(job, st);
    FlatStore(st.data, q, job.bpc, st.index, st.off, job.buf[st.total..st.total + n]);
    assert Shape(job, Copied(job, st)) by {
      assert q[st.index] in q;
    }
    if Straight(job) {
      CopyPlaced(job, st);
    }
    if Skipping(job, st) {
      assert q[|job.chain|] == st.more[0];
    }
  }

  lemma CopyPlaced(job: Job, st: Stage)
    requires Shape(job, st) && Placed(job, st) && st.total + Piece(job, st) <= |job.buf|
    requires var c := (job.chain + st.more)[st.index]; c < |st.data| && |st.data[c]| == job.bpc
    requires Shape(job, Copied(job, st))
    ensures Placed(job, Copied(job, st))
  {
    hide FreeCount, Written, NumCluster, Advances, Triangle, Flat, IsChain, Free, Linked, Begins;
    ChainWithin(job, st);
    var q, n, a := job.chain + st.more, Piece(job, st), st.index * job.bpc + st.off;
    var bytes := job.buf[st.total..st.total + n];
    FlatStore(st.data, q, job.bpc, st.index, st.off, bytes);
    var flat, flat' := Flat(st.data, q, job.bpc), Flat(Copied(job, st).data, q, job.bpc);
    assert flat'[..a + n] == flat[..a] + bytes;
    assert job.buf[..st.total] + bytes == job.buf[..st.total + n];
    var before := Prefix(job.data, job.chain, job.bpc, job.index * job.bpc + job.off);
    assert (before + job.buf[..st.total]) + bytes == before + (job.buf[..st.total] + bytes);
  }

  // ----- the whole loop

  ghost predicate Finished(job: Job, st: Stage) {
    && Shape(job, st) && st.total == Written(Room(job), job.len, job.bpc) <= |job.buf|
    && if Straight(job) then Placed(job, st) && |st.more| == Max(Rounds(job) - Ahead(job), 0) else Skipping(job, st)
  }

  lemma Finishes(job: Job, st: Stage, j: nat)
    requires Going(job, st, j) && st.total >= job.len
    ensures Finished(job, st)
  {
    hide Linked, FreeCount, Prefix, Written, NumCluster, Free, Advances, IsChain, Triangle, Shape, Placed, Skipping,
      Straight;
    Ends(job, st, j);
  }

  /** What the loop may rely on when it looks for the next cluster. */
  lemma StageBounds(job: Job, st: Stage, j: nat)
    requires Going(job, st, j)
    ensures var q := job.chain + st.more; IsChain(st.fat, q) && st.index < |q| && q[st.index] < |st.fat| == |st.data|
    ensures Begins(job) && FatSize(st.fat) && job.len <= |job.buf| && st.off <= job.bpc && job.bpc > 0
    ensures forall i :: 0 <= i < |job.chain + st.more| ==> (job.chain + st.more)[i] != END_OF_CLUSTERCHAIN
  {
    hide FreeCount, Prefix, Written, NumCluster, Free, Advances, Triangle, Placed, Skipping, Straight;
  }
}
