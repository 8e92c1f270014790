/** The file allocation table of kernel/fat.cpp: cluster chains, and how they are extended and allocated. */
module FatChains {
  import opened Common

  type Cluster = nat

  const END_OF_CLUSTERCHAIN: nat := 0x0fff_ffff

  predicate IsEndOfClusterchain(cluster: nat) {
    cluster >= 0x0fff_fff8
  }

  /** Cluster numbers never look like end marks. */
  predicate FatSize(fat: seq<nat>) {
    2 <= |fat| <= 0x0fff_fff8
  }

  /** q is the chain of q[0]: each cluster's entry names the next one, the last one's is an end mark. */
  ghost predicate IsChain(fat: seq<nat>, q: seq<Cluster>) {
    && q != []
    && (forall i :: 0 <= i < |q| ==> 2 <= q[i] < |fat|)
    && (forall i :: 0 <= i < |q| - 1 ==> fat[q[i]] == q[i + 1])
    && IsEndOfClusterchain(fat[q[|q| - 1]])
  }

  predicate Free(fat: seq<nat>, c: Cluster) {
    2 <= c < |fat| && fat[c] == 0
  }

  /** Two chains from the same cluster are the same chain. */
  lemma {:induction false} OneChain(fat: seq<nat>, p: seq<Cluster>, q: seq<Cluster>)
    requires FatSize(fat) && IsChain(fat, p) && IsChain(fat, q) && p[0] == q[0]
    ensures p == q
    decreases |p|
  {
    assert |p| > 1 ==> fat[p[0]] == p[1];
    assert |q| > 1 ==> fat[q[0]] == q[1];
    if |p| > 1 && |q| > 1 {
      Tail(fat, p);
      Tail(fat, q);
      OneChain(fat, p[1..], q[1..]);
      assert p == [p[0]] + p[1..] && q == [q[0]] + q[1..];
    }
  }

  lemma Tail(fat: seq<nat>, q: seq<Cluster>)
    requires IsChain(fat, q) && |q| > 1
    ensures IsChain(fat, q[1..])
  {
  }

  lemma {:induction false} Suffix(fat: seq<nat>, q: seq<Cluster>, i: nat)
    requires IsChain(fat, q) && i < |q|
    ensures IsChain(fat, q[i..])
  {
  }

  /** Chains have no loops: a cluster that came twice would begin two chains of different lengths. */
  lemma Acyclic(fat: seq<nat>, q: seq<Cluster>)
    requires FatSize(fat) && IsChain(fat, q)
    ensures forall i, j :: 0 <= i < j < |q| ==> q[i] != q[j]
  {
    forall i, j | 0 <= i < j < |q| ensures q[i] != q[j] {
      if q[i] == q[j] {
        Suffix(fat, q, i);
        Suffix(fat, q, j);
        OneChain(fat, q[i..], q[j..]);
      }
    }
  }

  /** Two chains that meet have the same end: each cluster's chain is determined by the table. */
  lemma MeetingChains(fat: seq<nat>, p: seq<Cluster>, q: seq<Cluster>, i: nat, j: nat)
    requires FatSize(fat) && IsChain(fat, p) && IsChain(fat, q) && i < |p| && j < |q| && p[i] == q[j]
    ensures p[i..] == q[j..]
  {
    Suffix(fat, p, i);
    Suffix(fat, q, j);
    OneChain(fat, p[i..], q[j..]);
  }

  // ----- a family of chains

  ghost predicate Disjoint(p: seq<Cluster>, q: seq<Cluster>) {
    forall i, j :: 0 <= i < |p| && 0 <= j < |q| ==> p[i] != q[j]
  }

  /** The chains of all files and directories: one for each head, and no cluster in two of them. */
  ghost predicate Family(fat: seq<nat>, chains: map<Cluster, seq<Cluster>>) {
    && FatSize(fat)
    && (forall h :: h in chains ==> IsChain(fat, chains[h]) && chains[h][0] == h)
    && (forall h, k :: h in chains && k in chains && h != k ==> Disjoint(chains[h], chains[k]))
  }

  // ----- free clusters

  /** The n lowest free clusters from `from` on; fewer if there are fewer. */
  function LowestFree(fat: seq<nat>, from: nat, n: nat): seq<Cluster>
    decreases |fat| - from
  {
    if n == 0 || from >= |fat| then []
    else if fat[from] == 0 then [from] + LowestFree(fat, from + 1, n - 1)
    else LowestFree(fat, from + 1, n)
  }

  function FreeCount(fat: seq<nat>, from: nat): nat
    decreases |fat| - from
  {
    if from >= |fat| then 0 else (if fat[from] == 0 then 1 else 0) + FreeCount(fat, from + 1)
  }

  /** These are that many free clusters, in ascending order. */
  lemma {:induction false} LowestFreeAre(fat: seq<nat>, from: nat, n: nat)
    requires from >= 2
    ensures var r := LowestFree(fat, from, n);
            && |r| == Min(n, FreeCount(fat, from))
            && (forall i :: 0 <= i < |r| ==> from <= r[i] && Free(fat, r[i]))
            && (forall i, j :: 0 <= i < j < |r| ==> r[i] < r[j])
    decreases |fat| - from
  {
    hide LowestFree, FreeCount;
    FreeStep(fat, from, n);
    if n != 0 && from < |fat| {
      if fat[from] == 0 {
        LowestFreeAre(fat, from + 1, n - 1);
      } else {
        LowestFreeAre(fat, from + 1, n);
      }
    }
  }

  /** No other free cluster is lower. */
  lemma {:induction false} LowestFreeLowest(fat: seq<nat>, from: nat, n: nat, c: Cluster)
    requires from >= 2 && from <= c && Free(fat, c)
    ensures var r := LowestFree(fat, from, n); c in r || (|r| == n && forall i :: 0 <= i < |r| ==> r[i] < c)
    decreases |fat| - from
  {
    hide LowestFree, FreeCount;
    FreeStep(fat, from, n);
    LowestFreeAre(fat, from, n);
    if n != 0 && from < c {
      if fat[from] == 0 {
        LowestFreeLowest(fat, from + 1, n - 1, c);
      } else {
        LowestFreeLowest(fat, from + 1, n, c);
      }
    }
  }

  /** One entry of the scan. */
  lemma FreeStep(fat: seq<nat>, c: nat, n: nat)
    ensures c >= |fat| ==> FreeCount(fat, c) == 0 && LowestFree(fat, c, n) == []
    ensures n == 0 ==> LowestFree(fat, c, n) == []
    ensures c < |fat| && fat[c] != 0 ==>
              LowestFree(fat, c, n) == LowestFree(fat, c + 1, n) && FreeCount(fat, c) == FreeCount(fat, c + 1)
    ensures c < |fat| && fat[c] == 0 && n > 0 ==> LowestFree(fat, c, n) == [c] + LowestFree(fat, c + 1, n - 1)
    ensures c < |fat| && fat[c] == 0 ==> FreeCount(fat, c) == 1 + FreeCount(fat, c + 1)
  {
  }

  /** The table after the clusters `more` have been linked behind the chain q, in that order. */
  ghost predicate Linked(fat: seq<nat>, fat': seq<nat>, q: seq<Cluster>, more: seq<Cluster>) {
    && |fat'| == |fat|
    && IsChain(fat', q + more)
    && forall c :: 0 <= c < |fat| && (q == [] || c != q[|q| - 1]) && c !in more ==> fat'[c] == fat[c]
  }

  /** Extending one chain by free clusters keeps the family, and all other chains as they are. */
  lemma LinkedFamily(fat: seq<nat>, fat': seq<nat>, chains: map<Cluster, seq<Cluster>>, h: Cluster, more: seq<Cluster>)
    requires Family(fat, chains) && h in chains && Linked(fat, fat', chains[h], more)
    requires forall i :: 0 <= i < |more| ==> Free(fat, more[i])
    ensures Family(fat', chains[h := chains[h] + more])
  {
    var chains' := chains[h := chains[h] + more];
    forall k | k in chains && k != h ensures IsChain(fat', chains[k]) && Disjoint(chains[k], chains'[h]) {
      OtherChain(fat, fat', chains[h], chains[k], more);
    }
  }

  lemma OtherChain(fat: seq<nat>, fat': seq<nat>, q: seq<Cluster>, p: seq<Cluster>, more: seq<Cluster>)
    requires FatSize(fat) && IsChain(fat, p) && (q != [] ==> Disjoint(q, p)) && Linked(fat, fat', q, more)
    requires forall i :: 0 <= i < |more| ==> Free(fat, more[i])
    ensures IsChain(fat', p) && Disjoint(p, q + more) && Disjoint(q + more, p)
  {
    forall i | 0 <= i < |p| ensures p[i] !in more && fat'[p[i]] == fat[p[i]] && p[i] !in q {
      InUse(fat, p, i);
    }
  }

  /** The clusters of a chain are not free. */
  lemma InUse(fat: seq<nat>, q: seq<Cluster>, i: nat)
    requires IsChain(fat, q) && i < |q|
    ensures fat[q[i]] != 0
  {
    if i < |q| - 1 {
      assert fat[q[i]] == q[i + 1];
    }
  }

  /** A new chain of free clusters joins the family. */
  lemma NewFamily(fat: seq<nat>, fat': seq<nat>, chains: map<Cluster, seq<Cluster>>, more: seq<Cluster>)
    requires Family(fat, chains) && more != [] && Linked(fat, fat', [], more)
    requires forall i :: 0 <= i < |more| ==> Free(fat, more[i])
    ensures more[0] !in chains && Family(fat', chains[more[0] := more])
  {
    assert [] + more == more;
    if more[0] in chains {
      InUse(fat, chains[more[0]], 0);
    }
    forall k | k in chains ensures IsChain(fat', chains[k]) && Disjoint(chains[k], more) && Disjoint(more, chains[k]) {
      OtherChain(fat, fat', [], chains[k], more);
    }
  }

  // ----- the code

  function Next(fat: seq<nat>, cluster: Cluster): nat
    requires cluster < |fat|
  {
    if IsEndOfClusterchain(fat[cluster]) then END_OF_CLUSTERCHAIN else fat[cluster]
  }

  /** Along a chain, the next cluster is the chain's next one, and END_OF_CLUSTERCHAIN behind the last. */
  lemma NextInChain(fat: seq<nat>, q: seq<Cluster>, k: nat)
    requires FatSize(fat) && IsChain(fat, q) && k < |q|
    ensures q[k] < |fat| && Next(fat, q[k]) == if k + 1 < |q| then q[k + 1] else END_OF_CLUSTERCHAIN
  {
    ChainBounds(fat, q);
  }

  method NextCluster(fat: array<nat>, cluster: Cluster) returns (next: nat)
    requires cluster < fat.Length
    ensures next == Next(fat[..], cluster)
  {
    next := fat[cluster];
    if IsEndOfClusterchain(next) {
      return END_OF_CLUSTERCHAIN;
    }
  }

  /** The first loop of ExtendCluster: from any cluster of a chain to its last one. */
  method LastCluster(fat: array<nat>, eocCluster: Cluster, ghost q: seq<Cluster>, ghost k: nat) returns (eoc: Cluster)
    requires FatSize(fat[..]) && IsChain(fat[..], q) && k < |q| && q[k] == eocCluster
    ensures eoc == q[|q| - 1]
  {
    ChainBounds(fat[..], q);
    eoc := eocCluster;
    ghost var j := k;
    while !IsEndOfClusterchain(fat[eoc])
      invariant k <= j < |q| && eoc == q[j]
      decreases |q| - j
    {
      eoc := fat[eoc];
      j := j + 1;
    }
  }

  /**
   * ExtendCluster: the chain that holds eocCluster (as its k-th cluster) grows by the n lowest free
   * clusters; the answer is its new last cluster.
   */
  method ExtendCluster(fat: array<nat>, eocCluster: Cluster, n: nat, ghost q: seq<Cluster>, ghost k: nat)
    returns (last: Cluster)
    requires FatSize(fat[..]) && IsChain(fat[..], q) && k < |q| && q[k] == eocCluster
    requires FreeCount(fat[..], 2) >= n
    modifies fat
    ensures Linked(old(fat[..]), fat[..], q, LowestFree(old(fat[..]), 2, n))
    ensures var chain := q + LowestFree(old(fat[..]), 2, n); last == chain[|chain| - 1]
    ensures |LowestFree(old(fat[..]), 2, n)| == n
  {
    hide LowestFree, FreeCount, Scanning, Linked, IsChain, Free;
    ghost var fat0 := fat[..];
    LowestFreeAre(fat0, 2, n);
    var eoc := LastCluster(fat, eocCluster, q, k);

    var numAllocated := 0;
    var current := eoc;
    ghost var more: seq<Cluster> := [];
    var candidate: nat := 2;
    ScanStarts(fat0, q, n);
    while numAllocated < n
      invariant numAllocated == |more| <= n
      invariant Scanning(fat0, fat[..], q, more, candidate, current, n)
      decreases fat.Length - candidate
    {
      ScanBounds(fat0, fat[..], q, more, candidate, current, n);
      ghost var before := fat[..];
      if fat[candidate] != 0 {
        ScanSkips(fat0, before, q, more, candidate, current, n);
        candidate := candidate + 1;
        continue;
      }
      fat[current] := candidate;
      assert fat[..] == before[current := candidate];
      ScanTakes(fat0, before, q, more, candidate, current, n);
      current := candidate;
      more := more + [candidate];
      numAllocated := numAllocated + 1;
      candidate := candidate + 1;
    }
    ghost var linked := fat[..];
    ScanEnds(fat0, linked, q, more, candidate, current, n);
    fat[current] := END_OF_CLUSTERCHAIN;
    assert fat[..] == linked[current := END_OF_CLUSTERCHAIN];
    return current;
  }

  /** The state of the scan: `more` are the free clusters found so far, current is the last one linked. */
  ghost predicate Scanning(fat0: seq<nat>, fat: seq<nat>, q: seq<Cluster>, more: seq<Cluster>, candidate: nat,
                           current: Cluster, n: nat)
  {
    && q != [] && |more| <= n && 2 <= candidate <= |fat0|
    && more + LowestFree(fat0, candidate, n - |more|) == LowestFree(fat0, 2, n)
    && FreeCount(fat0, candidate) >= n - |more|
    && Linking(fat0, fat, q, more, candidate)
    && current == (q + more)[|q| + |more| - 1]
  }

  lemma ScanStarts(fat0: seq<nat>, q: seq<Cluster>, n: nat)
    requires FatSize(fat0) && IsChain(fat0, q) && FreeCount(fat0, 2) >= n
    ensures Scanning(fat0, fat0, q, [], 2, q[|q| - 1], n)
  {
    assert q + [] == q;
    assert [] + LowestFree(fat0, 2, n) == LowestFree(fat0, 2, n);
  }

  lemma ScanBounds(fat0: seq<nat>, fat: seq<nat>, q: seq<Cluster>, more: seq<Cluster>, candidate: nat,
                   current: Cluster, n: nat)
    requires Scanning(fat0, fat, q, more, candidate, current, n)
    ensures |more| < n ==> 2 <= candidate < |fat|
    ensures current < |fat|
  {
    hide LowestFree, FreeCount;
    FreeStep(fat0, candidate, n - |more|);
  }

  lemma ScanSkips(fat0: seq<nat>, fat: seq<nat>, q: seq<Cluster>, more: seq<Cluster>, candidate: nat,
                  current: Cluster, n: nat)
    requires FatSize(fat0) && IsChain(fat0, q) && Scanning(fat0, fat, q, more, candidate, current, n)
    requires |more| < n && candidate < |fat| && fat[candidate] != 0
    ensures Scanning(fat0, fat, q, more, candidate + 1, current, n)
  {
    hide LowestFree, FreeCount, Linking;
    FreeStep(fat0, candidate, n - |more|);
    Skipped(fat0, fat, q, more, candidate);
  }

  lemma ScanTakes(fat0: seq<nat>, fat: seq<nat>, q: seq<Cluster>, more: seq<Cluster>, candidate: nat,
                  current: Cluster, n: nat)
    requires FatSize(fat0) && IsChain(fat0, q) && Scanning(fat0, fat, q, more, candidate, current, n)
    requires |more| < n && candidate < |fat| && fat[candidate] == 0 && current < |fat|
    ensures Scanning(fat0, fat[current := candidate], q, more + [candidate], candidate + 1, candidate, n)
  {
    hide LowestFree, FreeCount, Linking, IsChain;
    Acyclic(fat0, q);
    LinkOne(fat0, fat, q, more, candidate);
    FreeStep(fat0, candidate, n - |more|);
    var rest := LowestFree(fat0, candidate + 1, n - |more| - 1);
    assert more + ([candidate] + rest) == (more + [candidate]) + rest;
  }

  lemma ScanEnds(fat0: seq<nat>, fat: seq<nat>, q: seq<Cluster>, more: seq<Cluster>, candidate: nat,
                 current: Cluster, n: nat)
    requires FatSize(fat0) && IsChain(fat0, q) && Scanning(fat0, fat, q, more, candidate, current, n) && |more| == n
    ensures more == LowestFree(fat0, 2, n) && q + more != [] && current == (q + more)[|q + more| - 1]
    ensures current < |fat| && Linked(fat0, fat[current := END_OF_CLUSTERCHAIN], q, more)
  {
    hide LowestFree, FreeCount, Linking, IsChain, Linked;
    Acyclic(fat0, q);
    FreeStep(fat0, candidate, 0);
    assert more + [] == more;
    LinkingDone(fat0, fat, q, more, candidate);
  }

  lemma ChainBounds(fat: seq<nat>, q: seq<Cluster>)
    requires FatSize(fat) && IsChain(fat, q)
    ensures q != [] && forall i :: 0 <= i < |q| ==> 2 <= q[i] < |fat|
    ensures forall i :: 0 <= i < |q| - 1 ==> fat[q[i]] == q[i + 1] && !IsEndOfClusterchain(fat[q[i]])
    ensures IsEndOfClusterchain(fat[q[|q| - 1]])
  {
    forall i | 0 <= i < |q| - 1 ensures !IsEndOfClusterchain(fat[q[i]]) {
      assert fat[q[i]] == q[i + 1];
    }
  }

  /** Half way: q + more is linked but not terminated, everything else is as before. */
  ghost predicate Linking(fat0: seq<nat>, fat: seq<nat>, q: seq<Cluster>, more: seq<Cluster>, candidate: nat)
    requires q != []
  {
    && |fat| == |fat0|
    && (forall i :: 0 <= i < |more| ==> 2 <= more[i] < candidate && more[i] < |fat0| && fat0[more[i]] == 0)
    && (forall i, j :: 0 <= i < j < |more| ==> more[i] < more[j])
    && (forall i :: 0 <= i < |q| + |more| - 1 ==> (q + more)[i] < |fat| && fat[(q + more)[i]] == (q + more)[i + 1])
    && (forall c :: 0 <= c < |fat| && c != q[|q| - 1] && c !in more ==> fat[c] == fat0[c])
    && q[|q| - 1] < |fat| && (more == [] ==> fat[q[|q| - 1]] == fat0[q[|q| - 1]]) && fat[q[|q| - 1]] != 0
  }

  /** The scan sees an entry as free exactly when it was free before. */
  lemma Skipped(fat0: seq<nat>, fat: seq<nat>, q: seq<Cluster>, more: seq<Cluster>, candidate: nat)
    requires FatSize(fat0) && IsChain(fat0, q) && Linking(fat0, fat, q, more, candidate) && 2 <= candidate < |fat|
    ensures fat[candidate] == 0 <==> fat0[candidate] == 0
    ensures Linking(fat0, fat, q, more, candidate + 1)
  {
    InUse(fat0, q, |q| - 1);
  }

  lemma LinkOne(fat0: seq<nat>, fat: seq<nat>, q: seq<Cluster>, more: seq<Cluster>, candidate: nat)
    requires FatSize(fat0) && IsChain(fat0, q) && (forall i, j :: 0 <= i < j < |q| ==> q[i] != q[j])
    requires Linking(fat0, fat, q, more, candidate) && 2 <= candidate < |fat| && fat[candidate] == 0
    ensures var current := (q + more)[|q| + |more| - 1];
            Linking(fat0, fat[current := candidate], q, more + [candidate], candidate + 1)
    ensures fat0[candidate] == 0
  {
    Skipped(fat0, fat, q, more, candidate);
    var chain := q + more;
    var current := chain[|chain| - 1];
    var chain' := q + (more + [candidate]);
    assert chain' == chain + [candidate];
    ChainDistinct(fat0, q, more, candidate);
    var fat' := fat[current := candidate];
    forall i | 0 <= i < |chain'| - 1 ensures chain'[i] < |fat'| && fat'[chain'[i]] == chain'[i + 1] {
      if i < |chain| - 1 {
        assert chain[i] != current;
      }
    }
    forall c | 0 <= c < |fat| && c != q[|q| - 1] && c !in more + [candidate] ensures fat'[c] == fat0[c] {
      assert c !in more;
      assert more != [] ==> current in more;
    }
  }

  /** Old and new clusters of the chain are all different. */
  lemma ChainDistinct(fat0: seq<nat>, q: seq<Cluster>, more: seq<Cluster>, candidate: nat)
    requires IsChain(fat0, q) && (forall i, j :: 0 <= i < j < |q| ==> q[i] != q[j])
    requires forall i :: 0 <= i < |more| ==> more[i] < |fat0| && fat0[more[i]] == 0
    requires forall i, j :: 0 <= i < j < |more| ==> more[i] < more[j]
    ensures forall i, j :: 0 <= i < j < |q + more| ==> (q + more)[i] != (q + more)[j]
  {
    forall i | 0 <= i < |q| ensures fat0[q[i]] != 0 {
      InUse(fat0, q, i);
    }
  }

  lemma LinkingDone(fat0: seq<nat>, fat: seq<nat>, q: seq<Cluster>, more: seq<Cluster>, candidate: nat)
    requires FatSize(fat0) && IsChain(fat0, q) && (forall i, j :: 0 <= i < j < |q| ==> q[i] != q[j])
    requires Linking(fat0, fat, q, more, candidate)
    ensures var current := (q + more)[|q| + |more| - 1];
            current < |fat| && Linked(fat0, fat[current := END_OF_CLUSTERCHAIN], q, more)
  {
    var chain := q + more;
    var current := chain[|chain| - 1];
    ChainDistinct(fat0, q, more, candidate);
    assert more != [] ==> current in more;
    assert forall i :: 0 <= i < |chain| - 1 ==> chain[i] != current;
  }

  /** AllocateClusterChain: a new chain of the max(n, 1) lowest free clusters; the answer is its first. */
  method AllocateClusterChain(fat: array<nat>, n: nat) returns (firstCluster: Cluster)
    requires FatSize(fat[..]) && FreeCount(fat[..], 2) >= Max(n, 1)
    modifies fat
    ensures Linked(old(fat[..]), fat[..], [], LowestFree(old(fat[..]), 2, Max(n, 1)))
    ensures |LowestFree(old(fat[..]), 2, Max(n, 1))| == Max(n, 1)
    ensures firstCluster == LowestFree(old(fat[..]), 2, Max(n, 1))[0]
  {
    hide LowestFree, FreeCount, Linked;
    ghost var fat0 := fat[..];
    LowestFreeAre(fat0, 2, Max(n, 1));
    FreeStep(fat0, 2, Max(n, 1));
    firstCluster := 2;
    while true
      invariant 2 <= firstCluster < fat.Length
      invariant fat[..] == fat0
      invariant LowestFree(fat0, firstCluster, Max(n, 1)) == LowestFree(fat0, 2, Max(n, 1))
      invariant FreeCount(fat0, firstCluster) >= Max(n, 1)
      decreases fat.Length - firstCluster
    {
      FreeStep(fat0, firstCluster, Max(n, 1));
      FreeStep(fat0, firstCluster + 1, Max(n, 1));
      if fat[firstCluster] == 0 {
        fat[firstCluster] := END_OF_CLUSTERCHAIN;
        break;
      }
      firstCluster := firstCluster + 1;
    }
    ghost var fat1 := fat[..];
    assert fat1 == fat0[firstCluster := END_OF_CLUSTERCHAIN];
    FirstTaken(fat0, firstCluster, 2, Max(n, 1));
    assert IsChain(fat1, [firstCluster]);
    if n > 1 {
      var _ := ExtendCluster(fat, firstCluster, n - 1, [firstCluster], 0);
      AllLinked(fat0, fat1, fat[..], firstCluster, LowestFree(fat1, 2, n - 1));
    } else {
      FreeStep(fat1, 2, 0);
      AllLinked(fat0, fat1, fat1, firstCluster, []);
    }
  }

  lemma AllLinked(fat0: seq<nat>, fat1: seq<nat>, fat2: seq<nat>, first: Cluster, rest: seq<Cluster>)
    requires 2 <= first < |fat0| && fat1 == fat0[first := END_OF_CLUSTERCHAIN]
    requires Linked(fat1, fat2, [first], rest) || (rest == [] && fat2 == fat1)
    ensures Linked(fat0, fat2, [], [first] + rest)
  {
    assert [] + ([first] + rest) == [first] + rest;
    assert first in [first] + rest;
    assert forall c :: c in rest ==> c in [first] + rest;
    if rest == [] {
      assert [first] + rest == [first];
    }
  }

  /** Taking the lowest free cluster leaves the next ones. */
  lemma {:induction false} FirstTaken(fat: seq<nat>, first: Cluster, from: nat, n: nat)
    requires 2 <= from <= first && Free(fat, first) && n >= 1
    requires LowestFree(fat, from, n) == LowestFree(fat, first, n)
    requires |LowestFree(fat, first, n)| == n
    requires FreeCount(fat, first) >= n
    ensures var taken := fat[first := END_OF_CLUSTERCHAIN];
            && LowestFree(fat, from, n) == [first] + LowestFree(taken, from, n - 1)
            && FreeCount(taken, from) >= n - 1
    decreases first - from
  {
    hide LowestFree, FreeCount;
    var taken := fat[first := END_OF_CLUSTERCHAIN];
    LowestFreeAre(fat, first, n);
    FreeStep(fat, from, n);
    FreeStep(taken, from, n - 1);
    if from == first {
      Behind(fat, taken, first + 1, n - 1);
    } else {
      assert LowestFree(fat, first, n)[0] != from;
      FirstTaken(fat, first, from + 1, n);
    }
  }

  lemma {:induction false} Behind(fat: seq<nat>, taken: seq<nat>, from: nat, n: nat)
    requires |taken| == |fat| && forall c :: from <= c < |fat| ==> taken[c] == fat[c]
    ensures LowestFree(taken, from, n) == LowestFree(fat, from, n) && FreeCount(taken, from) == FreeCount(fat, from)
    decreases |fat| - from
  {
    if from < |fat| {
      Behind(fat, taken, from + 1, n);
      if n > 0 {
        Behind(fat, taken, from + 1, n - 1);
      }
    }
  }

  // ----- how many clusters are left

  function FreeSet(fat: seq<nat>, from: nat): set<Cluster> {
    set c | from <= c < |fat| && fat[c] == 0
  }

  lemma {:induction false} FreeCountIs(fat: seq<nat>, from: nat)
    ensures FreeCount(fat, from) == |FreeSet(fat, from)|
    decreases |fat| - from
  {
    if from < |fat| {
      FreeCountIs(fat, from + 1);
      assert FreeSet(fat, from) == (if fat[from] == 0 then {from} else {}) + FreeSet(fat, from + 1);
    } else {
      assert FreeSet(fat, from) == {};
    }
  }

  function ClusterSet(s: seq<Cluster>): (r: set<Cluster>)
    ensures forall c :: c in r <==> c in s
  {
    set c | c in s
  }

  lemma {:induction false} DistinctSize(more: seq<Cluster>)
    requires forall i, j :: 0 <= i < j < |more| ==> more[i] != more[j]
    ensures |ClusterSet(more)| == |more|
  {
    hide ClusterSet;
    if more == [] {
      assert ClusterSet(more) == {};
    } else {
      var front, last := more[..|more| - 1], more[|more| - 1];
      DistinctSize(front);
      assert more == front + [last];
      assert forall c :: c in more <==> c in front || c == last;
      assert ClusterSet(more) == ClusterSet(front) + {last};
      assert last !in front;
    }
  }

  /** Linking clusters takes exactly those from the free ones. */
  lemma FreeLeft(fat: seq<nat>, fat': seq<nat>, q: seq<Cluster>, more: seq<Cluster>)
    requires Linked(fat, fat', q, more) && (q == [] || IsChain(fat, q))
    requires forall i :: 0 <= i < |more| ==> Free(fat, more[i])
    requires forall i, j :: 0 <= i < j < |more| ==> more[i] != more[j]
    ensures FreeCount(fat', 2) == FreeCount(fat, 2) - |more|
  {
    hide FreeCount, ClusterSet;
    FreeAfter(fat, fat', q, more);
    DistinctSize(more);
    FreeCountIs(fat, 2);
    FreeCountIs(fat', 2);
    var free, taken := FreeSet(fat, 2), ClusterSet(more);
    assert taken <= free;
    assert free == (free - taken) + taken;
  }

  lemma FreeAfter(fat: seq<nat>, fat': seq<nat>, q: seq<Cluster>, more: seq<Cluster>)
    requires Linked(fat, fat', q, more) && (q == [] || IsChain(fat, q))
    requires forall i :: 0 <= i < |more| ==> Free(fat, more[i])
    ensures FreeSet(fat', 2) == FreeSet(fat, 2) - ClusterSet(more)
  {
    hide ClusterSet;
    var all := q + more;
    if q != [] {
      InUse(fat, q, |q| - 1);
      InUse(fat', all, |q| - 1);
      assert all[|q| - 1] == q[|q| - 1];
    }
    forall c | c in more ensures fat'[c] != 0 {
      var i :| 0 <= i < |more| && more[i] == c;
      assert all[|q| + i] == c;
      InUse(fat', all, |q| + i);
    }
    forall c ensures c in FreeSet(fat', 2) <==> c in FreeSet(fat, 2) && c !in more {
    }
  }

  /** Two extensions, one after the other, are one. */
  lemma LinkedTwice(fat: seq<nat>, fat1: seq<nat>, fat2: seq<nat>, q: seq<Cluster>, more: seq<Cluster>,
                    again: seq<Cluster>)
    requires Linked(fat, fat1, q, more) && Linked(fat1, fat2, q + more, again)
    requires forall i :: 0 <= i < |more| ==> Free(fat, more[i])
    requires forall i :: 0 <= i < |again| ==> Free(fat1, again[i])
    requires q == [] || IsChain(fat, q)
    ensures Linked(fat, fat2, q, more + again)
    ensures forall i :: 0 <= i < |more + again| ==> Free(fat, (more + again)[i])
  {
    var all := q + more;
    assert all + again == q + (more + again);
    forall i | 0 <= i < |again| ensures Free(fat, again[i]) {
      forall j | 0 <= j < |all| ensures all[j] != again[i] {
        InUse(fat1, all, j);
      }
      assert q != [] ==> all[|q| - 1] == q[|q| - 1];
      forall c | c in more ensures c != again[i] {
        var j :| 0 <= j < |more| && more[j] == c;
        assert all[|q| + j] == c;
      }
    }
    forall c | 0 <= c < |fat| && (q == [] || c != q[|q| - 1]) && c !in more + again ensures fat2[c] == fat[c] {
      assert c !in more && c !in again;
    }
  }
}
