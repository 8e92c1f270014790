/** Files as byte strings: what the clusters of a chain hold, and how FileDescriptor::Write walks along them. */
module FileBytes {
  import opened Common
  import opened FatChains

  /** Every cluster holds bpc items: bytes, or directory entries. */
  predicate Clusters<T>(data: seq<seq<T>>, bpc: nat) {
    bpc > 0 && forall c :: 0 <= c < |data| ==> |data[c]| == bpc
  }

  predicate Within<T>(data: seq<seq<T>>, q: seq<Cluster>) {
    forall i :: 0 <= i < |q| ==> q[i] < |data|
  }

  lemma Position(i: int, n: nat, bpc: nat)
    requires bpc > 0 && 0 <= i < n * bpc
    ensures 0 <= i / bpc < n && 0 <= i % bpc < bpc && i == (i / bpc) * bpc + i % bpc
  {
    Times(n, i / bpc, bpc);
  }

  lemma Times(a: int, b: int, m: nat)
    ensures a <= b ==> a * m <= b * m
  {
  }

  lemma PositionOf(k: nat, off: nat, bpc: nat)
    requires off < bpc
    ensures (k * bpc + off) / bpc == k && (k * bpc + off) % bpc == off
  {
    var i := k * bpc + off;
    assert i == (i / bpc) * bpc + i % bpc;
    Times(i / bpc, k - 1, bpc);
    Times(k + 1, i / bpc, bpc);
  }

  lemma Product(k: nat, n: nat, bpc: nat)
    requires k < n
    ensures k * bpc + bpc <= n * bpc && (k + 1) * bpc == k * bpc + bpc
  {
    assert (k + 1) * bpc <= n * bpc;
  }

  function ItemAt<T>(data: seq<seq<T>>, q: seq<Cluster>, bpc: nat, i: nat): T
    requires Clusters(data, bpc) && Within(data, q) && i < |q| * bpc
  {
    Position(i, |q|, bpc);
    data[q[i / bpc]][i % bpc]
  }

  /** All items in the clusters of a chain, in the chain's order. */
  function Flat<T>(data: seq<seq<T>>, q: seq<Cluster>, bpc: nat): (r: seq<T>)
    requires Clusters(data, bpc) && Within(data, q)
    ensures |r| == |q| * bpc
  {
    seq(|q| * bpc, i requires 0 <= i < |q| * bpc => ItemAt(data, q, bpc, i))
  }

  /** A piece inside one cluster. */
  lemma FlatChunk<T>(data: seq<seq<T>>, q: seq<Cluster>, bpc: nat, k: nat, off: nat, n: nat)
    requires Clusters(data, bpc) && Within(data, q) && k < |q| && off + n <= bpc
    ensures k * bpc + off + n <= |q| * bpc
    ensures Flat(data, q, bpc)[k * bpc + off..k * bpc + off + n] == data[q[k]][off..off + n]
  {
    Product(k, |q|, bpc);
    var flat, a := Flat(data, q, bpc), k * bpc + off;
    var got, want := flat[a..a + n], data[q[k]][off..off + n];
    forall i | 0 <= i < n ensures got[i] == want[i] {
      PositionOf(k, off + i, bpc);
    }
  }

  function Stored<T>(data: seq<seq<T>>, c: Cluster, off: nat, bytes: seq<T>): seq<seq<T>>
    requires c < |data| && off + |bytes| <= |data[c]|
  {
    data[c := data[c][..off] + bytes + data[c][off + |bytes|..]]
  }

  /** Storing inside one cluster of a chain changes just that piece of the file. */
  lemma FlatStore<T>(data: seq<seq<T>>, q: seq<Cluster>, bpc: nat, k: nat, off: nat, bytes: seq<T>)
    requires Clusters(data, bpc) && Within(data, q) && k < |q| && off + |bytes| <= bpc
    requires forall i, j :: 0 <= i < j < |q| ==> q[i] != q[j]
    ensures Clusters(Stored(data, q[k], off, bytes), bpc)
    ensures var a := k * bpc + off; var flat := Flat(data, q, bpc);
            a + |bytes| <= |flat|
            && Flat(Stored(data, q[k], off, bytes), q, bpc) == flat[..a] + bytes + flat[a + |bytes|..]
  {
    Product(k, |q|, bpc);
    var data' := Stored(data, q[k], off, bytes);
    var flat, a := Flat(data, q, bpc), k * bpc + off;
    var flat', want := Flat(data', q, bpc), flat[..a] + bytes + flat[a + |bytes|..];
    forall i | 0 <= i < |flat| ensures flat'[i] == want[i] {
      Position(i, |q|, bpc);
      var b := i / bpc;
      if b < k {
        Product(b, k, bpc);
        assert q[b] != q[k];
      } else if b > k {
        Product(k, b, bpc);
        assert q[b] != q[k];
      }
    }
  }

  lemma FlatMore<T>(data: seq<seq<T>>, q: seq<Cluster>, more: seq<Cluster>, bpc: nat)
    requires Clusters(data, bpc) && Within(data, q) && Within(data, more)
    ensures Within(data, q + more) && |q| * bpc <= |q + more| * bpc
    ensures Flat(data, q + more, bpc)[..|q| * bpc] == Flat(data, q, bpc)
  {
    assert (|q| + |more|) * bpc == |q| * bpc + |more| * bpc;
    forall i | 0 <= i < |q| * bpc ensures Flat(data, q + more, bpc)[i] == Flat(data, q, bpc)[i] {
      Position(i, |q|, bpc);
    }
  }

  /** What a chain holds depends on its own clusters only. */
  lemma FlatSame<T>(data: seq<seq<T>>, data': seq<seq<T>>, q: seq<Cluster>, bpc: nat)
    requires Clusters(data, bpc) && Clusters(data', bpc) && Within(data, q) && |data'| == |data|
    requires forall i :: 0 <= i < |q| ==> data'[q[i]] == data[q[i]]
    ensures Flat(data', q, bpc) == Flat(data, q, bpc)
  {
    forall i | 0 <= i < |q| * bpc ensures Flat(data', q, bpc)[i] == Flat(data, q, bpc)[i] {
      Position(i, |q|, bpc);
    }
  }

  // ----- counting clusters

  function NumCluster(bytes: nat, bpc: nat): nat
    requires bpc > 0
  {
    (bytes + bpc - 1) / bpc
  }

  /** NumCluster rounds up. */
  lemma NumClusterIs(bytes: nat, bpc: nat, c: nat)
    requires bpc > 0
    ensures NumCluster(bytes, bpc) == c <==> (c * bpc - bpc < bytes <= c * bpc)
  {
    var n := NumCluster(bytes, bpc);
    assert bytes + bpc - 1 == n * bpc + (bytes + bpc - 1) % bpc;
    if c < n {
      Product(c, n, bpc);
    } else if n < c {
      Product(n, c, bpc);
    }
  }

  lemma NumClusterLeft(bytes: nat, bpc: nat, j: nat, left: nat)
    requires bpc > 0 && bytes == j * bpc + left && left > 0
    ensures NumCluster(bytes, bpc) > j && NumCluster(left, bpc) == NumCluster(bytes, bpc) - j
  {
    hide NumCluster;
    var n := NumCluster(left, bpc);
    NumClusterIs(left, bpc, n);
    NumClusterIs(left, bpc, 0);
    assert (j + n) * bpc == j * bpc + n * bpc;
    NumClusterIs(bytes, bpc, j + n);
  }

  /** How many times Write moves to a next cluster, when the current one has `room` bytes left. */
  function Advances(room: nat, len: nat, bpc: nat): nat
    requires bpc > 0
  {
    if len <= room then 0 else NumCluster(len - room, bpc)
  }

  /** How many bytes Write stores, and returns: each round takes min(len, room) bytes, not min(len - total, room). */
  function Written(room: nat, len: nat, bpc: nat): nat
    requires bpc > 0
  {
    if len <= room then len else room + Advances(room, len, bpc) * Min(len, bpc)
  }

  /** The exact condition under which Write stores as many bytes as it is asked to. */
  predicate WritesAll(room: nat, len: nat, bpc: nat)
    requires bpc > 0
  {
    len <= room || (room == 0 && len <= bpc) || (len - room) % bpc == 0
  }

  lemma WrittenExact(room: nat, len: nat, bpc: nat)
    requires bpc > 0 && room <= bpc
    ensures Written(room, len, bpc) == len <==> WritesAll(room, len, bpc)
    ensures Written(room, len, bpc) >= len
  {
    if len > room {
      WrittenStraddling(room, len, len - room, bpc);
    }
  }

  lemma WrittenStraddling(room: nat, len: nat, rest: nat, bpc: nat)
    requires 0 < rest == len - room && room <= bpc && bpc > 0
    ensures NumCluster(rest, bpc) * Min(len, bpc) >= rest
    ensures NumCluster(rest, bpc) * Min(len, bpc) == rest <==> (room == 0 && len <= bpc) || rest % bpc == 0
  {
    hide NumCluster;
    var n := NumCluster(rest, bpc);
    NumClusterIs(rest, bpc, n);
    if len < bpc {
      NumClusterIs(rest, bpc, 1);
      assert n == 1;
    } else if rest % bpc == 0 {
      assert rest == (rest / bpc) * bpc;
      NumClusterIs(rest, bpc, rest / bpc);
    } else if n * bpc == rest {
      PositionOf(n, 0, bpc);
    }
  }

  /**
   * Small cases that go wrong, with four bytes to a cluster: two bytes where one fits are counted as three; five at a
   * cluster's end, or six for a new file, as eight; eight at the end of a chain are counted right but move on twice.
   */
  lemma WriteTooMuch()
    ensures Written(1, 2, 4) == 3 && Written(0, 5, 4) == 8 && Written(4, 6, 4) == 8
    ensures Written(0, 8, 4) == 8 && Advances(0, 8, 4) == 2
  {
    NumClusterIs(1, 4, 1);
    NumClusterIs(5, 4, 2);
    NumClusterIs(2, 4, 1);
    NumClusterIs(8, 4, 2);
  }

  function Triangle(n: nat): (r: nat)
    ensures r >= n
  {
    if n == 0 then 0 else n + Triangle(n - 1)
  }

  lemma {:induction false} TriangleGrows(m: nat, n: nat)
    requires m <= n
    ensures Triangle(m) <= Triangle(n)
  {
    if m < n {
      TriangleGrows(m, n - 1);
    }
  }
}
