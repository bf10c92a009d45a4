/** The counting sort of the Vranic merging pass, as functions on the
    sequence `s` of momentum-cell indices (`s[i]` is the cell of the `i`-th
    particle of the range).  `Grouped(s, m)` lists the particles of cells
    `0 .. m-1`, cell by cell and in index order inside a cell: the order the
    histogram, exclusive scan and scatter loops produce. */
module CellSort {

  /** `0, 1, ..., n-1`. */
  function Iota(n: nat): (r: seq<nat>)
    ensures |r| == n && forall i :: 0 <= i < n ==> r[i] == i
  {
    if n == 0 then [] else Iota(n - 1) + [n - 1]
  }

  /** Every cell index of `s` is below `m`. */
  predicate AllBelow(s: seq<nat>, m: nat) {
    forall i :: 0 <= i < |s| ==> s[i] < m
  }

  /** The positions `i` of `s` with `s[i] == c`, in increasing order. */
  function Bucket(s: seq<nat>, c: nat): seq<nat>
    decreases |s|
  {
    if |s| == 0 then [] else Bucket(s[..|s| - 1], c) + (if s[|s| - 1] == c then [|s| - 1] else [])
  }

  /** The particles of cells `0 .. m-1`, grouped by cell. */
  function Grouped(s: seq<nat>, m: nat): seq<nat> {
    if m == 0 then [] else Grouped(s, m - 1) + Bucket(s, m - 1)
  }

  /** Number of particles in cells `0 .. c-1`: the exclusive prefix sum of
      the histogram at `c`. */
  function Below(s: seq<nat>, c: nat): nat {
    if c == 0 then 0 else Below(s, c - 1) + multiset(s)[c - 1]
  }

  /** Where particle `i` lands: after every particle of a lower cell and
      after the earlier particles of its own cell. */
  function Slot(s: seq<nat>, i: nat): nat
    requires i < |s|
  {
    Below(s, s[i]) + multiset(s[..i])[s[i]]
  }

  /** Particle `i` comes before particle `j`: lower cell, or same cell and
      lower index. */
  predicate KeyLess(s: seq<nat>, i: nat, j: nat)
    requires i < |s| && j < |s|
  {
    s[i] < s[j] || (s[i] == s[j] && i < j)
  }

  /** `order` lists particles of `s` in strictly increasing key order. */
  predicate Ordered(s: seq<nat>, order: seq<nat>) {
    (forall k :: 0 <= k < |order| ==> order[k] < |s|)
    && (forall k1, k2 :: 0 <= k1 < k2 < |order| ==> KeyLess(s, order[k1], order[k2]))
  }

  /** A bucket holds particles of cell `c`, in strictly increasing order. */
  lemma {:induction false} BucketShape(s: seq<nat>, c: nat)
    ensures forall k :: 0 <= k < |Bucket(s, c)| ==> Bucket(s, c)[k] < |s| && s[Bucket(s, c)[k]] == c
    ensures forall k1, k2 :: 0 <= k1 < k2 < |Bucket(s, c)| ==> Bucket(s, c)[k1] < Bucket(s, c)[k2]
    decreases |s|
  {
    if |s| > 0 {
      var s' := s[..|s| - 1];
      BucketShape(s', c);
      assert forall k :: 0 <= k < |Bucket(s', c)| ==> s[Bucket(s', c)[k]] == s'[Bucket(s', c)[k]];
    }
  }

  /** A bucket is as long as the histogram entry of its cell. */
  lemma {:induction false} BucketCount(s: seq<nat>, c: nat)
    ensures |Bucket(s, c)| == multiset(s)[c]
    decreases |s|
  {
    if |s| > 0 {
      var s' := s[..|s| - 1];
      BucketCount(s', c);
      assert s == s' + [s[|s| - 1]];
    }
  }

  /** One more particle joins the end of its own bucket. */
  lemma BucketSnoc(s: seq<nat>, x: nat, c: nat)
    ensures Bucket(s + [x], c) == Bucket(s, c) + (if x == c then [|s|] else [])
  {
    assert (s + [x])[..|s|] == s;
  }

  /** The bucket of a prefix of `s` is a prefix of the bucket of `s`. */
  lemma {:induction false} BucketPrefix(s: seq<nat>, a: nat, c: nat)
    requires a <= |s|
    ensures |Bucket(s[..a], c)| <= |Bucket(s, c)|
    ensures Bucket(s, c)[..|Bucket(s[..a], c)|] == Bucket(s[..a], c)
    decreases |s| - a
  {
    if a < |s| {
      var s' := s[..|s| - 1];
      assert s'[..a] == s[..a];
      BucketPrefix(s', a, c);
    } else {
      assert s[..a] == s;
    }
  }

  lemma {:induction false} GroupedLength(s: seq<nat>, m: nat)
    ensures |Grouped(s, m)| == Below(s, m)
  {
    if m > 0 {
      GroupedLength(s, m - 1);
      BucketCount(s, m - 1);
    }
  }

  /** The exclusive prefix sum grows with the cell. */
  lemma {:induction false} BelowMonotone(s: seq<nat>, c1: nat, c2: nat)
    requires c1 <= c2
    ensures Below(s, c1) <= Below(s, c2)
    decreases c2 - c1
  {
    if c1 < c2 {
      BelowMonotone(s, c1, c2 - 1);
    }
  }

  /** The grouping of the lower cells is a prefix of the grouping. */
  lemma {:induction false} GroupedPrefix(s: seq<nat>, c: nat, m: nat)
    requires c <= m
    ensures |Grouped(s, c)| <= |Grouped(s, m)| && Grouped(s, m)[..|Grouped(s, c)|] == Grouped(s, c)
    decreases m - c
  {
    if c < m {
      GroupedPrefix(s, c, m - 1);
    }
  }

  /** The grouping lists particles in strictly increasing key order (grouped
      by ascending cell, stable inside a cell), all of cells below `m`. */
  lemma {:induction false} GroupedOrdered(s: seq<nat>, m: nat)
    ensures Ordered(s, Grouped(s, m))
    ensures forall k :: 0 <= k < |Grouped(s, m)| ==> s[Grouped(s, m)[k]] < m
  {
    if m > 0 {
      var g, b := Grouped(s, m - 1), Bucket(s, m - 1);
      GroupedOrdered(s, m - 1);
      BucketShape(s, m - 1);
      assert Grouped(s, m) == g + b;
      forall k1, k2 | 0 <= k1 < k2 < |g + b|
        ensures KeyLess(s, (g + b)[k1], (g + b)[k2])
      {
        if k2 < |g| {
          assert (g + b)[k1] == g[k1] && (g + b)[k2] == g[k2];
        } else if k1 < |g| {
          assert (g + b)[k1] == g[k1] && (g + b)[k2] == b[k2 - |g|];
        } else {
          assert (g + b)[k1] == b[k1 - |g|] && (g + b)[k2] == b[k2 - |g|];
        }
      }
    }
  }

  /** One more particle adds its index to the grouping when its cell is
      among the first `m`. */
  lemma {:induction false} GroupedSnoc(s: seq<nat>, x: nat, m: nat)
    ensures multiset(Grouped(s + [x], m)) == multiset(Grouped(s, m)) + (if x < m then multiset{|s| as nat} else multiset{})
  {
    if m > 0 {
      GroupedSnoc(s, x, m - 1);
      BucketSnoc(s, x, m - 1);
    }
  }

  /** When every cell index is below `m`, the grouping is a permutation of
      the particle indices. */
  lemma {:induction false} GroupedPermutation(s: seq<nat>, m: nat)
    requires AllBelow(s, m)
    ensures multiset(Grouped(s, m)) == multiset(Iota(|s|))
    ensures |Grouped(s, m)| == |s|
    decreases |s|
  {
    if |s| > 0 {
      var n := |s| - 1;
      var s', x := s[..n], s[n];
      assert s == s' + [x];
      assert AllBelow(s', m);
      GroupedPermutation(s', m);
      GroupedSnoc(s', x, m);
      assert Iota(|s|) == Iota(n) + [n];
      calc {
        multiset(Grouped(s, m));
        multiset(Grouped(s' + [x], m));
        multiset(Grouped(s', m)) + multiset{n};
        multiset(Iota(n)) + multiset{n};
        multiset(Iota(n) + [n]);
        multiset(Iota(|s|));
      }
      assert |multiset(Grouped(s, m))| == |Grouped(s, m)|;
      assert |multiset(Iota(|s|))| == |s|;
    } else {
      GroupedNone(s, m);
    }
  }

  lemma {:induction false} GroupedNone(s: seq<nat>, m: nat)
    requires |s| == 0
    ensures Grouped(s, m) == []
  {
    if m > 0 {
      GroupedNone(s, m - 1);
    }
  }

  /** Entry `r` of cell `c`'s bucket sits at position `Below(s, c) + r` of
      the grouping. */
  lemma GroupedAt(s: seq<nat>, m: nat, c: nat, r: nat)
    requires c < m && r < |Bucket(s, c)|
    ensures Below(s, c) + r < |Grouped(s, m)| && Grouped(s, m)[Below(s, c) + r] == Bucket(s, c)[r]
  {
    var g, b, whole := Grouped(s, c), Bucket(s, c), Grouped(s, m);
    GroupedLength(s, c);
    GroupedPrefix(s, c + 1, m);
    var upto := Grouped(s, c + 1);
    assert upto == g + b;
    var k := |g| + r;
    assert upto[k] == b[r];
    assert k < |upto| <= |whole| && whole[..|upto|] == upto;
    assert whole[k] == whole[..|upto|][k];
  }

  /** Particle `i` is entry `multiset(s[..i])[s[i]]` of its cell's bucket. */
  lemma BucketRank(s: seq<nat>, i: nat)
    requires i < |s|
    ensures multiset(s[..i])[s[i]] < |Bucket(s, s[i])| && Bucket(s, s[i])[multiset(s[..i])[s[i]]] == i
  {
    var c := s[i];
    assert s[..i + 1] == s[..i] + [c];
    BucketSnoc(s[..i], c, c);
    BucketCount(s[..i], c);
    BucketPrefix(s, i + 1, c);
    var b, r := Bucket(s, c), multiset(s[..i])[c];
    assert b[..r + 1] == Bucket(s[..i], c) + [i];
    assert b[..r + 1][r] == i;
  }

  /** Particle `i` is found at its slot. */
  lemma SlotHolds(s: seq<nat>, m: nat, i: nat)
    requires i < |s| && s[i] < m
    ensures Slot(s, i) < |Grouped(s, m)| && Grouped(s, m)[Slot(s, i)] == i
  {
    BucketRank(s, i);
    GroupedAt(s, m, s[i], multiset(s[..i])[s[i]]);
  }

  /** The segment `[Below(s, c), Below(s, c + 1))` of the grouping holds the
      particles of cell `c`. */
  lemma SegmentCell(s: seq<nat>, m: nat, c: nat, j: nat)
    requires c < m && j < multiset(s)[c]
    ensures Below(s, c) + j < |Grouped(s, m)| && Grouped(s, m)[Below(s, c) + j] < |s|
    ensures s[Grouped(s, m)[Below(s, c) + j]] == c
  {
    BucketCount(s, c);
    BucketShape(s, c);
    GroupedAt(s, m, c, j);
  }

  /** An ordered list holds each particle at most once. */
  lemma OrderedDistinct(s: seq<nat>, order: seq<nat>)
    requires Ordered(s, order)
    ensures forall k1, k2 :: 0 <= k1 < |order| && 0 <= k2 < |order| && k1 != k2 ==> order[k1] != order[k2]
  {
    forall k1, k2 | 0 <= k1 < |order| && 0 <= k2 < |order| && k1 != k2
      ensures order[k1] != order[k2]
    {
      if k1 < k2 {
        assert KeyLess(s, order[k1], order[k2]);
      } else {
        assert KeyLess(s, order[k2], order[k1]);
      }
    }
  }

  /** Distinct particles land at distinct slots. */
  lemma SlotInjective(s: seq<nat>, m: nat, i: nat, j: nat)
    requires i < |s| && j < |s| && s[i] < m && s[j] < m && i != j
    ensures Slot(s, i) != Slot(s, j)
  {
    SlotHolds(s, m, i);
    SlotHolds(s, m, j);
  }

  /** Particle `j` lands inside the range, and on a slot no earlier particle
      took. */
  lemma SlotFresh(s: seq<nat>, m: nat, j: nat)
    requires AllBelow(s, m) && j < |s|
    ensures Slot(s, j) < |s|
    ensures forall i :: 0 <= i < j ==> Slot(s, i) != Slot(s, j)
  {
    GroupedPermutation(s, m);
    SlotHolds(s, m, j);
    forall i | 0 <= i < j
      ensures Slot(s, i) != Slot(s, j)
    {
      SlotInjective(s, m, i, j);
    }
  }

  /** Every position of the grouping is the slot of the particle it holds. */
  lemma SlotOfEntry(s: seq<nat>, m: nat, k: nat)
    requires k < |Grouped(s, m)|
    ensures Grouped(s, m)[k] < |s| && s[Grouped(s, m)[k]] < m && Slot(s, Grouped(s, m)[k]) == k
  {
    GroupedOrdered(s, m);
    OrderedDistinct(s, Grouped(s, m));
    SlotHolds(s, m, Grouped(s, m)[k]);
  }
}
