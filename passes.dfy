/** The shape shared by the per-particle loops of the radiation operators:
    a loop over `[istart, iend)` that rewrites entry `i` of an array with a
    value computed from particle `i` alone, a loop that fills a scratch
    array indexed from `istart`, and the weighted reduction of that scratch
    array.  Stated once over an arbitrary per-particle function. */
module Passes {
  import opened Physics

  /** `s` once a loop over `[istart, i)` has replaced each entry `k` by
      `f(k)`. */
  function Sweep<T>(s: seq<T>, f: int -> T, istart: int, i: int): (r: seq<T>)
    requires 0 <= istart <= i <= |s|
    ensures |r| == |s|
    decreases i - istart
  {
    if i == istart then s else Sweep(s, f, istart, i - 1)[i - 1 := f(i - 1)]
  }

  /** One more step of the loop. */
  lemma SweepNext<T>(s: seq<T>, f: int -> T, istart: int, i: int)
    requires 0 <= istart <= i < |s|
    ensures Sweep(s, f, istart, i + 1) == Sweep(s, f, istart, i)[i := f(i)]
  {
  }

  /** Entries the loop has not reached yet are the original ones. */
  lemma {:induction false} SweepAhead<T>(s: seq<T>, f: int -> T, istart: int, i: int, k: int)
    requires 0 <= istart <= i <= k < |s|
    ensures Sweep(s, f, istart, i)[k] == s[k]
    decreases i - istart
  {
    if i > istart {
      SweepAhead(s, f, istart, i - 1, k);
    }
  }

  /** After the loop, exactly the entries of `[istart, i)` are rewritten. */
  lemma {:induction false} SweepAt<T>(s: seq<T>, f: int -> T, istart: int, i: int)
    requires 0 <= istart <= i <= |s|
    ensures forall k :: istart <= k < i ==> Sweep(s, f, istart, i)[k] == f(k)
    ensures forall k :: 0 <= k < |s| && !(istart <= k < i) ==> Sweep(s, f, istart, i)[k] == s[k]
    decreases i - istart
  {
    if i > istart {
      SweepAt(s, f, istart, i - 1);
    }
  }

  /** What a swept sequence holds inside the range, read off an equation. */
  lemma SweptRange<T>(r: seq<T>, s: seq<T>, f: int -> T, istart: int, i: int)
    requires 0 <= istart <= i <= |s| && r == Sweep(s, f, istart, i)
    ensures forall k :: istart <= k < i ==> r[k] == f(k)
  {
    SweepAt(s, f, istart, i);
  }

  /** A loop whose every step leaves its entry as it was changes nothing. */
  lemma {:induction false} SweepIdentity<T>(s: seq<T>, f: int -> T, istart: int, i: int)
    requires 0 <= istart <= i <= |s|
    requires forall k :: istart <= k < i ==> f(k) == s[k]
    ensures Sweep(s, f, istart, i) == s
    decreases i - istart
  {
    if i > istart {
      SweepIdentity(s, f, istart, i - 1);
    }
  }

  /** An array that holds `f(k)` on `[istart, i)` and its original entries
      elsewhere is the swept one. */
  lemma SweepFrom<T>(r: seq<T>, s: seq<T>, f: int -> T, istart: int, i: int)
    requires 0 <= istart <= i <= |s| == |r|
    requires forall k :: istart <= k < i ==> r[k] == f(k)
    requires forall k :: 0 <= k < |s| && !(istart <= k < i) ==> r[k] == s[k]
    ensures r == Sweep(s, f, istart, i)
  {
    SweepAt(s, f, istart, i);
  }

  /** Sweeping forgets the entries it rewrites: two arrays that agree
      outside `[istart, i)` sweep to the same one. */
  lemma SweepOver<T>(r: seq<T>, s: seq<T>, f: int -> T, istart: int, i: int)
    requires 0 <= istart <= i <= |s| == |r|
    requires forall k :: 0 <= k < |s| && !(istart <= k < i) ==> r[k] == s[k]
    ensures Sweep(r, f, istart, i) == Sweep(s, f, istart, i)
  {
    SweepAt(r, f, istart, i);
    SweepAt(s, f, istart, i);
  }

  /** A second sweep over the same range overwrites the first. */
  lemma SweepTwice<T>(s: seq<T>, f: int -> T, g: int -> T, istart: int, i: int)
    requires 0 <= istart <= i <= |s|
    ensures Sweep(Sweep(s, f, istart, i), g, istart, i) == Sweep(s, g, istart, i)
  {
    SweepAt(s, f, istart, i);
    SweepOver(Sweep(s, f, istart, i), s, g, istart, i);
  }

  /** `[f(istart), ..., f(iend - 1)]`: a scratch array indexed from
      `istart` once the loop has filled it. */
  function Table<T>(f: int -> T, istart: int, iend: int): (r: seq<T>)
    requires istart <= iend
    ensures |r| == iend - istart
    decreases iend - istart
  {
    if iend == istart then [] else Table(f, istart, iend - 1) + [f(iend - 1)]
  }

  lemma {:induction false} TableAt<T>(f: int -> T, istart: int, iend: int)
    requires istart <= iend
    ensures forall k :: 0 <= k < iend - istart ==> Table(f, istart, iend)[k] == f(istart + k)
    decreases iend - istart
  {
    if iend > istart {
      TableAt(f, istart, iend - 1);
    }
  }

  /** `sum_k w[k]*e[k]`, added in index order as the reduction loops do. */
  function WeightedSum(w: seq<real>, e: seq<real>): real
    requires |w| == |e|
  {
    if |e| == 0 then 0.0 else WeightedSum(w[..|e| - 1], e[..|e| - 1]) + w[|e| - 1] * e[|e| - 1]
  }

  /** The weighted sum of a table over `[istart, iend)`, each entry weighted
      by the weight of the particle it belongs to. */
  function WeightedTable(w: seq<real>, f: int -> real, istart: int, iend: int): real
    requires 0 <= istart <= iend <= |w|
  {
    WeightedSum(w[istart..iend], Table(f, istart, iend))
  }

  /** One more particle adds its weighted entry to the sum. */
  lemma WeightedTableStep(w: seq<real>, f: int -> real, istart: int, iend: int)
    requires 0 <= istart < iend <= |w|
    ensures WeightedTable(w, f, istart, iend) == WeightedTable(w, f, istart, iend - 1) + w[iend - 1] * f(iend - 1)
  {
    assert w[istart..iend][..iend - 1 - istart] == w[istart..iend - 1];
    assert Table(f, istart, iend)[..iend - 1 - istart] == Table(f, istart, iend - 1);
  }

  lemma {:induction false} WeightedTableNonNegative(w: seq<real>, f: int -> real, istart: int, iend: int)
    requires 0 <= istart <= iend <= |w|
    requires forall i :: istart <= i < iend ==> w[i] >= 0.0 && f(i) >= 0.0
    ensures WeightedTable(w, f, istart, iend) >= 0.0
    decreases iend - istart
  {
    if iend > istart {
      WeightedTableNonNegative(w, f, istart, iend - 1);
      WeightedTableStep(w, f, istart, iend);
      MulNonNegative(w[iend - 1], f(iend - 1));
    }
  }

  lemma {:induction false} WeightedTableZero(w: seq<real>, f: int -> real, istart: int, iend: int)
    requires 0 <= istart <= iend <= |w|
    requires forall i :: istart <= i < iend ==> f(i) == 0.0
    ensures WeightedTable(w, f, istart, iend) == 0.0
    decreases iend - istart
  {
    if iend > istart {
      WeightedTableZero(w, f, istart, iend - 1);
      WeightedTableStep(w, f, istart, iend);
    }
  }

  /** The weighted sum only sees the table entries of its range. */
  lemma {:induction false} WeightedTableAgree(w: seq<real>, f: int -> real, g: int -> real, istart: int, iend: int)
    requires 0 <= istart <= iend <= |w|
    requires forall i :: istart <= i < iend ==> f(i) == g(i)
    ensures WeightedTable(w, f, istart, iend) == WeightedTable(w, g, istart, iend)
    decreases iend - istart
  {
    if iend > istart {
      WeightedTableAgree(w, f, g, istart, iend - 1);
      WeightedTableStep(w, f, istart, iend);
      WeightedTableStep(w, g, istart, iend);
      var last := iend - 1;
      assert f(last) == g(last);
      assert w[last] * f(last) == w[last] * g(last);
    }
  }

  /** A loop over `[i, iend)` that feeds a state through `step` and stops
      early as soon as `done` holds. */
  function Fold<T>(step: (int, T) -> T, done: T -> bool, i: int, iend: int, b: T): T
    requires i <= iend
    decreases iend - i
  {
    if done(b) || i == iend then b else Fold(step, done, i + 1, iend, step(i, b))
  }

  /** The reduction loop over a scratch array indexed from 0, with the
      weight of entry `k` read at `weight[offset + k]`. */
  method Reduce(weight: array<real>, e: array<real>, offset: int) returns (sum: real)
    requires 0 <= offset && offset + e.Length <= weight.Length
    ensures sum == WeightedSum(weight[offset..offset + e.Length], e[..])
  {
    var n := e.Length;
    sum := 0.0;
    for k := 0 to n
      invariant sum == WeightedSum(weight[offset..offset + k], e[..k])
    {
      assert weight[offset..offset + k + 1][..k] == weight[offset..offset + k];
      assert e[..k + 1][..k] == e[..k];
      sum := sum + weight[offset + k] * e[k];
    }
    assert e[..n] == e[..];
  }
}
