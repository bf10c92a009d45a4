/** The Vranic merging pass as the source runs it (`MergingVranic::operator()`):
    the extremes of the momenta, the discretisation, the cell directions,
    the cell index of every particle, the counting sort (histogram,
    exclusive scan, scatter) and the merge of the packets of four, each loop
    a method proved against the functions of `VranicSpec`. */
module Vranic {
  import opened Physics
  import opened CellSort
  import opened VranicSpec

  /** The three particle arrays the pass reads and writes, as a value. */
  function Snapshot(weight: array<real>, momentum: array<Vec3>, keys: array<int>): Particles
    reads weight, momentum, keys
  {
    Particles(weight[..], momentum[..], keys[..])
  }

  /** The first `k + 1` values, once the first `k` are known: the running
      extremes of the first loop take one more value. */
  lemma ExtremesSnoc(vs: seq<real>, k: nat)
    requires 0 < k < |vs|
    ensures Lowest(vs[..k + 1]) == Min(Lowest(vs[..k]), vs[k])
    ensures Highest(vs[..k + 1]) == Max(Highest(vs[..k]), vs[k])
  {
    assert vs[..k + 1][..k] == vs[..k];
  }

  /** `ns`, `ts` and `ps` are the norms, azimuths and elevations of the
      momenta `m`, as the first loop computes them. */
  ghost predicate AnglesOf(t: Tables, g: Geometry, m: seq<Vec3>, ns: seq<real>, ts: seq<real>, ps: seq<real>) {
    && |ns| == |m| && |ts| == |m| && |ps| == |m|
    && (forall k :: 0 <= k < |m| ==> ns[k] == Sqrt(t, NormSq(m[k])))
    && (forall k :: 0 <= k < |m| ==> ts[k] == g.atan2(m[k].y, m[k].x))
    && (forall k :: 0 <= k < |m| ==> ps[k] == g.asin(Quotient(m[k].z, Sqrt(t, NormSq(m[k])))))
  }

  lemma AnglesOfRange(t: Tables, g: Geometry, m: seq<Vec3>)
    ensures AnglesOf(t, g, m, Norms(t, m), Azimuths(g, m), Elevations(t, g, m))
  {
  }

  /** `lo` and `hi` are the extremes of the first `k` values. */
  ghost predicate Scanned(vs: seq<real>, k: nat, lo: real, hi: real) {
    0 < k <= |vs| && lo == Lowest(vs[..k]) && hi == Highest(vs[..k])
  }

  /** The first `n` azimuths and elevations are stored. */
  ghost predicate Stored(theta: array<real>, phi: array<real>, ts: seq<real>, ps: seq<real>, n: nat)
    reads theta, phi
  {
    n <= theta.Length && n <= phi.Length && n <= |ts| && n <= |ps|
    && (forall k :: 0 <= k < n ==> theta[k] == ts[k])
    && (forall k :: 0 <= k < n ==> phi[k] == ps[k])
  }

  /** `s` holds the cell index of every momentum of `m`, from its norm and
      from the azimuths `ts` and elevations `ps`, on the axes `a`. */
  ghost predicate IndexedBy(t: Tables, a: Axes, m: seq<Vec3>, ts: seq<real>, ps: seq<real>, s: seq<nat>) {
    && |ts| == |m| && |ps| == |m| && |s| == |m|
    && forall k :: 0 <= k < |m| ==>
         s[k] == CellOf(DimsOf(a), Bin(a.r, Sqrt(t, NormSq(m[k]))), Bin(a.theta, ts[k]), Bin(a.phi, ps[k]))
  }

  lemma IndexedByRange(t: Tables, g: Geometry, m: seq<Vec3>)
    requires |m| > 0
    ensures IndexedBy(t, AxesOf(t, g, m), m, Azimuths(g, m), Elevations(t, g, m), CellIndices(t, g, m))
  {
    forall k | 0 <= k < |m|
      ensures CellIndices(t, g, m)[k] == CellOf(DimsOf(AxesOf(t, g, m)), Bin(AxesOf(t, g, m).r, Sqrt(t, NormSq(m[k]))),
                                                Bin(AxesOf(t, g, m).theta, Azimuths(g, m)[k]),
                                                Bin(AxesOf(t, g, m).phi, Elevations(t, g, m)[k]))
    {
      CellIndexAt(t, g, m, k);
    }
  }

  /** The merge loops step from the last `phi` cell to the next `theta`
      row, and from the last `theta` row to the next `mr` shell. */
  lemma CellOfCarry(dims: seq<nat>, mr: nat, th: nat)
    requires |dims| == 3
    ensures CellOf(dims, mr, th, dims[2]) == CellOf(dims, mr, th + 1, 0)
    ensures CellOf(dims, mr, dims[1], 0) == CellOf(dims, mr + 1, 0, 0)
  {
    assert (th + 1) * dims[2] == th * dims[2] + dims[2];
    assert (mr + 1) * dims[1] == mr * dims[1] + dims[1];
    assert (mr * dims[1] + dims[1]) * dims[2] == mr * dims[1] * dims[2] + dims[1] * dims[2];
  }

  /** Cell `CellOf(dims, mr, th, ph)` has the angular part `th * dims[2] + ph`. */
  lemma AngularPart(dims: seq<nat>, mr: nat, th: nat, ph: nat)
    requires |dims| == 3 && th < dims[1] && ph < dims[2]
    ensures th * dims[2] + ph < dims[1] * dims[2]
    ensures CellOf(dims, mr, th, ph) % (dims[1] * dims[2]) == th * dims[2] + ph
  {
    MulBelow(th, dims[1], dims[2]);
    MulAssoc(mr, dims[1], dims[2]);
    DivModUnique(CellOf(dims, mr, th, ph), dims[1] * dims[2], mr, th * dims[2] + ph);
  }

  class MergingVranic {
    /** `merging_ppc_min_threshold_`. */
    const threshold: nat
    /** The square root of the C library. */
    const tables: Tables
    /** The trigonometric functions of the C library. */
    const geometry: Geometry
    /** `dimensions_`: the number of cells along the momentum norm, the
        azimuth and the elevation. */
    var dimensions: seq<nat>

    constructor (threshold: nat, tables: Tables, geometry: Geometry, dimensions: seq<nat>)
      ensures this.threshold == threshold && this.tables == tables && this.geometry == geometry
      ensures this.dimensions == dimensions
    {
      this.threshold := threshold;
      this.tables := tables;
      this.geometry := geometry;
      this.dimensions := dimensions;
    }

    /** The first loop: the extremes of the norms, azimuths and elevations
        of the momenta of the range, starting from its first particle, and
        the azimuth and elevation of every particle. */
    method Extremes(momentum: array<Vec3>, istart: nat, iend: nat, ghost ns: seq<real>, ghost ts: seq<real>, ghost ps: seq<real>)
      returns (mrMin: real, mrMax: real, thetaMin: real, thetaMax: real, phiMin: real, phiMax: real,
               theta: array<real>, phi: array<real>)
      requires istart < iend <= momentum.Length
      requires AnglesOf(tables, geometry, momentum[istart..iend], ns, ts, ps)
      ensures fresh(theta) && fresh(phi)
      ensures mrMin == Lowest(ns) && mrMax == Highest(ns)
      ensures thetaMin == Lowest(ts) && thetaMax == Highest(ts)
      ensures phiMin == Lowest(ps) && phiMax == Highest(ps)
      ensures theta[..] == ts && phi[..] == ps
    {
      ghost var m := momentum[istart..iend];
      theta := new real[iend - istart];
      phi := new real[iend - istart];
      assert momentum[istart] == m[0];
      var momentumNorm := AnglesStep(momentum, theta, phi, istart, istart, ts, ps);
      mrMin := momentumNorm;
      mrMax := mrMin;
      thetaMin := theta[0];
      phiMin := phi[0];
      thetaMax := thetaMin;
      phiMax := phiMin;
      assert ns[..1] == [ns[0]] && ts[..1] == [ts[0]] && ps[..1] == [ps[0]];
      for ipart := istart + 1 to iend
        invariant Stored(theta, phi, ts, ps, ipart - istart)
        invariant Scanned(ns, ipart - istart, mrMin, mrMax)
        invariant Scanned(ts, ipart - istart, thetaMin, thetaMax)
        invariant Scanned(ps, ipart - istart, phiMin, phiMax)
      {
        assert momentum[ipart] == m[ipart - istart];
        mrMin, mrMax, thetaMin, thetaMax, phiMin, phiMax :=
          ExtremesStep(momentum, theta, phi, istart, ipart, mrMin, mrMax, thetaMin, thetaMax, phiMin, phiMax, ns, ts, ps);
      }
      assert ns[..iend - istart] == ns && ts[..iend - istart] == ts && ps[..iend - istart] == ps;
    }

    /** The body of the first loop for particle `ipart`. */
    method ExtremesStep(momentum: array<Vec3>, theta: array<real>, phi: array<real>, istart: nat, ipart: nat,
                        mrMin: real, mrMax: real, thetaMin: real, thetaMax: real, phiMin: real, phiMax: real,
                        ghost ns: seq<real>, ghost ts: seq<real>, ghost ps: seq<real>)
      returns (mrMin': real, mrMax': real, thetaMin': real, thetaMax': real, phiMin': real, phiMax': real)
      requires istart < ipart < momentum.Length && theta != phi && theta.Length == phi.Length
      requires ipart - istart < theta.Length && ipart - istart < |ns| && ipart - istart < |ts| && ipart - istart < |ps|
      requires ns[ipart - istart] == Sqrt(tables, NormSq(momentum[ipart]))
      requires ts[ipart - istart] == geometry.atan2(momentum[ipart].y, momentum[ipart].x)
      requires ps[ipart - istart] == geometry.asin(Quotient(momentum[ipart].z, Sqrt(tables, NormSq(momentum[ipart]))))
      requires Stored(theta, phi, ts, ps, ipart - istart)
      requires Scanned(ns, ipart - istart, mrMin, mrMax)
      requires Scanned(ts, ipart - istart, thetaMin, thetaMax)
      requires Scanned(ps, ipart - istart, phiMin, phiMax)
      modifies theta, phi
      ensures Stored(theta, phi, ts, ps, ipart + 1 - istart)
      ensures Scanned(ns, ipart + 1 - istart, mrMin', mrMax')
      ensures Scanned(ts, ipart + 1 - istart, thetaMin', thetaMax')
      ensures Scanned(ps, ipart + 1 - istart, phiMin', phiMax')
    {
      var ip := ipart - istart;
      ExtremesSnoc(ns, ip);
      ExtremesSnoc(ts, ip);
      ExtremesSnoc(ps, ip);
      var momentumNorm := AnglesStep(momentum, theta, phi, istart, ipart, ts, ps);
      mrMin' := Min(mrMin, momentumNorm);
      mrMax' := Max(mrMax, momentumNorm);
      thetaMin' := Min(thetaMin, theta[ip]);
      thetaMax' := Max(thetaMax, theta[ip]);
      phiMin' := Min(phiMin, phi[ip]);
      phiMax' := Max(phiMax, phi[ip]);
    }

    /** The norm of particle `ipart`, and its azimuth and elevation
        stored. */
    method AnglesStep(momentum: array<Vec3>, theta: array<real>, phi: array<real>, istart: nat, ipart: nat,
                      ghost ts: seq<real>, ghost ps: seq<real>) returns (momentumNorm: real)
      requires istart <= ipart < momentum.Length && ipart - istart < theta.Length && theta != phi
      requires theta.Length == phi.Length && ipart - istart < |ts| && ipart - istart < |ps|
      requires ts[ipart - istart] == geometry.atan2(momentum[ipart].y, momentum[ipart].x)
      requires ps[ipart - istart] == geometry.asin(Quotient(momentum[ipart].z, Sqrt(tables, NormSq(momentum[ipart]))))
      requires Stored(theta, phi, ts, ps, ipart - istart)
      modifies theta, phi
      ensures momentumNorm == Sqrt(tables, NormSq(momentum[ipart]))
      ensures Stored(theta, phi, ts, ps, ipart + 1 - istart)
    {
      var ip := ipart - istart;
      momentumNorm := Sqrt(tables, NormSq(momentum[ipart]));
      phi[ip] := geometry.asin(Quotient(momentum[ipart].z, momentumNorm));
      theta[ip] := geometry.atan2(momentum[ipart].y, momentum[ipart].x);
    }

    /** The second step: `dimensions_` reset to 5 cells per axis, each
        maximum widened by 1% of its span, the steps, and every axis whose
        step falls below `1e-10` collapsed to one cell of step 0. */
    method Discretise(mrMin: real, mrMax: real, thetaMin: real, thetaMax: real, phiMin: real, phiMax: real)
      returns (a: Axes)
      modifies this
      ensures a == Axes(AxisOf(mrMin, mrMax), AxisOf(thetaMin, thetaMax), AxisOf(phiMin, phiMax))
      ensures dimensions == DimsOf(a)
    {
      dimensions := [AxisCells, AxisCells, AxisCells];
      var mrTop := mrMax + (mrMax - mrMin) * 0.01;
      var thetaTop := thetaMax + (thetaMax - thetaMin) * 0.01;
      var phiTop := phiMax + (phiMax - phiMin) * 0.01;
      var mrDelta := (mrTop - mrMin) / dimensions[0] as real;
      var thetaDelta := (thetaTop - thetaMin) / dimensions[1] as real;
      var phiDelta := (phiTop - phiMin) / dimensions[2] as real;
      if mrDelta < MinimumDelta {
        mrDelta := 0.0;
        dimensions := dimensions[0 := 1];
      }
      if thetaDelta < MinimumDelta {
        thetaDelta := 0.0;
        dimensions := dimensions[1 := 1];
      }
      if phiDelta < MinimumDelta {
        phiDelta := 0.0;
        dimensions := dimensions[2 := 1];
      }
      a := Axes(Axis(mrMin, mrDelta, dimensions[0]), Axis(thetaMin, thetaDelta, dimensions[1]),
                Axis(phiMin, phiDelta, dimensions[2]));
    }

    /** The `cell_vec` loops: the direction of every angular cell at
        `theta_i * dims[2] + phi_i`. */
    method CellDirections(a: Axes) returns (cellVec: array<Vec3>)
      requires dimensions == DimsOf(a) && a.phi.cells > 0
      ensures fresh(cellVec) && cellVec[..] == Directions(geometry, a)
    {
      ghost var dirs := Directions(geometry, a);
      var d1, d2 := dimensions[1], dimensions[2];
      cellVec := new Vec3[d1 * d2](_ => Vec3(0.0, 0.0, 0.0));
      for thetaI := 0 to d1
        invariant thetaI * d2 <= cellVec.Length
        invariant forall k :: 0 <= k < thetaI * d2 ==> cellVec[k] == dirs[k]
      {
        MulBelow(thetaI, d1, d2);
        for phiI := 0 to d2
          invariant forall k :: 0 <= k < thetaI * d2 + phiI ==> cellVec[k] == dirs[k]
        {
          DirectionAt(geometry, a, thetaI, phiI);
          DirectionStep(cellVec, a, thetaI, phiI, dirs);
        }
        assert (thetaI + 1) * d2 == thetaI * d2 + d2;
      }
      assert d1 * d2 == |dirs| == cellVec.Length;
    }

    /** The body of the `cell_vec` loops for the angular cell
        `(thetaI, phiI)`. */
    method DirectionStep(cellVec: array<Vec3>, a: Axes, thetaI: nat, phiI: nat, ghost dirs: seq<Vec3>)
      requires |dimensions| == 3 && thetaI * dimensions[2] + phiI < cellVec.Length
      requires thetaI * dimensions[2] + phiI < |dirs|
      requires dirs[thetaI * dimensions[2] + phiI] == CellDirection(geometry, a, thetaI, phiI)
      requires forall k :: 0 <= k < thetaI * dimensions[2] + phiI ==> cellVec[k] == dirs[k]
      modifies cellVec
      ensures forall k :: 0 <= k < thetaI * dimensions[2] + phiI + 1 ==> cellVec[k] == dirs[k]
    {
      var icc := thetaI * dimensions[2] + phiI;
      var theta := CellAngle(a.theta, thetaI);
      var phi := CellAngle(a.phi, phiI);
      cellVec[icc] := Vec3(Cos(geometry, phi) * Cos(geometry, theta), Cos(geometry, phi) * Sin(geometry, theta),
                           Sin(geometry, phi));
    }

    /** The index loop: the momentum cell of every particle of the range,
        from its norm and the stored azimuth and elevation. */
    method CellIndexPass(momentum: array<Vec3>, theta: array<real>, phi: array<real>, a: Axes, istart: nat, iend: nat,
                         ghost s: seq<nat>)
      returns (index: array<nat>)
      requires istart < iend <= momentum.Length && dimensions == DimsOf(a)
      requires IndexedBy(tables, a, momentum[istart..iend], theta[..], phi[..], s)
      ensures fresh(index) && index[..] == s
    {
      ghost var m := momentum[istart..iend];
      index := new nat[iend - istart];
      for ipart := istart to iend
        invariant forall k :: 0 <= k < ipart - istart ==> index[k] == s[k]
      {
        assert momentum[ipart] == m[ipart - istart];
        IndexStep(momentum, theta, phi, index, a, istart, ipart, s);
      }
    }

    /** The body of the index loop for particle `ipart`. */
    method IndexStep(momentum: array<Vec3>, theta: array<real>, phi: array<real>, index: array<nat>, a: Axes,
                     istart: nat, ipart: nat, ghost s: seq<nat>)
      requires istart <= ipart < momentum.Length && ipart - istart < theta.Length
      requires theta.Length == phi.Length == index.Length && ipart - istart < |s|
      requires dimensions == DimsOf(a)
      requires s[ipart - istart] == CellOf(DimsOf(a), Bin(a.r, Sqrt(tables, NormSq(momentum[ipart]))),
                                           Bin(a.theta, theta[ipart - istart]), Bin(a.phi, phi[ipart - istart]))
      requires forall k :: 0 <= k < ipart - istart ==> index[k] == s[k]
      modifies index
      ensures forall k :: 0 <= k < ipart + 1 - istart ==> index[k] == s[k]
    {
      var ip := ipart - istart;
      var momentumNorm := Sqrt(tables, NormSq(momentum[ipart]));
      var mrI := Bin(a.r, momentumNorm);
      var thetaI := Bin(a.theta, theta[ip]);
      var phiI := Bin(a.phi, phi[ip]);
      index[ip] := CellOf(dimensions, mrI, thetaI, phiI);
    }

    /** The histogram: the number of particles of every momentum cell. */
    static method Histogram(index: array<nat>) returns (counts: array<nat>)
      requires forall i :: 0 <= i < index.Length ==> index[i] < MomentumCells
      ensures fresh(counts) && counts[..] == Counts(index[..])
    {
      counts := new nat[MomentumCells](_ => 0);
      for ip := 0 to index.Length
        invariant forall c :: 0 <= c < MomentumCells ==> counts[c] == multiset(index[..ip])[c]
      {
        assert index[..ip + 1] == index[..ip] + [index[ip]];
        counts[index[ip]] := counts[index[ip]] + 1;
      }
      assert index[..index.Length] == index[..];
    }

    /** The exclusive scan: the first sorted entry of every cell, the
        counts zeroed on the way for the scatter. */
    static method Scan(counts: array<nat>, ghost s: seq<nat>) returns (first: array<nat>)
      requires counts.Length == MomentumCells && counts[..] == Counts(s)
      modifies counts
      ensures fresh(first) && first[..] == Firsts(s)
      ensures forall c :: 0 <= c < MomentumCells ==> counts[c] == 0
    {
      ghost var fs, cs := Firsts(s), Counts(s);
      first := new nat[MomentumCells](_ => 0);
      for ic := 1 to MomentumCells
        invariant forall c :: 0 <= c < ic ==> first[c] == fs[c]
        invariant forall c :: 0 <= c < ic - 1 ==> counts[c] == 0
        invariant forall c :: ic - 1 <= c < MomentumCells ==> counts[c] == cs[c]
      {
        assert fs[ic] == fs[ic - 1] + cs[ic - 1];
        first[ic] := first[ic - 1] + counts[ic - 1];
        counts[ic - 1] := 0;
      }
      counts[MomentumCells - 1] := 0;
    }

    /** The scatter: every particle `istart + ip` written at the first
        entry of its cell plus the number of its cell's particles placed so
        far, which rebuilds the counts. */
    static method Scatter(index: array<nat>, first: array<nat>, counts: array<nat>, istart: nat) returns (sorted: array<nat>)
      requires forall i :: 0 <= i < index.Length ==> index[i] < MomentumCells
      requires first.Length == MomentumCells && counts.Length == MomentumCells
      requires first != counts && index != counts
      requires first[..] == Firsts(index[..])
      requires forall c :: 0 <= c < MomentumCells ==> counts[c] == 0
      modifies counts
      ensures fresh(sorted) && sorted[..] == Placed(index[..], istart)
      ensures counts[..] == Counts(index[..])
    {
      ghost var s := index[..];
      assert AllBelow(s, MomentumCells);
      GroupedPermutation(s, MomentumCells);
      sorted := new nat[index.Length](_ => 0);
      for ip := 0 to index.Length
        invariant forall c :: 0 <= c < MomentumCells ==> counts[c] == multiset(s[..ip])[c]
        invariant forall i :: 0 <= i < ip ==> Slot(s, i) < sorted.Length && sorted[Slot(s, i)] == istart + i
      {
        ScatterStep(index, first, counts, sorted, istart, ip, s);
      }
      assert s[..index.Length] == s;
      forall k | 0 <= k < sorted.Length
        ensures sorted[k] == Placed(s, istart)[k]
      {
        SlotOfEntry(s, MomentumCells, k);
      }
    }

    /** One particle of the scatter. */
    static method ScatterStep(index: array<nat>, first: array<nat>, counts: array<nat>, sorted: array<nat>, istart: nat, ip: nat,
                       ghost s: seq<nat>)
      requires s == index[..] && AllBelow(s, MomentumCells)
      requires first.Length == MomentumCells && counts.Length == MomentumCells
      requires first != counts && index != counts && sorted != counts && sorted != first && sorted != index
      requires ip < index.Length && sorted.Length == index.Length
      requires first[..] == Firsts(s)
      requires forall c :: 0 <= c < MomentumCells ==> counts[c] == multiset(s[..ip])[c]
      requires forall i :: 0 <= i < ip ==> Slot(s, i) < sorted.Length && sorted[Slot(s, i)] == istart + i
      modifies counts, sorted
      ensures forall c :: 0 <= c < MomentumCells ==> counts[c] == multiset(s[..ip + 1])[c]
      ensures forall i :: 0 <= i < ip + 1 ==> Slot(s, i) < sorted.Length && sorted[Slot(s, i)] == istart + i
    {
      var ic := index[ip];
      SlotFresh(s, MomentumCells, ip);
      sorted[first[ic] + counts[ic]] := istart + ip;
      assert s[..ip + 1] == s[..ip] + [s[ip]];
      counts[ic] := counts[ic] + 1;
    }

    /** The merge loops over the momentum cells, in the order of their
        one-dimensional index `mr * dims[1] * dims[2] + theta * dims[2] + phi`. */
    method MergeAll(weight: array<real>, momentum: array<Vec3>, keys: array<int>, sorted: array<nat>,
                    first: array<nat>, counts: array<nat>, cellVec: array<Vec3>, ghost L: Layout)
      requires weight.Length == momentum.Length == keys.Length && cellVec != momentum
      requires L == Layout(dimensions, cellVec[..], sorted[..], first[..], counts[..]) && Laid(L, weight.Length)
      modifies weight, momentum, keys
      ensures Snapshot(weight, momentum, keys)
           == MergeCells(tables, VranicRule(tables, geometry), L, old(Snapshot(weight, momentum, keys)), Cells(L))
    {
      ghost var st0 := Snapshot(weight, momentum, keys);
      for mrI := 0 to dimensions[0]
        invariant CellOf(dimensions, mrI, 0, 0) <= Cells(L)
        invariant Snapshot(weight, momentum, keys)
               == MergeCells(tables, VranicRule(tables, geometry), L, st0, CellOf(dimensions, mrI, 0, 0))
      {
        CellInRange(dimensions, mrI, 0, 0);
        MergeShell(weight, momentum, keys, sorted, first, counts, cellVec, mrI, L, st0);
      }
    }

    /** The loop over `theta` for the momentum-norm cell `mrI`. */
    method MergeShell(weight: array<real>, momentum: array<Vec3>, keys: array<int>, sorted: array<nat>,
                      first: array<nat>, counts: array<nat>, cellVec: array<Vec3>, mrI: nat,
                      ghost L: Layout, ghost st0: Particles)
      requires weight.Length == momentum.Length == keys.Length && cellVec != momentum
      requires Fits(st0) && |st0.weight| == weight.Length
      requires L == Layout(dimensions, cellVec[..], sorted[..], first[..], counts[..]) && Laid(L, weight.Length)
      requires mrI < dimensions[0] && CellOf(dimensions, mrI, 0, 0) < Cells(L)
      requires Snapshot(weight, momentum, keys)
            == MergeCells(tables, VranicRule(tables, geometry), L, st0, CellOf(dimensions, mrI, 0, 0))
      modifies weight, momentum, keys
      ensures CellOf(dimensions, mrI + 1, 0, 0) <= Cells(L)
      ensures Snapshot(weight, momentum, keys)
           == MergeCells(tables, VranicRule(tables, geometry), L, st0, CellOf(dimensions, mrI + 1, 0, 0))
    {
      for thetaI := 0 to dimensions[1]
        invariant CellOf(dimensions, mrI, thetaI, 0) <= Cells(L)
        invariant Snapshot(weight, momentum, keys)
               == MergeCells(tables, VranicRule(tables, geometry), L, st0, CellOf(dimensions, mrI, thetaI, 0))
      {
        CellInRange(dimensions, mrI, thetaI, 0);
        MergeRow(weight, momentum, keys, sorted, first, counts, cellVec, mrI, thetaI, L, st0);
        CellOfCarry(dimensions, mrI, thetaI);
      }
      CellOfCarry(dimensions, mrI, 0);
    }

    /** The loop over `phi` for the cells `(mrI, thetaI, .)`. */
    method MergeRow(weight: array<real>, momentum: array<Vec3>, keys: array<int>, sorted: array<nat>,
                    first: array<nat>, counts: array<nat>, cellVec: array<Vec3>, mrI: nat, thetaI: nat,
                    ghost L: Layout, ghost st0: Particles)
      requires weight.Length == momentum.Length == keys.Length && cellVec != momentum
      requires Fits(st0) && |st0.weight| == weight.Length
      requires L == Layout(dimensions, cellVec[..], sorted[..], first[..], counts[..]) && Laid(L, weight.Length)
      requires mrI < dimensions[0] && thetaI < dimensions[1] && CellOf(dimensions, mrI, thetaI, 0) < Cells(L)
      requires Snapshot(weight, momentum, keys)
            == MergeCells(tables, VranicRule(tables, geometry), L, st0, CellOf(dimensions, mrI, thetaI, 0))
      modifies weight, momentum, keys
      ensures CellOf(dimensions, mrI, thetaI, dimensions[2]) <= Cells(L)
      ensures Snapshot(weight, momentum, keys)
           == MergeCells(tables, VranicRule(tables, geometry), L, st0, CellOf(dimensions, mrI, thetaI, dimensions[2]))
    {
      for phiI := 0 to dimensions[2]
        invariant CellOf(dimensions, mrI, thetaI, phiI) <= Cells(L)
        invariant Snapshot(weight, momentum, keys)
               == MergeCells(tables, VranicRule(tables, geometry), L, st0, CellOf(dimensions, mrI, thetaI, phiI))
      {
        CellInRange(dimensions, mrI, thetaI, phiI);
        MergeNextCell(weight, momentum, keys, sorted, first, counts, cellVec, mrI, thetaI, phiI, L, st0);
      }
    }

    /** The loop step over the cells: cells `0 .. ic-1` merged become cells
        `0 .. ic` merged, for the cell `ic` of `(mrI, thetaI, phiI)`. */
    method MergeNextCell(weight: array<real>, momentum: array<Vec3>, keys: array<int>, sorted: array<nat>,
                         first: array<nat>, counts: array<nat>, cellVec: array<Vec3>, mrI: nat, thetaI: nat, phiI: nat,
                         ghost L: Layout, ghost st0: Particles)
      requires weight.Length == momentum.Length == keys.Length && cellVec != momentum
      requires Fits(st0) && |st0.weight| == weight.Length
      requires L == Layout(dimensions, cellVec[..], sorted[..], first[..], counts[..]) && Laid(L, weight.Length)
      requires mrI < dimensions[0] && thetaI < dimensions[1] && phiI < dimensions[2]
      requires CellOf(dimensions, mrI, thetaI, phiI) < Cells(L)
      requires Snapshot(weight, momentum, keys)
            == MergeCells(tables, VranicRule(tables, geometry), L, st0, CellOf(dimensions, mrI, thetaI, phiI))
      modifies weight, momentum, keys
      ensures Snapshot(weight, momentum, keys)
           == MergeCells(tables, VranicRule(tables, geometry), L, st0, CellOf(dimensions, mrI, thetaI, phiI) + 1)
    {
      var d1, d2 := dimensions[1], dimensions[2];
      var icc := thetaI * d2 + phiI;
      var ic := mrI * d1 * d2 + icc;
      AngularPart(dimensions, mrI, thetaI, phiI);
      MergeCellAt(weight, momentum, keys, sorted, first, counts, cellVec, ic, icc, L);
    }

    /** One momentum cell: a cell of at least four particles has its
        `count / 4` packets merged, one after the other. */
    method MergeCellAt(weight: array<real>, momentum: array<Vec3>, keys: array<int>, sorted: array<nat>,
                       first: array<nat>, counts: array<nat>, cellVec: array<Vec3>, ic: nat, icc: nat, ghost L: Layout)
      requires weight.Length == momentum.Length == keys.Length && cellVec != momentum
      requires L == Layout(dimensions, cellVec[..], sorted[..], first[..], counts[..]) && Laid(L, weight.Length)
      requires ic < Cells(L) && icc == ic % (dimensions[1] * dimensions[2])
      modifies weight, momentum, keys
      ensures Snapshot(weight, momentum, keys)
           == MergeCell(tables, VranicRule(tables, geometry), L, old(Snapshot(weight, momentum, keys)), ic)
    {
      if counts[ic] >= 4 {
        var npack := counts[ic] / 4;
        MergeCellPackets(weight, momentum, keys, sorted, first[ic], ic, npack, cellVec[icc], L);
      }
    }

    /** The packet loop of cell `ic`: its first `npack` packets merged, in
        order. */
    method MergeCellPackets(weight: array<real>, momentum: array<Vec3>, keys: array<int>, sorted: array<nat>,
                            start: nat, ic: nat, npack: nat, d: Vec3, ghost L: Layout)
      requires weight.Length == momentum.Length == keys.Length
      requires Laid(L, weight.Length) && L.order == sorted[..] && ic < Cells(L) && start == L.first[ic]
      requires d == CellVec(L, ic) && 4 * npack <= L.counts[ic]
      modifies weight, momentum, keys
      ensures Snapshot(weight, momentum, keys)
           == MergePackets(tables, VranicRule(tables, geometry), L, old(Snapshot(weight, momentum, keys)), ic, npack)
    {
      ghost var st0 := Snapshot(weight, momentum, keys);
      ghost var sv := VranicRule(tables, geometry);
      for ipack := 0 to npack
        invariant Snapshot(weight, momentum, keys) == MergePackets(tables, sv, L, st0, ic, ipack)
      {
        MergeNextPacket(weight, momentum, keys, sorted, start, ic, ipack, d, L, st0);
      }
    }

    /** The loop step over the packets of cell `ic`: packets `0 .. ipack-1`
        merged become packets `0 .. ipack` merged. */
    method MergeNextPacket(weight: array<real>, momentum: array<Vec3>, keys: array<int>, sorted: array<nat>,
                           start: nat, ic: nat, ipack: nat, d: Vec3, ghost L: Layout, ghost st0: Particles)
      requires weight.Length == momentum.Length == keys.Length && Fits(st0) && |st0.weight| == weight.Length
      requires Laid(L, weight.Length) && L.order == sorted[..] && ic < Cells(L) && start == L.first[ic]
      requires d == CellVec(L, ic) && 4 * ipack + 4 <= L.counts[ic]
      requires Snapshot(weight, momentum, keys) == MergePackets(tables, VranicRule(tables, geometry), L, st0, ic, ipack)
      modifies weight, momentum, keys
      ensures Snapshot(weight, momentum, keys) == MergePackets(tables, VranicRule(tables, geometry), L, st0, ic, ipack + 1)
    {
      QuadWithin(L, weight.Length, ic, ipack);
      MergePacketAt(weight, momentum, keys, sorted, start, ipack, d, Quad(L, ic, ipack));
    }

    /** One packet of four, the sorted entries `start + 4 * ipack ..` holding
        the particles `quad`: its totals, the two merged particles written
        over the first two, and the last two tagged with cell key -1. */
    method MergePacketAt(weight: array<real>, momentum: array<Vec3>, keys: array<int>, sorted: array<nat>,
                         start: nat, ipack: nat, d: Vec3, ghost quad: seq<nat>)
      requires weight.Length == momentum.Length == keys.Length
      requires start + 4 * ipack + 4 <= sorted.Length && quad == sorted[start + 4 * ipack .. start + 4 * ipack + 4]
      requires forall i :: 0 <= i < 4 ==> quad[i] < weight.Length
      modifies weight, momentum, keys
      ensures Snapshot(weight, momentum, keys)
           == PacketUpdate(tables, VranicRule(tables, geometry), d, old(Snapshot(weight, momentum, keys)), quad)
    {
      ghost var st := Snapshot(weight, momentum, keys);
      var totalWeight, totalMomentum, totalEnergy := PacketTotals(weight, momentum, sorted, start, ipack, st, quad);
      var a, b := Survive(d, totalWeight, totalMomentum, totalEnergy);
      VranicRuleIs(tables, geometry, d, totalWeight, totalMomentum, totalEnergy);
      PacketUpdateFrom(tables, VranicRule(tables, geometry), d, st, quad, totalWeight, a, b);
      WritePacket(weight, momentum, keys, sorted, start, ipack, quad, 0.5 * totalWeight, a, b);
    }

    /** The writes of a merged packet: half the total weight and one merged
        momentum to each of the first two particles, the key -1 to the last
        two. */
    method WritePacket(weight: array<real>, momentum: array<Vec3>, keys: array<int>, sorted: array<nat>,
                       start: nat, ipack: nat, ghost quad: seq<nat>, w: real, a: Vec3, b: Vec3)
      requires weight.Length == momentum.Length == keys.Length
      requires start + 4 * ipack + 4 <= sorted.Length && quad == sorted[start + 4 * ipack .. start + 4 * ipack + 4]
      requires forall i :: 0 <= i < 4 ==> quad[i] < weight.Length
      modifies weight, momentum, keys
      ensures Snapshot(weight, momentum, keys)
           == Particles(old(weight[..])[quad[0] := w][quad[1] := w], old(momentum[..])[quad[0] := a][quad[1] := b],
                        old(keys[..])[quad[2] := -1][quad[3] := -1])
    {
      var ipart := sorted[start + 4 * ipack];
      assert ipart == quad[0];
      momentum[ipart] := a;
      weight[ipart] := w;
      ipart := sorted[start + 4 * ipack + 1];
      assert ipart == quad[1];
      momentum[ipart] := b;
      weight[ipart] := w;
      ghost var w1, m1 := weight[..], momentum[..];
      for ip := 4 * ipack + 2 to 4 * ipack + 4
        invariant weight[..] == w1 && momentum[..] == m1
        invariant keys[..] == if ip == 4 * ipack + 2 then old(keys[..])
                              else if ip == 4 * ipack + 3 then old(keys[..])[quad[2] := -1]
                              else old(keys[..])[quad[2] := -1][quad[3] := -1]
      {
        ipart := sorted[TagEntry(start, ip)];
        assert ipart == quad[ip - 4 * ipack];
        keys[ipart] := -1;
      }
    }

    /** The totals loop of a packet: its weight, its weighted momentum and
        its weighted energy, summed over its four sorted entries. */
    method PacketTotals(weight: array<real>, momentum: array<Vec3>, sorted: array<nat>, start: nat, ipack: nat,
                        ghost st: Particles, ghost quad: seq<nat>)
      returns (totalWeight: real, totalMomentum: Vec3, totalEnergy: real)
      requires st.weight == weight[..] && st.momentum == momentum[..] && Fits(st)
      requires start + 4 * ipack + 4 <= sorted.Length && quad == sorted[start + 4 * ipack .. start + 4 * ipack + 4]
      requires forall i :: 0 <= i < 4 ==> quad[i] < weight.Length
      ensures totalWeight == WeightOf(st, quad) && totalMomentum == MomentumOf(st, quad)
      ensures totalEnergy == EnergyOf(tables, st, quad)
    {
      totalWeight, totalMomentum, totalEnergy := 0.0, Vec3(0.0, 0.0, 0.0), 0.0;
      for ip := 4 * ipack to 4 * ipack + 4
        invariant totalWeight == WeightOf(st, quad[..ip - 4 * ipack])
        invariant totalMomentum == MomentumOf(st, quad[..ip - 4 * ipack])
        invariant totalEnergy == EnergyOf(tables, st, quad[..ip - 4 * ipack])
      {
        var ipart := sorted[start + ip];
        ghost var k := ip - 4 * ipack;
        assert quad[..k + 1][..k] == quad[..k] && quad[k] == ipart;
        totalWeight := totalWeight + weight[ipart];
        totalMomentum := Add(totalMomentum, Weighted(momentum[ipart], weight[ipart]));
        totalEnergy := totalEnergy + weight[ipart] * Sqrt(tables, 1.0 + NormSq(momentum[ipart]));
      }
      assert quad[..4] == quad;
    }

    /** The two merged momenta: `epsilon_a`, `pa`, `|pt|`, `omega`, `e1`,
        `e2` and the two combinations of Vranic et al. */
    method Survive(d: Vec3, totalWeight: real, totalMomentum: Vec3, totalEnergy: real) returns (a: Vec3, b: Vec3)
      ensures (a, b) == Survivors(tables, geometry, d, totalWeight, totalMomentum, totalEnergy)
    {
      var newMomentumNorm := MergedNorm(tables, totalWeight, totalEnergy);
      var totalMomentumNorm := Sqrt(tables, NormSq(totalMomentum));
      var omega := Omega(geometry, totalWeight, newMomentumNorm, totalMomentumNorm);
      var e1 := Direction(totalMomentum, totalMomentumNorm);
      var e2 := CrossTwice(e1, d);
      var e2Norm := Sqrt(tables, NormSq(e2));
      e2 := Scale(e2, Quotient(1.0, e2Norm));
      a, b := Split(newMomentumNorm, Cos(geometry, omega), Sin(geometry, omega), e1, e2).0,
              Split(newMomentumNorm, Cos(geometry, omega), Sin(geometry, omega), e1, e2).1;
    }
  
    /** `operator()`: a range of more than `threshold` particles is sorted
        into momentum cells and merged cell by cell; the particles outside
        the range, and a smaller range, are left alone. */
    method Apply(weight: array<real>, momentum: array<Vec3>, keys: array<int>, istart: nat, iend: nat)
      requires weight.Length == momentum.Length == keys.Length && istart <= iend <= weight.Length
      modifies this, weight, momentum, keys
      ensures Snapshot(weight, momentum, keys)
           == Pass(tables, geometry, threshold, old(Snapshot(weight, momentum, keys)), istart, iend)
      ensures iend - istart > threshold ==> dimensions == DimsOf(AxesOf(tables, geometry, old(momentum[istart..iend])))
      ensures iend - istart <= threshold ==> dimensions == old(dimensions)
    {
      if iend - istart > threshold {
        ghost var st0 := Snapshot(weight, momentum, keys);
        var cellVec, sorted, first, counts := Sort(momentum, istart, iend);
        ghost var L := Layout(dimensions, cellVec[..], sorted[..], first[..], counts[..]);
        assert L == LayoutOf(tables, geometry, st0, istart, iend);
        LayoutLaid(tables, geometry, st0, istart, iend);
        MergeAll(weight, momentum, keys, sorted, first, counts, cellVec, L);
      }
    }

    /** The sorting phase: the extremes, the discretisation, the cell
        directions, the cell index of each particle, the histogram, the
        first entry of each cell and the sorted particle indices. */
    method Sort(momentum: array<Vec3>, istart: nat, iend: nat)
      returns (cellVec: array<Vec3>, sorted: array<nat>, first: array<nat>, counts: array<nat>)
      requires istart < iend <= momentum.Length
      modifies this
      ensures fresh(cellVec) && fresh(sorted) && fresh(first) && fresh(counts)
      ensures var m := momentum[istart..iend];
        && dimensions == DimsOf(AxesOf(tables, geometry, m))
        && cellVec[..] == Directions(geometry, AxesOf(tables, geometry, m))
        && sorted[..] == Placed(CellIndices(tables, geometry, m), istart)
        && first[..] == Firsts(CellIndices(tables, geometry, m))
        && counts[..] == Counts(CellIndices(tables, geometry, m))
    {
      ghost var m := momentum[istart..iend];
      AnglesOfRange(tables, geometry, m);
      var mrMin, mrMax, thetaMin, thetaMax, phiMin, phiMax, theta, phi :=
        Extremes(momentum, istart, iend, Norms(tables, m), Azimuths(geometry, m), Elevations(tables, geometry, m));
      var a := Discretise(mrMin, mrMax, thetaMin, thetaMax, phiMin, phiMax);
      assert a == AxesOf(tables, geometry, m);
      cellVec := CellDirections(a);
      IndexedByRange(tables, geometry, m);
      var index := CellIndexPass(momentum, theta, phi, a, istart, iend, CellIndices(tables, geometry, m));
      CellIndicesInRange(tables, geometry, m);
      sorted, first, counts := CountingSort(index, istart);
    }

    /** The histogram, its exclusive prefix sum and the scatter of the
        particle indices `istart ..` by cell. */
    static method CountingSort(index: array<nat>, istart: nat) returns (sorted: array<nat>, first: array<nat>, counts: array<nat>)
      requires forall i :: 0 <= i < index.Length ==> index[i] < MomentumCells
      ensures fresh(sorted) && fresh(first) && fresh(counts)
      ensures sorted[..] == Placed(index[..], istart) && first[..] == Firsts(index[..]) && counts[..] == Counts(index[..])
    {
      counts := Histogram(index);
      first := Scan(counts, index[..]);
      sorted := Scatter(index, first, counts, istart);
    }
  }
}
