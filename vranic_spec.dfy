/** The Vranic merging pass (`MergingVranic::operator()`) as functions:
    the momentum-cell index of every particle, and the merge of packets of
    four particles of a cell into two.  Module `Vranic` runs the loops of the
    pass and is proved equal to these functions; the lemmas here state what
    the pass promises: every cell index is inside the histogram, and the
    merge keeps the total weight of the particles that stay. */
module VranicSpec {
  import opened Physics
  import opened CellSort

  /** The trigonometric functions of the C library that the pass calls.
      `Valid` lists the only facts about them that the proofs use. */
  datatype Geometry = Geometry(
    atan2: (real, real) -> real,
    asin: real -> real,
    acos: real -> real,
    sin: real -> real,
    cos: real -> real)
  {
    /** `sin^2 + cos^2 == 1`, and `cos` undoes `acos` on `[-1, 1]`. */
    ghost predicate Valid() {
      && (forall x :: Sin(this, x) * Sin(this, x) + Cos(this, x) * Cos(this, x) == 1.0)
      && (forall x :: -1.0 <= x <= 1.0 ==> Cos(this, Acos(this, x)) == x)
    }
  }

  function Sin(g: Geometry, x: real): real { g.sin(x) }
  function Cos(g: Geometry, x: real): real { g.cos(x) }
  function Acos(g: Geometry, x: real): real { g.acos(x) }

  /** Cells per axis before any collapse: `dimensions_` is reset to 5. */
  const AxisCells: nat := 5
  /** `momentum_cells`, taken before any axis collapses. */
  const MomentumCells: nat := 125
  /** `momentum_angular_cells`, taken before any axis collapses. */
  const AngularCells: nat := 25
  /** A discretisation step below this collapses its axis to one cell. */
  const MinimumDelta: real := 0.0000000001

  /** `sqrt(px^2 + py^2 + pz^2)`. */
  function Norm(t: Tables, p: Vec3): real {
    Sqrt(t, NormSq(p))
  }

  /** `atan2(py, px)`. */
  function Azimuth(g: Geometry, p: Vec3): real {
    g.atan2(p.y, p.x)
  }

  /** `a / b`, taken as 0 where IEEE arithmetic would give a NaN or an
      infinity. */
  function Quotient(a: real, b: real): real {
    if b == 0.0 then 0.0 else a / b
  }

  /** `asin(pz / |p|)`. */
  function Elevation(t: Tables, g: Geometry, p: Vec3): real {
    g.asin(Quotient(p.z, Norm(t, p)))
  }

  /** `fmin` and `fmax` on numbers. */
  function Min(a: real, b: real): real {
    if b < a then b else a
  }

  function Max(a: real, b: real): real {
    if a < b then b else a
  }

  /** The running minimum of the first loop, from the first value on. */
  function Lowest(vs: seq<real>): real
    requires |vs| > 0
  {
    if |vs| == 1 then vs[0] else Min(Lowest(vs[..|vs| - 1]), vs[|vs| - 1])
  }

  /** The running maximum of the first loop, from the first value on. */
  function Highest(vs: seq<real>): real
    requires |vs| > 0
  {
    if |vs| == 1 then vs[0] else Max(Highest(vs[..|vs| - 1]), vs[|vs| - 1])
  }

  /** The running extremes bound every value. */
  lemma {:induction false} ExtremesBound(vs: seq<real>)
    requires |vs| > 0
    ensures forall i :: 0 <= i < |vs| ==> Lowest(vs) <= vs[i] <= Highest(vs)
  {
    if |vs| > 1 {
      var front := vs[..|vs| - 1];
      ExtremesBound(front);
      assert forall i :: 0 <= i < |front| ==> vs[i] == front[i];
    }
  }

  /** One axis of the momentum discretisation: its lower end, its step and
      its number of cells. */
  datatype Axis = Axis(lo: real, delta: real, cells: nat)

  /** The discretisation of one axis from the extreme values: the maximum
      widened by 1% of the span, the span cut in 5 steps, and an axis whose
      step is below `1e-10` collapsed to one cell of step 0. */
  function AxisOf(lo: real, hi: real): (r: Axis)
    ensures r.lo == lo
    ensures (r.cells == 1 && r.delta == 0.0) || (r.cells == AxisCells && r.delta >= MinimumDelta)
  {
    var top := hi + (hi - lo) * 0.01;
    var delta := (top - lo) / 5.0;
    if delta < MinimumDelta then Axis(lo, 0.0, 1) else Axis(lo, delta, AxisCells)
  }

  /** `(unsigned int)((x - lo) / delta)`.  On a collapsed axis the quotient
      is not finite, and the model takes cell 0, the only cell of the axis. */
  function Bin(a: Axis, x: real): nat {
    if a.delta == 0.0 then 0
    else
      var q := ((x - a.lo) / a.delta).Floor;
      if q < 0 then 0 else q
  }

  /** The 1% widening keeps the maximum inside the last cell: every value
      between the extremes falls in one of the axis's cells. */
  lemma BinInRange(lo: real, hi: real, x: real)
    requires lo <= x <= hi
    ensures Bin(AxisOf(lo, hi), x) < AxisOf(lo, hi).cells
  {
    var a := AxisOf(lo, hi);
    if a.delta != 0.0 {
      var d := a.delta;
      assert d == (hi + (hi - lo) * 0.01 - lo) / 5.0 && d >= MinimumDelta;
      assert 5.0 * d == (hi - lo) * 1.01;
      assert x - lo < 5.0 * d;
      var q := (x - lo) / d;
      assert q * d == x - lo;
      assert q < 5.0;
    }
  }

  /** The three axes of the discretisation. */
  datatype Axes = Axes(r: Axis, theta: Axis, phi: Axis)

  /** `dimensions_` after the collapses. */
  function DimsOf(a: Axes): seq<nat> {
    [a.r.cells, a.theta.cells, a.phi.cells]
  }

  /** The one-dimensional cell index of the 3-D cell `(mr, theta, phi)`. */
  function CellOf(dims: seq<nat>, mr: nat, th: nat, ph: nat): nat
    requires |dims| == 3
  {
    mr * dims[1] * dims[2] + th * dims[2] + ph
  }

  /** A 3-D cell inside the dimensions has a one-dimensional index below
      their product. */
  lemma CellInRange(dims: seq<nat>, mr: nat, th: nat, ph: nat)
    requires |dims| == 3 && mr < dims[0] && th < dims[1] && ph < dims[2]
    ensures CellOf(dims, mr, th, ph) < dims[0] * dims[1] * dims[2]
  {
    var d0, d1, d2 := dims[0], dims[1], dims[2];
    var a := d1 * d2;
    MulAssoc(mr, d1, d2);
    MulAssoc(d0, d1, d2);
    MulBelow(th, d1, d2);
    assert th * d2 + ph < a;
    MulBelow(mr, d0, a);
  }

  lemma MulAssoc(x: nat, y: nat, z: nat)
    ensures x * y * z == x * (y * z)
  {
  }

  /** `x < y` gives `x * k + k <= y * k`. */
  lemma {:induction false} MulBelow(x: nat, y: nat, k: nat)
    requires x < y
    ensures x * k + k <= y * k
  {
    if k > 0 {
      MulBelow(x, y, k - 1);
      assert x * k == x * (k - 1) + x;
      assert y * k == y * (k - 1) + y;
    }
  }

  /** `x <= y` gives `x * k <= y * k`. */
  lemma {:induction false} MulAtMost(x: nat, y: nat, k: nat)
    requires x <= y
    ensures x * k <= y * k
  {
    if k > 0 {
      MulAtMost(x, y, k - 1);
      assert x * k == x * (k - 1) + x;
      assert y * k == y * (k - 1) + y;
    }
  }

  /** Euclidean division is unique: `q * a + r` with `0 <= r < a` has
      quotient `q` and remainder `r`. */
  lemma DivModUnique(x: nat, a: nat, q: nat, r: nat)
    requires x == q * a + r && r < a
    ensures x / a == q && x % a == r
  {
    var q', r' := x / a, x % a;
    assert x == q' * a + r' && 0 <= r' < a;
    if q' < q {
      MulBelow(q', q, a);
    } else if q < q' {
      MulBelow(q, q', a);
    }
  }

  /** Every axis has 1 or 5 cells, so the cells fit in `momentum_cells`. */
  lemma DimsFit(a: Axes)
    requires a.r.cells <= AxisCells && a.theta.cells <= AxisCells && a.phi.cells <= AxisCells
    ensures DimsOf(a)[0] * DimsOf(a)[1] * DimsOf(a)[2] <= MomentumCells
  {
    var d0, d1, d2 := a.r.cells, a.theta.cells, a.phi.cells;
    MulAtMost(d0, 5, d1);
    MulAtMost(d0 * d1, 25, d2);
  }

  function Norms(t: Tables, m: seq<Vec3>): (r: seq<real>)
    ensures |r| == |m| && forall i :: 0 <= i < |m| ==> r[i] == Norm(t, m[i])
  {
    seq(|m|, i requires 0 <= i < |m| => Norm(t, m[i]))
  }

  function Azimuths(g: Geometry, m: seq<Vec3>): (r: seq<real>)
    ensures |r| == |m| && forall i :: 0 <= i < |m| ==> r[i] == Azimuth(g, m[i])
  {
    seq(|m|, i requires 0 <= i < |m| => Azimuth(g, m[i]))
  }

  function Elevations(t: Tables, g: Geometry, m: seq<Vec3>): (r: seq<real>)
    ensures |r| == |m| && forall i :: 0 <= i < |m| ==> r[i] == Elevation(t, g, m[i])
  {
    seq(|m|, i requires 0 <= i < |m| => Elevation(t, g, m[i]))
  }

  /** The discretisation the pass builds from the momenta of its range. */
  function AxesOf(t: Tables, g: Geometry, m: seq<Vec3>): Axes
    requires |m| > 0
  {
    Axes(AxisOf(Lowest(Norms(t, m)), Highest(Norms(t, m))),
         AxisOf(Lowest(Azimuths(g, m)), Highest(Azimuths(g, m))),
         AxisOf(Lowest(Elevations(t, g, m)), Highest(Elevations(t, g, m))))
  }

  /** The momentum cell of particle `i` of the range. */
  function CellIndex(t: Tables, g: Geometry, m: seq<Vec3>, i: nat): nat
    requires 0 <= i < |m|
  {
    var a := AxesOf(t, g, m);
    CellOf(DimsOf(a), Bin(a.r, Norm(t, m[i])), Bin(a.theta, Azimuth(g, m[i])), Bin(a.phi, Elevation(t, g, m[i])))
  }

  /** `momentum_cell_index` for the whole range. */
  function CellIndices(t: Tables, g: Geometry, m: seq<Vec3>): (s: seq<nat>)
    requires |m| > 0
    ensures |s| == |m| && forall i :: 0 <= i < |m| ==> s[i] == CellIndex(t, g, m, i)
  {
    seq(|m|, i requires 0 <= i < |m| => CellIndex(t, g, m, i))
  }

  /** Every cell index is below the product of the dimensions, and so below
      `momentum_cells`: the histogram write is in bounds. */
  lemma CellIndicesInRange(t: Tables, g: Geometry, m: seq<Vec3>)
    requires |m| > 0
    ensures var d := DimsOf(AxesOf(t, g, m)); d[0] * d[1] * d[2] <= MomentumCells
    ensures forall i :: 0 <= i < |m| ==> CellIndex(t, g, m, i) < MomentumCells
  {
    var a := AxesOf(t, g, m);
    var d := DimsOf(a);
    DimsFit(a);
    ExtremesBound(Norms(t, m));
    ExtremesBound(Azimuths(g, m));
    ExtremesBound(Elevations(t, g, m));
    forall i | 0 <= i < |m|
      ensures CellIndex(t, g, m, i) < MomentumCells
    {
      BinInRange(a.r.lo, Highest(Norms(t, m)), Norm(t, m[i]));
      BinInRange(a.theta.lo, Highest(Azimuths(g, m)), Azimuth(g, m[i]));
      BinInRange(a.phi.lo, Highest(Elevations(t, g, m)), Elevation(t, g, m[i]));
      CellInRange(d, Bin(a.r, Norm(t, m[i])), Bin(a.theta, Azimuth(g, m[i])), Bin(a.phi, Elevation(t, g, m[i])));
    }
  }

  /** The direction of the angular cell `(th, ph)`: the unit vector at the
      middle of the cell (vector `d` of Vranic et al.). */
  function CellDirection(g: Geometry, a: Axes, th: nat, ph: nat): Vec3 {
    UnitVector(g, CellAngle(a.theta, th), CellAngle(a.phi, ph))
  }

  /** The middle of cell `i` of an axis. */
  function CellAngle(ax: Axis, i: nat): real {
    ax.lo + (i as real + 0.5) * ax.delta
  }

  /** The unit vector of azimuth `theta` and elevation `phi`. */
  function UnitVector(g: Geometry, theta: real, phi: real): Vec3 {
    Vec3(Cos(g, phi) * Cos(g, theta), Cos(g, phi) * Sin(g, theta), Sin(g, phi))
  }

  /** Every cell direction is a unit vector. */
  lemma DirectionIsUnit(g: Geometry, a: Axes, th: nat, ph: nat)
    requires g.Valid()
    ensures NormSq(CellDirection(g, a, th, ph)) == 1.0
  {
    var theta, phi := CellAngle(a.theta, th), CellAngle(a.phi, ph);
    var cp, ct, st := Cos(g, phi), Cos(g, theta), Sin(g, theta);
    assert st * st + ct * ct == 1.0;
    assert Sin(g, phi) * Sin(g, phi) + cp * cp == 1.0;
    calc {
      (cp * ct) * (cp * ct) + (cp * st) * (cp * st);
      cp * cp * (st * st + ct * ct);
      cp * cp;
    }
  }

  /** `cell_vec`, indexed by the angular cell `theta_i * dims[2] + phi_i`. */
  function Directions(g: Geometry, a: Axes): (r: seq<Vec3>)
    requires a.phi.cells > 0
    ensures |r| == a.theta.cells * a.phi.cells
    ensures forall icc :: 0 <= icc < |r| ==> r[icc] == CellDirection(g, a, icc / a.phi.cells, icc % a.phi.cells)
  {
    seq(a.theta.cells * a.phi.cells, icc requires 0 <= icc => CellDirection(g, a, icc / a.phi.cells, icc % a.phi.cells))
  }

  /** Entry `th * dims[2] + ph` of `cell_vec` is the direction of the
      angular cell `(th, ph)`. */
  lemma DirectionAt(g: Geometry, a: Axes, th: nat, ph: nat)
    requires th < a.theta.cells && ph < a.phi.cells
    ensures th * a.phi.cells + ph < |Directions(g, a)|
    ensures Directions(g, a)[th * a.phi.cells + ph] == CellDirection(g, a, th, ph)
  {
    MulBelow(th, a.theta.cells, a.phi.cells);
    DivModUnique(th * a.phi.cells + ph, a.phi.cells, th, ph);
  }

  /** What the first loop computes for particle `i`: its norm, azimuth and
      elevation. */
  lemma ParticleAngles(t: Tables, g: Geometry, m: seq<Vec3>, i: nat)
    requires i < |m|
    ensures Norms(t, m)[i] == Sqrt(t, NormSq(m[i]))
    ensures Azimuths(g, m)[i] == g.atan2(m[i].y, m[i].x)
    ensures Elevations(t, g, m)[i] == g.asin(Quotient(m[i].z, Sqrt(t, NormSq(m[i]))))
  {
  }

  /** The cell index of particle `i` from its norm and stored angles. */
  lemma CellIndexAt(t: Tables, g: Geometry, m: seq<Vec3>, i: nat)
    requires i < |m|
    ensures var a := AxesOf(t, g, m);
      CellIndices(t, g, m)[i]
      == CellOf(DimsOf(a), Bin(a.r, Sqrt(t, NormSq(m[i]))), Bin(a.theta, Azimuths(g, m)[i]), Bin(a.phi, Elevations(t, g, m)[i]))
  {
  }

  // ----- Merging -------------------------------------------------------

  /** The particle arrays the pass reads and writes. */
  datatype Particles = Particles(weight: seq<real>, momentum: seq<Vec3>, keys: seq<int>)

  predicate Fits(st: Particles) {
    |st.momentum| == |st.weight| && |st.keys| == |st.weight|
  }

  /** Every entry of `qs` indexes a particle. */
  predicate Within(st: Particles, qs: seq<nat>) {
    forall i :: 0 <= i < |qs| ==> qs[i] < |st.weight|
  }

  /** `total_weight` of the particles `qs`, summed in order. */
  function WeightOf(st: Particles, qs: seq<nat>): real
    requires Fits(st) && Within(st, qs)
  {
    if |qs| == 0 then 0.0 else WeightOf(st, qs[..|qs| - 1]) + st.weight[qs[|qs| - 1]]
  }

  /** `w * p`, component by component. */
  function Weighted(p: Vec3, w: real): Vec3 {
    Vec3(p.x * w, p.y * w, p.z * w)
  }

  function Add(u: Vec3, v: Vec3): Vec3 {
    Vec3(u.x + v.x, u.y + v.y, u.z + v.z)
  }

  /** `total_momentum` of the particles `qs`: the weighted momenta. */
  function MomentumOf(st: Particles, qs: seq<nat>): Vec3
    requires Fits(st) && Within(st, qs)
  {
    if |qs| == 0 then Vec3(0.0, 0.0, 0.0)
    else Add(MomentumOf(st, qs[..|qs| - 1]), Weighted(st.momentum[qs[|qs| - 1]], st.weight[qs[|qs| - 1]]))
  }

  /** The total energy of the particles `qs`: the weighted Lorentz factors
      (`epsilon_t` of Vranic et al.). */
  function EnergyOf(t: Tables, st: Particles, qs: seq<nat>): real
    requires Fits(st) && Within(st, qs)
  {
    if |qs| == 0 then 0.0
    else EnergyOf(t, st, qs[..|qs| - 1]) + st.weight[qs[|qs| - 1]] * Gamma(t, st.momentum[qs[|qs| - 1]])
  }

  /** `total_energy` as the source sums it: the Lorentz factors without
      their weights. */
  function EnergyAsWritten(t: Tables, st: Particles, qs: seq<nat>): real
    requires Fits(st) && Within(st, qs)
  {
    if |qs| == 0 then 0.0
    else EnergyAsWritten(t, st, qs[..|qs| - 1]) + Gamma(t, st.momentum[qs[|qs| - 1]])
  }

  /** `e2` as the source computes it from the unit vector `e1` and the cell
      direction `d`: `d - e1 (e1 . d)`, orthogonal to `e1` but of norm the
      sine of the angle between them. */
  function CrossTwice(e1: Vec3, d: Vec3): Vec3 {
    Vec3(e1.y * e1.y * d.x - e1.x * (e1.y * d.y + e1.z * d.z) + e1.z * e1.z * d.x,
         e1.z * e1.z * d.y - e1.y * (e1.z * d.z + e1.x * d.x) + e1.x * e1.x * d.y,
         e1.x * e1.x * d.z - e1.z * (e1.x * d.x + e1.y * d.y) + e1.y * e1.y * d.z)
  }

  /** The momentum norm `pa` of each merged particle, from the packet's
      total energy and total weight. */
  function MergedNorm(t: Tables, wt: real, et: real): real {
    var e := Quotient(et, wt);
    Sqrt(t, e * e - 1.0)
  }

  /** `pa (c e1 + s e2)` and `pa (c e1 - s e2)`. */
  function Split(pa: real, c: real, s: real, e1: Vec3, e2: Vec3): (Vec3, Vec3) {
    (Vec3(pa * (c * e1.x + s * e2.x), pa * (c * e1.y + s * e2.y), pa * (c * e1.z + s * e2.z)),
     Vec3(pa * (c * e1.x - s * e2.x), pa * (c * e1.y - s * e2.y), pa * (c * e1.z - s * e2.z)))
  }

  /** The unit vector `e1` along the total momentum. */
  function Direction(pt: Vec3, ptn: real): Vec3 {
    Vec3(Quotient(pt.x, ptn), Quotient(pt.y, ptn), Quotient(pt.z, ptn))
  }

  /** The angle `omega = acos(|pt| / (wt pa))` between the total momentum
      and each merged momentum. */
  function Omega(g: Geometry, wt: real, pa: real, ptn: real): real {
    Acos(g, Quotient(ptn, wt * pa))
  }

  function Dot(u: Vec3, v: Vec3): real {
    u.x * v.x + u.y * v.y + u.z * v.z
  }

  /** The unit vector `e2` in the plane of `e1` and `d`, orthogonal to `e1`:
      the source's `e2` divided by its norm. */
  function UnitNormal(t: Tables, e1: Vec3, d: Vec3): Vec3 {
    var e2 := CrossTwice(e1, d);
    Scale(e2, Quotient(1.0, Sqrt(t, NormSq(e2))))
  }

  /** The two merged momenta as the source computes them, from the norm `pa`
      and the norm `ptn` of the total momentum, with `e2` left unnormalised. */
  function SurvivorsAsWritten(g: Geometry, d: Vec3, wt: real, pt: Vec3, pa: real, ptn: real): (Vec3, Vec3) {
    var omega := Omega(g, wt, pa, ptn);
    var e1 := Direction(pt, ptn);
    Split(pa, Cos(g, omega), Sin(g, omega), e1, CrossTwice(e1, d))
  }

  /** The two merged momenta from the norm `pa` and the norm `ptn` of the
      total momentum, with the unit `e2`. */
  function SurvivorsOf(t: Tables, g: Geometry, d: Vec3, wt: real, pt: Vec3, pa: real, ptn: real): (Vec3, Vec3) {
    var omega := Omega(g, wt, pa, ptn);
    var e1 := Direction(pt, ptn);
    Split(pa, Cos(g, omega), Sin(g, omega), e1, UnitNormal(t, e1, d))
  }

  /** The momenta of the two merged particles: both of norm `pa`, at the
      angle `omega` on either side of the total momentum `pt`, in the plane
      of `pt` and the cell direction `d`. */
  function Survivors(t: Tables, g: Geometry, d: Vec3, wt: real, pt: Vec3, et: real): (Vec3, Vec3) {
    SurvivorsOf(t, g, d, wt, pt, MergedNorm(t, wt, et), Sqrt(t, NormSq(pt)))
  }

  /** One component of the survivors' momentum balance. */
  lemma ComponentBalance(wt: real, pa: real, c: real, s: real, e: real, f: real, px: real, ptn: real)
    requires wt * pa != 0.0 && ptn != 0.0
    requires c == ptn / (wt * pa) && e == Quotient(px, ptn)
    ensures pa * (c * e + s * f) * (0.5 * wt) + pa * (c * e - s * f) * (0.5 * wt) == px
  {
    calc {
      pa * (c * e + s * f) * (0.5 * wt) + pa * (c * e - s * f) * (0.5 * wt);
      wt * pa * c * e;
      { assert wt * pa * c == ptn; }
      ptn * e;
      px;
    }
  }

  /** Split with `c == |pt| / (wt pa)` and `e1 == pt / |pt|`, weighted by
      half of `wt`, gives back `pt`. */
  lemma SplitBalance(wt: real, pa: real, c: real, s: real, pt: Vec3, ptn: real, e2: Vec3)
    requires wt * pa != 0.0 && ptn != 0.0 && c == ptn / (wt * pa)
    ensures var ab := Split(pa, c, s, Direction(pt, ptn), e2);
      Add(Weighted(ab.0, 0.5 * wt), Weighted(ab.1, 0.5 * wt)) == pt
  {
    var e1 := Direction(pt, ptn);
    var ab := Split(pa, c, s, e1, e2);
    ComponentBalance(wt, pa, c, s, e1.x, e2.x, pt.x, ptn);
    ComponentBalance(wt, pa, c, s, e1.y, e2.y, pt.y, ptn);
    ComponentBalance(wt, pa, c, s, e1.z, e2.z, pt.z, ptn);
    var w := Add(Weighted(ab.0, 0.5 * wt), Weighted(ab.1, 0.5 * wt));
    assert w.x == pt.x && w.y == pt.y && w.z == pt.z;
  }

  /** A quotient of positive numbers with the numerator at most the
      denominator lies in `(0, 1]`. */
  lemma UnitRatio(a: real, b: real)
    requires 0.0 < a <= b
    ensures 0.0 < Quotient(a, b) <= 1.0
  {
    var x := a / b;
    assert x * b == a;
    assert (x - 1.0) * b == a - b;
  }

  /** The two merged particles, each of half the packet's weight, carry
      the packet's total momentum, as soon as the total momentum is not zero
      and lies within the reach `wt pa` of the merged particles. */
  lemma SurvivorsKeepMomentum(t: Tables, g: Geometry, d: Vec3, wt: real, pt: Vec3, et: real)
    requires t.Valid() && g.Valid()
    requires wt > 0.0 && MergedNorm(t, wt, et) > 0.0 && NormSq(pt) > 0.0
    requires Sqrt(t, NormSq(pt)) <= wt * MergedNorm(t, wt, et)
    ensures var ab := Survivors(t, g, d, wt, pt, et);
      Add(Weighted(ab.0, 0.5 * wt), Weighted(ab.1, 0.5 * wt)) == pt
  {
    var pa := MergedNorm(t, wt, et);
    var ptn := Sqrt(t, NormSq(pt));
    SqrtPositive(t, NormSq(pt));
    var reach := wt * pa;
    assert reach > 0.0;
    var x := Quotient(ptn, reach);
    assert x == ptn / reach;
    UnitRatio(ptn, reach);
    var omega := Omega(g, wt, pa, ptn);
    assert Cos(g, omega) == x;
    var e1 := Direction(pt, ptn);
    SplitBalance(wt, pa, Cos(g, omega), Sin(g, omega), pt, ptn, UnitNormal(t, e1, d));
  }

  /** The source's `e2` is orthogonal to `e1`, whatever their norms. */
  lemma CrossTwiceOrthogonal(e: Vec3, d: Vec3)
    ensures Dot(e, CrossTwice(e, d)) == 0.0
  {
    var f := CrossTwice(e, d);
    var n := NormSq(e);
    var ed := Dot(e, d);
    assert f.x == n * d.x - e.x * ed;
    assert f.y == n * d.y - e.y * ed;
    assert f.z == n * d.z - e.z * ed;
    assert e.x * f.x == n * (e.x * d.x) - (e.x * e.x) * ed;
    assert e.y * f.y == n * (e.y * d.y) - (e.y * e.y) * ed;
    assert e.z * f.z == n * (e.z * d.z) - (e.z * e.z) * ed;
    assert n * (e.x * d.x) + n * (e.y * d.y) + n * (e.z * d.z) == n * ed;
    assert (e.x * e.x) * ed + (e.y * e.y) * ed + (e.z * e.z) * ed == n * ed;
  }

  /** A non-zero vector divided by its norm is a unit vector. */
  lemma Normalised(t: Tables, v: Vec3)
    requires t.Valid() && NormSq(v) > 0.0
    ensures NormSq(Scale(v, Quotient(1.0, Sqrt(t, NormSq(v))))) == 1.0
  {
    var n := Sqrt(t, NormSq(v));
    SqrtPositive(t, NormSq(v));
    NormSqScale(v, 1.0 / n);
    assert (1.0 / n) * (1.0 / n) * (n * n) == 1.0;
  }

  /** `e1 = pt / |pt|` is a unit vector. */
  lemma DirectionUnit(t: Tables, pt: Vec3)
    requires t.Valid() && NormSq(pt) > 0.0
    ensures NormSq(Direction(pt, Sqrt(t, NormSq(pt)))) == 1.0
  {
    var n := Sqrt(t, NormSq(pt));
    SqrtPositive(t, NormSq(pt));
    assert Direction(pt, n) == Scale(pt, Quotient(1.0, n));
    Normalised(t, pt);
  }

  lemma SquareOfSum(c: real, s: real, a: real, b: real)
    ensures (c * a + s * b) * (c * a + s * b) == c * c * (a * a) + 2.0 * c * s * (a * b) + s * s * (b * b)
    ensures (c * a - s * b) * (c * a - s * b) == c * c * (a * a) - 2.0 * c * s * (a * b) + s * s * (b * b)
  {
  }

  /** The squared norm of `c e + s f`. */
  lemma CombinationNorm(c: real, s: real, e: Vec3, f: Vec3)
    ensures NormSq(Vec3(c * e.x + s * f.x, c * e.y + s * f.y, c * e.z + s * f.z))
         == c * c * NormSq(e) + 2.0 * c * s * Dot(e, f) + s * s * NormSq(f)
  {
    var u := Vec3(c * e.x + s * f.x, c * e.y + s * f.y, c * e.z + s * f.z);
    SquareOfSum(c, s, e.x, f.x);
    SquareOfSum(c, s, e.y, f.y);
    SquareOfSum(c, s, e.z, f.z);
    assert u.x * u.x == c * c * (e.x * e.x) + 2.0 * c * s * (e.x * f.x) + s * s * (f.x * f.x);
    assert u.y * u.y == c * c * (e.y * e.y) + 2.0 * c * s * (e.y * f.y) + s * s * (f.y * f.y);
    assert u.z * u.z == c * c * (e.z * e.z) + 2.0 * c * s * (e.z * f.z) + s * s * (f.z * f.z);
    assert NormSq(u) == u.x * u.x + u.y * u.y + u.z * u.z;
    assert NormSq(u)
        == (c * c * (e.x * e.x) + 2.0 * c * s * (e.x * f.x) + s * s * (f.x * f.x))
         + (c * c * (e.y * e.y) + 2.0 * c * s * (e.y * f.y) + s * s * (f.y * f.y))
         + (c * c * (e.z * e.z) + 2.0 * c * s * (e.z * f.z) + s * s * (f.z * f.z));
    Regroup(c * c, 2.0 * c * s, s * s,
            e.x * e.x, e.y * e.y, e.z * e.z,
            e.x * f.x, e.y * f.y, e.z * f.z,
            f.x * f.x, f.y * f.y, f.z * f.z);
    assert NormSq(e) == e.x * e.x + e.y * e.y + e.z * e.z;
    assert NormSq(f) == f.x * f.x + f.y * f.y + f.z * f.z;
  }

  /** Collects three weighted sums by weight. */
  lemma Regroup(p: real, q: real, r: real,
                x1: real, x2: real, x3: real,
                y1: real, y2: real, y3: real,
                z1: real, z2: real, z3: real)
    ensures (p * x1 + q * y1 + r * z1) + (p * x2 + q * y2 + r * z2) + (p * x3 + q * y3 + r * z3)
         == p * (x1 + x2 + x3) + q * (y1 + y2 + y3) + r * (z1 + z2 + z3)
  {
  }

  /** `pa (c e + s f)` has norm `pa` when `e` and `f` are orthogonal unit
      vectors and `c^2 + s^2 == 1`. */
  lemma FirstOnShell(pa: real, c: real, s: real, e: Vec3, f: Vec3)
    requires NormSq(e) == 1.0 && NormSq(f) == 1.0 && Dot(e, f) == 0.0 && c * c + s * s == 1.0
    ensures NormSq(Split(pa, c, s, e, f).0) == pa * pa
  {
    var u := Vec3(c * e.x + s * f.x, c * e.y + s * f.y, c * e.z + s * f.z);
    CombinationNorm(c, s, e, f);
    NormSqScale(u, pa);
    assert Split(pa, c, s, e, f).0 == Scale(u, pa);
  }

  /** `pa (c e + s f)` and `pa (c e - s f)` have norm `pa` when `e` and `f`
      are orthogonal unit vectors and `c^2 + s^2 == 1`. */
  lemma SplitOnShell(pa: real, c: real, s: real, e: Vec3, f: Vec3)
    requires NormSq(e) == 1.0 && NormSq(f) == 1.0 && Dot(e, f) == 0.0 && c * c + s * s == 1.0
    ensures NormSq(Split(pa, c, s, e, f).0) == pa * pa
    ensures NormSq(Split(pa, c, s, e, f).1) == pa * pa
  {
    FirstOnShell(pa, c, s, e, f);
    FirstOnShell(pa, c, -s, e, f);
    assert Split(pa, c, -s, e, f).0 == Split(pa, c, s, e, f).1;
  }

  /** With the unit `e2`, both merged momenta have norm `pa`, as soon as the
      total momentum is not zero and not parallel to the cell direction. */
  lemma SurvivorsOnShell(t: Tables, g: Geometry, d: Vec3, wt: real, pt: Vec3, pa: real)
    requires t.Valid() && g.Valid() && NormSq(pt) > 0.0
    requires NormSq(CrossTwice(Direction(pt, Sqrt(t, NormSq(pt))), d)) > 0.0
    ensures var ab := SurvivorsOf(t, g, d, wt, pt, pa, Sqrt(t, NormSq(pt)));
      NormSq(ab.0) == pa * pa && NormSq(ab.1) == pa * pa
  {
    var ptn := Sqrt(t, NormSq(pt));
    var e1 := Direction(pt, ptn);
    var e2 := CrossTwice(e1, d);
    var k := Quotient(1.0, Sqrt(t, NormSq(e2)));
    DirectionUnit(t, pt);
    Normalised(t, e2);
    CrossTwiceOrthogonal(e1, d);
    assert Dot(e1, Scale(e2, k)) == k * Dot(e1, e2);
    var omega := Omega(g, wt, pa, ptn);
    assert Sin(g, omega) * Sin(g, omega) + Cos(g, omega) * Cos(g, omega) == 1.0;
    SplitOnShell(pa, Cos(g, omega), Sin(g, omega), e1, UnitNormal(t, e1, d));
  }

  /** The split along `e1 = (1, 0, 0)` and the source's `e2 = (0, 0.8, 0)`
      at `pa = 1`, with `cos omega = 0.5`, has squared norm 0.73. */
  lemma OffShellSplit(c: real, s: real)
    requires c == 0.5 && s * s == 0.75
    ensures var ab := Split(1.0, c, s, Vec3(1.0, 0.0, 0.0), Vec3(0.0, 0.8, 0.0));
      NormSq(ab.0) == 0.73 && NormSq(ab.1) == 0.73
  {
    var ab := Split(1.0, c, s, Vec3(1.0, 0.0, 0.0), Vec3(0.0, 0.8, 0.0));
    assert ab.0 == Vec3(0.5, s * 0.8, 0.0);
    assert ab.1 == Vec3(0.5, -(s * 0.8), 0.0);
    assert (s * 0.8) * (s * 0.8) == 0.64 * (s * s);
  }

  /** As written, the merged momenta leave the shell of norm `pa`: a packet
      of total weight 2 and total momentum `(1, 0, 0)`, merged at `pa = 1`
      in the cell of direction `(0.6, 0.8, 0)`, gives two momenta of squared
      norm 0.73. */
  lemma SurvivorsAsWrittenOffShell(g: Geometry, d: Vec3, pt: Vec3)
    requires g.Valid() && d == Vec3(0.6, 0.8, 0.0) && pt == Vec3(1.0, 0.0, 0.0)
    ensures var ab := SurvivorsAsWritten(g, d, 2.0, pt, 1.0, 1.0);
      NormSq(ab.0) == 0.73 && NormSq(ab.1) == 0.73
  {
    assert Direction(pt, 1.0) == pt;
    assert CrossTwice(pt, d) == Vec3(0.0, 0.8, 0.0);
    var omega := Omega(g, 2.0, 1.0, 1.0);
    HalfReach(g);
    OffShellSplit(Cos(g, omega), Sin(g, omega));
  }

  /** A total momentum at half the reach `wt pa` gives `cos omega == 0.5`. */
  lemma HalfReach(g: Geometry)
    requires g.Valid()
    ensures var omega := Omega(g, 2.0, 1.0, 1.0);
      Cos(g, omega) == 0.5 && Sin(g, omega) * Sin(g, omega) == 0.75
  {
    assert Quotient(1.0, 2.0 * 1.0) == 0.5;
  }

  /** `sqrt(e^2) == e` for `e >= 0`. */
  lemma SqrtOfSquare(t: Tables, e: real)
    requires t.Valid() && e >= 0.0
    ensures Sqrt(t, e * e) == e
  {
    var r := Sqrt(t, e * e);
    assert r >= 0.0 && r * r == e * e;
    assert (r - e) * (r + e) == 0.0;
    if r + e > 0.0 {
      NonNegativeFactor(r - e, r + e);
      NonNegativeFactor(e - r, r + e);
    }
  }

  /** With the weighted energy (at least the total weight) and the unit
      `e2`, the two merged particles of weight `wt/2` carry the packet's
      total energy. */
  lemma SurvivorsKeepEnergy(t: Tables, g: Geometry, d: Vec3, wt: real, pt: Vec3, et: real)
    requires t.Valid() && g.Valid() && wt > 0.0 && et >= wt && NormSq(pt) > 0.0
    requires NormSq(CrossTwice(Direction(pt, Sqrt(t, NormSq(pt))), d)) > 0.0
    ensures var ab := Survivors(t, g, d, wt, pt, et);
      0.5 * wt * Gamma(t, ab.0) + 0.5 * wt * Gamma(t, ab.1) == et
  {
    var e := Quotient(et, wt);
    EnergyRatio(wt, et);
    var pa := MergedNorm(t, wt, et);
    assert pa * pa == e * e - 1.0 by {
      assert e * e - 1.0 >= 0.0;
    }
    SurvivorsOnShell(t, g, d, wt, pt, pa);
    SqrtOfSquare(t, e);
    var ab := Survivors(t, g, d, wt, pt, et);
    assert Gamma(t, ab.0) == e && Gamma(t, ab.1) == e;
  }

  /** How the two merged momenta follow from the cell direction and a
      packet's total weight, momentum and energy. */
  type Rule = (Vec3, real, Vec3, real) -> (Vec3, Vec3)

  /** The rule of the pass. */
  function VranicRule(t: Tables, g: Geometry): Rule {
    (d: Vec3, wt: real, pt: Vec3, et: real) => Survivors(t, g, d, wt, pt, et)
  }

  /** Merges the packet `quad`: its first two particles take half of the
      total weight each and the two merged momenta; the last two are tagged
      for removal with cell key -1. */
  function PacketUpdate(t: Tables, sv: Rule, d: Vec3, st: Particles, quad: seq<nat>): (r: Particles)
    requires Fits(st) && |quad| == 4 && Within(st, quad)
    ensures Fits(r) && |r.weight| == |st.weight|
  {
    var wt := WeightOf(st, quad);
    var ab := sv(d, wt, MomentumOf(st, quad), EnergyOf(t, st, quad));
    Particles(st.weight[quad[0] := 0.5 * wt][quad[1] := 0.5 * wt],
              st.momentum[quad[0] := ab.0][quad[1] := ab.1],
              st.keys[quad[2] := -1][quad[3] := -1])
  }

  /** The weight each particle contributes: none once tagged for removal. */
  function Live(st: Particles): (r: seq<real>)
    requires Fits(st)
    ensures |r| == |st.weight|
  {
    seq(|st.weight|, q requires 0 <= q < |st.weight| => if st.keys[q] == -1 then 0.0 else st.weight[q])
  }

  function Sum(s: seq<real>, lo: nat, hi: nat): real
    requires lo <= hi <= |s|
    decreases hi - lo
  {
    if lo == hi then 0.0 else Sum(s, lo, hi - 1) + s[hi - 1]
  }

  /** The weight of the particles `lo .. hi-1` that are not tagged. */
  function Surviving(st: Particles, lo: nat, hi: nat): real
    requires Fits(st) && lo <= hi <= |st.weight|
  {
    Sum(Live(st), lo, hi)
  }

  /** Changing one term changes the sum by the difference. */
  lemma {:induction false} SumUpdate(s: seq<real>, q: nat, v: real, lo: nat, hi: nat)
    requires lo <= hi <= |s| && q < |s|
    ensures Sum(s[q := v], lo, hi) == Sum(s, lo, hi) + (if lo <= q < hi then v - s[q] else 0.0)
    decreases hi - lo
  {
    if lo < hi {
      SumUpdate(s, q, v, lo, hi - 1);
    }
  }

  /** The four particles summed in order. */
  lemma WeightOfFour(st: Particles, quad: seq<nat>)
    requires Fits(st) && |quad| == 4 && Within(st, quad)
    ensures WeightOf(st, quad) == st.weight[quad[0]] + st.weight[quad[1]] + st.weight[quad[2]] + st.weight[quad[3]]
  {
    assert quad[..3][..2] == quad[..2] && quad[..2][..1] == quad[..1] && quad[..1][..0] == [];
    assert WeightOf(st, quad[..1]) == st.weight[quad[0]];
    assert WeightOf(st, quad[..2]) == WeightOf(st, quad[..1]) + st.weight[quad[1]];
    assert WeightOf(st, quad[..3]) == WeightOf(st, quad[..2]) + st.weight[quad[2]];
  }

  /** Particle `q` is the same in both states. */
  predicate Agree(a: Particles, b: Particles, q: nat)
    requires Fits(a) && Fits(b) && q < |a.weight| && q < |b.weight|
  {
    a.weight[q] == b.weight[q] && a.momentum[q] == b.momentum[q] && a.keys[q] == b.keys[q]
  }

  /** A packet that can be merged: four distinct untagged particles of
      `lo .. hi-1`. */
  predicate Mergeable(st: Particles, quad: seq<nat>, lo: nat, hi: nat)
    requires Fits(st)
  {
    && |quad| == 4 && hi <= |st.weight|
    && (forall i :: 0 <= i < 4 ==> lo <= quad[i] < hi && st.keys[quad[i]] != -1)
    && (forall i, j :: 0 <= i < j < 4 ==> quad[i] != quad[j])
  }

  /** Replacing four distinct terms of a sum. */
  lemma SumFour(l: seq<real>, quad: seq<nat>, a: real, b: real, lo: nat, hi: nat)
    requires lo <= hi <= |l| && |quad| == 4
    requires forall i :: 0 <= i < 4 ==> lo <= quad[i] < hi
    requires forall i, j :: 0 <= i < j < 4 ==> quad[i] != quad[j]
    ensures Sum(l[quad[0] := a][quad[1] := b][quad[2] := 0.0][quad[3] := 0.0], lo, hi)
         == Sum(l, lo, hi) + a + b - l[quad[0]] - l[quad[1]] - l[quad[2]] - l[quad[3]]
  {
    var l1 := l[quad[0] := a];
    var l2 := l1[quad[1] := b];
    var l3 := l2[quad[2] := 0.0];
    SumUpdate(l, quad[0], a, lo, hi);
    SumUpdate(l1, quad[1], b, lo, hi);
    SumUpdate(l2, quad[2], 0.0, lo, hi);
    SumUpdate(l3, quad[3], 0.0, lo, hi);
  }

  /** What merging a packet does to the live weights: the first two
      particles carry half of the packet's weight each, the last two carry
      none, and every other particle keeps its own. */
  lemma PacketLive(t: Tables, sv: Rule, d: Vec3, st: Particles, quad: seq<nat>)
    requires Fits(st) && Mergeable(st, quad, 0, |st.weight|)
    ensures var wt := WeightOf(st, quad);
      Live(PacketUpdate(t, sv, d, st, quad)) == Live(st)[quad[0] := 0.5 * wt][quad[1] := 0.5 * wt][quad[2] := 0.0][quad[3] := 0.0]
  {
  }

  /** Merging a packet changes no particle outside it. */
  lemma PacketFrame(t: Tables, sv: Rule, d: Vec3, st: Particles, quad: seq<nat>)
    requires Fits(st) && |quad| == 4 && Within(st, quad)
    ensures forall q :: 0 <= q < |st.weight| && q !in quad ==> Agree(PacketUpdate(t, sv, d, st, quad), st, q)
  {
  }

  /** Merging a packet keeps the weight of the particles that stay: the two
      merged particles carry the weight of all four. */
  lemma PacketKeepsWeight(t: Tables, sv: Rule, d: Vec3, st: Particles, quad: seq<nat>, lo: nat, hi: nat)
    requires Fits(st) && lo <= hi && Mergeable(st, quad, lo, hi)
    ensures Surviving(PacketUpdate(t, sv, d, st, quad), lo, hi) == Surviving(st, lo, hi)
  {
    var wt := WeightOf(st, quad);
    var l := Live(st);
    WeightOfFour(st, quad);
    PacketLive(t, sv, d, st, quad);
    SumFour(l, quad, 0.5 * wt, 0.5 * wt, lo, hi);
    assert l[quad[0]] + l[quad[1]] + l[quad[2]] + l[quad[3]] == wt;
  }

  /** Where the sort put the particles: the dimensions after collapse, the
      cell directions, the sorted particle indices `order`, and for each
      momentum cell its first entry in `order` and its number of particles. */
  datatype Layout = Layout(dims: seq<nat>, directions: seq<Vec3>, order: seq<nat>, first: seq<nat>, counts: seq<nat>)

  /** The number of momentum cells after collapse. */
  function Cells(L: Layout): nat
    requires |L.dims| == 3
  {
    L.dims[0] * L.dims[1] * L.dims[2]
  }

  /** A layout over `n` particles: each cell's segment lies inside `order`,
      later cells' segments come after earlier ones, and `order` lists
      distinct particles. */
  predicate Laid(L: Layout, n: nat) {
    && |L.dims| == 3 && L.dims[1] > 0 && L.dims[2] > 0
    && |L.directions| == L.dims[1] * L.dims[2]
    && Cells(L) <= |L.first| && |L.counts| == |L.first|
    && (forall c :: 0 <= c < Cells(L) ==> L.first[c] + L.counts[c] <= |L.order|)
    && (forall c1, c2 :: 0 <= c1 < c2 < Cells(L) ==> L.first[c1] + L.counts[c1] <= L.first[c2])
    && (forall k :: 0 <= k < |L.order| ==> L.order[k] < n)
    && (forall k1, k2 :: 0 <= k1 < |L.order| && 0 <= k2 < |L.order| && k1 != k2 ==> L.order[k1] != L.order[k2])
  }

  /** The particles of packet `k` of cell `c`: sorted entries `4k .. 4k+3`
      of the cell's segment. */
  function Quad(L: Layout, c: nat, k: nat): (r: seq<nat>)
    requires c < |L.first| && L.first[c] + 4 * k + 4 <= |L.order|
    ensures |r| == 4 && forall i :: 0 <= i < 4 ==> r[i] == L.order[L.first[c] + 4 * k + i]
  {
    L.order[L.first[c] + 4 * k .. L.first[c] + 4 * k + 4]
  }

  /** The rule of the pass gives the momenta of `Survivors`. */
  lemma VranicRuleIs(t: Tables, g: Geometry, d: Vec3, wt: real, pt: Vec3, et: real)
    ensures VranicRule(t, g)(d, wt, pt, et) == Survivors(t, g, d, wt, pt, et)
  {
  }

  /** The packet update from its totals and the rule's two momenta. */
  lemma PacketUpdateFrom(t: Tables, sv: Rule, d: Vec3, st: Particles, quad: seq<nat>, wt: real, a: Vec3, b: Vec3)
    requires Fits(st) && |quad| == 4 && Within(st, quad)
    requires wt == WeightOf(st, quad) && sv(d, wt, MomentumOf(st, quad), EnergyOf(t, st, quad)) == (a, b)
    ensures PacketUpdate(t, sv, d, st, quad)
         == Particles(st.weight[quad[0] := 0.5 * wt][quad[1] := 0.5 * wt], st.momentum[quad[0] := a][quad[1] := b],
                      st.keys[quad[2] := -1][quad[3] := -1])
  {
  }

  /** A packet of a well-formed layout holds particles of the species. */
  lemma QuadWithin(L: Layout, n: nat, c: nat, k: nat)
    requires Laid(L, n) && c < Cells(L) && 4 * k + 4 <= L.counts[c]
    ensures forall i :: 0 <= i < 4 ==> Quad(L, c, k)[i] < n
  {
  }

  /** The direction of cell `c`: `cell_vec` at its angular part. */
  function CellVec(L: Layout, c: nat): Vec3
    requires |L.dims| == 3 && L.dims[1] > 0 && L.dims[2] > 0 && |L.directions| == L.dims[1] * L.dims[2]
  {
    L.directions[c % (L.dims[1] * L.dims[2])]
  }

  /** Packets `0 .. k-1` of cell `c` merged, in order. */
  function MergePackets(t: Tables, sv: Rule, L: Layout, st: Particles, c: nat, k: nat): (r: Particles)
    requires Fits(st) && Laid(L, |st.weight|) && c < Cells(L) && 4 * k <= L.counts[c]
    ensures Fits(r) && |r.weight| == |st.weight|
  {
    if k == 0 then st
    else PacketUpdate(t, sv, CellVec(L, c), MergePackets(t, sv, L, st, c, k - 1), Quad(L, c, k - 1))
  }

  /** Cell `c` merged: a cell of at least four particles has its
      `count / 4` packets merged, the others are left alone. */
  function MergeCell(t: Tables, sv: Rule, L: Layout, st: Particles, c: nat): (r: Particles)
    requires Fits(st) && Laid(L, |st.weight|) && c < Cells(L)
    ensures Fits(r) && |r.weight| == |st.weight|
  {
    if L.counts[c] >= 4 then MergePackets(t, sv, L, st, c, L.counts[c] / 4) else st
  }

  /** Cells `0 .. c-1` merged, in order. */
  function MergeCells(t: Tables, sv: Rule, L: Layout, st: Particles, c: nat): (r: Particles)
    requires Fits(st) && Laid(L, |st.weight|) && c <= Cells(L)
    ensures Fits(r) && |r.weight| == |st.weight|
  {
    if c == 0 then st else MergeCell(t, sv, L, MergeCells(t, sv, L, st, c - 1), c - 1)
  }

  /** Sorted entry `p` belongs to a merged packet of cell `c`. */
  predicate InPacket(L: Layout, c: nat, p: nat)
    requires c < |L.first| && |L.counts| == |L.first|
  {
    L.first[c] <= p < L.first[c] + 4 * (L.counts[c] / 4)
  }

  /** Sorted entry `p` belongs to a merged packet of one of the cells
      `0 .. c-1`. */
  predicate MergedBy(L: Layout, c: nat, p: nat)
    requires c <= |L.first| && |L.counts| == |L.first|
  {
    c > 0 && (InPacket(L, c - 1, p) || MergedBy(L, c - 1, p))
  }

  /** No entry at or after the start of cell `c` is merged by an earlier
      cell. */
  lemma {:induction false} NotMergedYet(L: Layout, n: nat, c: nat, p: nat)
    requires Laid(L, n) && c < Cells(L) && L.first[c] <= p
    ensures !MergedBy(L, c, p)
  {
    if c > 0 {
      assert L.first[c - 1] + L.counts[c - 1] <= L.first[c];
      NotMergedYet(L, n, c - 1, p);
    }
  }

  /** Every sorted particle lies in `lo .. hi-1`. */
  predicate Spans(L: Layout, lo: nat, hi: nat) {
    forall k :: 0 <= k < |L.order| ==> lo <= L.order[k] < hi
  }

  /** `r` is `st` with the same surviving weight in `lo .. hi-1`, with the
      sorted particles outside the entries `from .. to-1` unchanged, and with
      the particles outside the range unchanged. */
  predicate Kept(L: Layout, st: Particles, r: Particles, from: nat, to: nat, lo: nat, hi: nat)
    requires Fits(st) && Fits(r) && |r.weight| == |st.weight| && lo <= hi <= |st.weight|
    requires forall k :: 0 <= k < |L.order| ==> L.order[k] < |st.weight|
  {
    && Surviving(r, lo, hi) == Surviving(st, lo, hi)
    && (forall p :: 0 <= p < |L.order| && !(from <= p < to) ==> Agree(r, st, L.order[p]))
    && (forall q :: 0 <= q < |st.weight| && !(lo <= q < hi) ==> Agree(r, st, q))
  }

  /** The particles of a packet sit only at its own sorted entries. */
  lemma QuadAvoids(L: Layout, n: nat, c: nat, k: nat, p: nat)
    requires Laid(L, n) && c < Cells(L) && 4 * k + 4 <= L.counts[c]
    requires p < |L.order| && !(L.first[c] + 4 * k <= p < L.first[c] + 4 * k + 4)
    ensures L.order[p] !in Quad(L, c, k)
  {
    var b := L.first[c] + 4 * k;
    var quad := Quad(L, c, k);
    forall i | 0 <= i < 4
      ensures quad[i] != L.order[p]
    {
      assert quad[i] == L.order[b + i];
    }
  }

  /** The next packet of a cell whose earlier packets are merged is
      mergeable: its particles are still untagged. */
  lemma NextMergeable(L: Layout, st: Particles, prev: Particles, c: nat, k: nat, lo: nat, hi: nat)
    requires Fits(st) && Laid(L, |st.weight|) && c < Cells(L) && 0 < k && 4 * k <= L.counts[c]
    requires Fits(prev) && |prev.weight| == |st.weight|
    requires lo <= hi <= |st.weight| && Spans(L, lo, hi)
    requires forall p :: L.first[c] <= p < L.first[c] + L.counts[c] ==> st.keys[L.order[p]] != -1
    requires forall p :: 0 <= p < |L.order| && !(L.first[c] <= p < L.first[c] + 4 * (k - 1)) ==> Agree(prev, st, L.order[p])
    ensures Mergeable(prev, Quad(L, c, k - 1), lo, hi)
  {
    var b := L.first[c] + 4 * (k - 1);
    var quad := Quad(L, c, k - 1);
    forall i | 0 <= i < 4
      ensures lo <= quad[i] < hi && prev.keys[quad[i]] != -1
    {
      assert quad[i] == L.order[b + i];
      assert Agree(prev, st, L.order[b + i]);
    }
  }

  /** A state that keeps the surviving weight of `prev` and differs from
      it only on packet `k - 1` extends what the earlier packets kept to one
      more packet. */
  lemma PacketStep(L: Layout, st: Particles, prev: Particles, next: Particles, c: nat, k: nat, lo: nat, hi: nat)
    requires Fits(st) && Laid(L, |st.weight|) && c < Cells(L) && 0 < k && 4 * k <= L.counts[c]
    requires Fits(prev) && |prev.weight| == |st.weight| && Fits(next) && |next.weight| == |st.weight|
    requires lo <= hi <= |st.weight| && Spans(L, lo, hi)
    requires Kept(L, st, prev, L.first[c], L.first[c] + 4 * (k - 1), lo, hi)
    requires Surviving(next, lo, hi) == Surviving(prev, lo, hi)
    requires forall q :: 0 <= q < |st.weight| && q !in Quad(L, c, k - 1) ==> Agree(next, prev, q)
    ensures Kept(L, st, next, L.first[c], L.first[c] + 4 * k, lo, hi)
  {
    var quad := Quad(L, c, k - 1);
    forall p | 0 <= p < |L.order| && !(L.first[c] <= p < L.first[c] + 4 * k)
      ensures Agree(next, st, L.order[p])
    {
      QuadAvoids(L, |st.weight|, c, k - 1, p);
      assert Agree(next, prev, L.order[p]);
      assert Agree(prev, st, L.order[p]);
    }
    forall q | 0 <= q < |st.weight| && !(lo <= q < hi)
      ensures Agree(next, st, q)
    {
      assert forall i :: 0 <= i < 4 ==> quad[i] == L.order[L.first[c] + 4 * (k - 1) + i];
      assert q !in quad;
      assert Agree(next, prev, q);
      assert Agree(prev, st, q);
    }
  }

  /** Merging the packets of one cell keeps the surviving weight, and
      changes neither the particles outside those packets nor those outside
      the range. */
  lemma {:induction false} MergePacketsKeep(t: Tables, sv: Rule, L: Layout, st: Particles, c: nat, k: nat, lo: nat, hi: nat)
    requires Fits(st) && Laid(L, |st.weight|) && c < Cells(L) && 4 * k <= L.counts[c]
    requires lo <= hi <= |st.weight| && Spans(L, lo, hi)
    requires forall p :: L.first[c] <= p < L.first[c] + L.counts[c] ==> st.keys[L.order[p]] != -1
    ensures Kept(L, st, MergePackets(t, sv, L, st, c, k), L.first[c], L.first[c] + 4 * k, lo, hi)
  {
    if k > 0 {
      MergePacketsKeep(t, sv, L, st, c, k - 1, lo, hi);
      var prev := MergePackets(t, sv, L, st, c, k - 1);
      var quad := Quad(L, c, k - 1);
      NextMergeable(L, st, prev, c, k, lo, hi);
      PacketKeepsWeight(t, sv, CellVec(L, c), prev, quad, lo, hi);
      PacketFrame(t, sv, CellVec(L, c), prev, quad);
      PacketStep(L, st, prev, PacketUpdate(t, sv, CellVec(L, c), prev, quad), c, k, lo, hi);
    }
  }

  /** `r` is `st` with the same surviving weight in `lo .. hi-1`, with the
      sorted particles outside the packets of cells `0 .. c-1` unchanged,
      and with the particles outside the range unchanged. */
  predicate KeptCells(L: Layout, st: Particles, r: Particles, c: nat, lo: nat, hi: nat)
    requires Fits(st) && Fits(r) && |r.weight| == |st.weight| && lo <= hi <= |st.weight|
    requires forall k :: 0 <= k < |L.order| ==> L.order[k] < |st.weight|
    requires c <= |L.first| && |L.counts| == |L.first|
  {
    && Surviving(r, lo, hi) == Surviving(st, lo, hi)
    && (forall p :: 0 <= p < |L.order| && !MergedBy(L, c, p) ==> Agree(r, st, L.order[p]))
    && (forall q :: 0 <= q < |st.weight| && !(lo <= q < hi) ==> Agree(r, st, q))
  }

  /** The sorted particles of cell `c - 1` are untagged once the earlier
      cells are merged. */
  lemma CellUntagged(L: Layout, st: Particles, prev: Particles, c: nat, lo: nat, hi: nat)
    requires Fits(st) && Laid(L, |st.weight|) && 0 < c <= Cells(L)
    requires Fits(prev) && |prev.weight| == |st.weight| && lo <= hi <= |st.weight|
    requires forall p :: 0 <= p < |L.order| ==> st.keys[L.order[p]] != -1
    requires KeptCells(L, st, prev, c - 1, lo, hi)
    ensures forall p :: L.first[c - 1] <= p < L.first[c - 1] + L.counts[c - 1] ==> prev.keys[L.order[p]] != -1
  {
    forall p | L.first[c - 1] <= p < L.first[c - 1] + L.counts[c - 1]
      ensures prev.keys[L.order[p]] != -1
    {
      NotMergedYet(L, |st.weight|, c - 1, p);
      assert Agree(prev, st, L.order[p]);
    }
  }

  /** A state that keeps what `prev` kept outside the packets of cell
      `c - 1` extends what the earlier cells kept to cell `c - 1`. */
  lemma CellStep(L: Layout, st: Particles, prev: Particles, next: Particles, c: nat, lo: nat, hi: nat)
    requires Fits(st) && Laid(L, |st.weight|) && 0 < c <= Cells(L)
    requires Fits(prev) && |prev.weight| == |st.weight| && Fits(next) && |next.weight| == |st.weight|
    requires lo <= hi <= |st.weight|
    requires KeptCells(L, st, prev, c - 1, lo, hi)
    requires Kept(L, prev, next, L.first[c - 1], L.first[c - 1] + 4 * (L.counts[c - 1] / 4), lo, hi)
    ensures KeptCells(L, st, next, c, lo, hi)
  {
    forall p | 0 <= p < |L.order| && !MergedBy(L, c, p)
      ensures Agree(next, st, L.order[p])
    {
      assert !InPacket(L, c - 1, p);
      assert Agree(next, prev, L.order[p]);
      assert Agree(prev, st, L.order[p]);
    }
    forall q | 0 <= q < |st.weight| && !(lo <= q < hi)
      ensures Agree(next, st, q)
    {
      assert Agree(next, prev, q);
      assert Agree(prev, st, q);
    }
  }

  /** Merging cell `c - 1` after the earlier cells extends what they kept
      to cell `c - 1`. */
  lemma CellAdvance(t: Tables, sv: Rule, L: Layout, st: Particles, prev: Particles, c: nat, lo: nat, hi: nat)
    requires Fits(st) && Laid(L, |st.weight|) && 0 < c <= Cells(L)
    requires Fits(prev) && |prev.weight| == |st.weight|
    requires lo <= hi <= |st.weight| && Spans(L, lo, hi)
    requires forall p :: 0 <= p < |L.order| ==> st.keys[L.order[p]] != -1
    requires KeptCells(L, st, prev, c - 1, lo, hi)
    ensures KeptCells(L, st, MergeCell(t, sv, L, prev, c - 1), c, lo, hi)
  {
    if L.counts[c - 1] >= 4 {
      CellUntagged(L, st, prev, c, lo, hi);
      MergePacketsKeep(t, sv, L, prev, c - 1, L.counts[c - 1] / 4, lo, hi);
      CellStep(L, st, prev, MergeCell(t, sv, L, prev, c - 1), c, lo, hi);
    } else {
      CellStep(L, st, prev, prev, c, lo, hi);
    }
  }

  /** Merging cells `0 .. c-1` keeps the surviving weight, and changes
      neither the sorted particles outside their packets nor the particles
      outside the range. */
  lemma {:induction false} MergeCellsKeep(t: Tables, sv: Rule, L: Layout, st: Particles, c: nat, lo: nat, hi: nat)
    requires Fits(st) && Laid(L, |st.weight|) && c <= Cells(L)
    requires lo <= hi <= |st.weight| && Spans(L, lo, hi)
    requires forall p :: 0 <= p < |L.order| ==> st.keys[L.order[p]] != -1
    ensures KeptCells(L, st, MergeCells(t, sv, L, st, c), c, lo, hi)
  {
    if c > 0 {
      MergeCellsKeep(t, sv, L, st, c - 1, lo, hi);
      CellAdvance(t, sv, L, st, MergeCells(t, sv, L, st, c - 1), c, lo, hi);
    }
  }

  // ----- The sort and the whole pass -----------------------------------

  /** `momentum_cell_particle_index` after the scan: the first sorted
      entry of every cell. */
  function Firsts(s: seq<nat>): (r: seq<nat>)
    ensures |r| == MomentumCells && forall c :: 0 <= c < MomentumCells ==> r[c] == Below(s, c)
  {
    seq(MomentumCells, c requires 0 <= c => Below(s, c))
  }

  /** `particles_per_momentum_cells` after the histogram (and again after
      the scatter). */
  function Counts(s: seq<nat>): (r: seq<nat>)
    ensures |r| == MomentumCells && forall c :: 0 <= c < MomentumCells ==> r[c] == multiset(s)[c]
  {
    seq(MomentumCells, c requires 0 <= c => multiset(s)[c])
  }

  /** `sorted_particles` after the scatter: the particles of the range
      `istart ..`, grouped by cell. */
  function Placed(s: seq<nat>, istart: nat): (r: seq<nat>)
    ensures |r| == |Grouped(s, MomentumCells)|
    ensures forall k :: 0 <= k < |r| ==> r[k] == istart + Grouped(s, MomentumCells)[k]
  {
    var g := Grouped(s, MomentumCells);
    seq(|g|, k requires 0 <= k < |g| => istart + g[k])
  }

  /** The momenta of the particles `istart .. iend-1`. */
  function RangeMomenta(st: Particles, istart: nat, iend: nat): (m: seq<Vec3>)
    requires Fits(st) && istart < iend <= |st.weight|
    ensures |m| == iend - istart > 0
  {
    st.momentum[istart..iend]
  }

  /** The layout the pass builds for the particles `istart .. iend-1`. */
  function LayoutOf(t: Tables, g: Geometry, st: Particles, istart: nat, iend: nat): Layout
    requires Fits(st) && istart < iend <= |st.weight|
  {
    var m := RangeMomenta(st, istart, iend);
    var a := AxesOf(t, g, m);
    var s := CellIndices(t, g, m);
    Layout(DimsOf(a), Directions(g, a), Placed(s, istart), Firsts(s), Counts(s))
  }

  /** A layout built by the sort from in-range cell indices `s` is well
      formed and sorts each of the particles `istart .. istart+|s|-1`
      exactly once. */
  lemma SortLaid(L: Layout, s: seq<nat>, istart: nat, n: nat)
    requires AllBelow(s, MomentumCells) && istart + |s| <= n
    requires L.order == Placed(s, istart) && L.first == Firsts(s) && L.counts == Counts(s)
    requires |L.dims| == 3 && L.dims[1] > 0 && L.dims[2] > 0 && |L.directions| == L.dims[1] * L.dims[2]
    requires Cells(L) <= MomentumCells
    ensures Laid(L, n) && Spans(L, istart, istart + |s|) && |L.order| == |s|
  {
    var gr := Grouped(s, MomentumCells);
    GroupedPermutation(s, MomentumCells);
    GroupedLength(s, MomentumCells);
    GroupedOrdered(s, MomentumCells);
    OrderedDistinct(s, gr);
    forall k | 0 <= k < |L.order|
      ensures istart <= L.order[k] < istart + |s|
    {
      assert gr[k] < |s|;
    }
    forall c | 0 <= c < Cells(L)
      ensures L.first[c] + L.counts[c] <= |L.order|
    {
      BelowMonotone(s, c + 1, MomentumCells);
    }
    forall c1, c2 | 0 <= c1 < c2 < Cells(L)
      ensures L.first[c1] + L.counts[c1] <= L.first[c2]
    {
      BelowMonotone(s, c1 + 1, c2);
    }
    forall k1, k2 | 0 <= k1 < |L.order| && 0 <= k2 < |L.order| && k1 != k2
      ensures L.order[k1] != L.order[k2]
    {
      assert gr[k1] != gr[k2];
    }
  }

  /** The layout is well formed, and sorts every particle of the range
      exactly once. */
  lemma LayoutLaid(t: Tables, g: Geometry, st: Particles, istart: nat, iend: nat)
    requires Fits(st) && istart < iend <= |st.weight|
    ensures Laid(LayoutOf(t, g, st, istart, iend), |st.weight|)
    ensures Spans(LayoutOf(t, g, st, istart, iend), istart, iend)
    ensures |LayoutOf(t, g, st, istart, iend).order| == iend - istart
  {
    var m := RangeMomenta(st, istart, iend);
    var s := CellIndices(t, g, m);
    CellIndicesInRange(t, g, m);
    SortLaid(LayoutOf(t, g, st, istart, iend), s, istart, |st.weight|);
  }

  /** The merge phase over the layout of the range `istart .. iend-1`. */
  function Merged(t: Tables, g: Geometry, st: Particles, istart: nat, iend: nat): (r: Particles)
    requires Fits(st) && istart < iend <= |st.weight|
    ensures Fits(r) && |r.weight| == |st.weight|
  {
    LayoutLaid(t, g, st, istart, iend);
    var L := LayoutOf(t, g, st, istart, iend);
    MergeCells(t, VranicRule(t, g), L, st, Cells(L))
  }

  /** The whole pass: it merges only a range holding more than `threshold`
      particles. */
  function Pass(t: Tables, g: Geometry, threshold: nat, st: Particles, istart: nat, iend: nat): (r: Particles)
    requires Fits(st) && istart <= iend <= |st.weight|
    ensures Fits(r) && |r.weight| == |st.weight|
  {
    if iend - istart > threshold then Merged(t, g, st, istart, iend) else st
  }

  /** Merging keeps the weight of the particles of the range that are not
      tagged for removal, changes no particle outside the range, and changes
      no sorted particle outside the merged packets. */
  lemma MergedKeeps(t: Tables, g: Geometry, st: Particles, istart: nat, iend: nat)
    requires Fits(st) && istart < iend <= |st.weight|
    requires forall q :: istart <= q < iend ==> st.keys[q] != -1
    ensures var L := LayoutOf(t, g, st, istart, iend);
      Laid(L, |st.weight|) && KeptCells(L, st, Merged(t, g, st, istart, iend), Cells(L), istart, iend)
  {
    LayoutLaid(t, g, st, istart, iend);
    var L := LayoutOf(t, g, st, istart, iend);
    MergeCellsKeep(t, VranicRule(t, g), L, st, Cells(L), istart, iend);
  }

  /** The pass keeps the surviving weight of the range and changes nothing
      outside it. */
  lemma PassKeepsWeight(t: Tables, g: Geometry, threshold: nat, st: Particles, istart: nat, iend: nat)
    requires Fits(st) && istart <= iend <= |st.weight|
    requires forall q :: istart <= q < iend ==> st.keys[q] != -1
    ensures Surviving(Pass(t, g, threshold, st, istart, iend), istart, iend) == Surviving(st, istart, iend)
    ensures forall q :: 0 <= q < |st.weight| && !(istart <= q < iend) ==> Agree(Pass(t, g, threshold, st, istart, iend), st, q)
  {
    if iend - istart > threshold {
      MergedKeeps(t, g, st, istart, iend);
    }
  }

  // ----- Three defects of the source, and their corrections -------------

  /** The sorted entry the tag loop writes `-1` to, as written: for `ip`
      running over `4 ipack + 2 .. 4 ipack + 3`, the offset `4 ipack` is
      added a second time. */
  function TagEntryAsWritten(first: nat, ipack: nat, ip: nat): nat {
    first + ipack * 4 + ip
  }

  /** The intended entry: `ip` already counts from the start of the cell. */
  function TagEntry(first: nat, ip: nat): nat {
    first + ip
  }

  /** From the second packet on, the written entries lie past the packet
      they belong to: in a cell of 8 particles, the second packet tags the
      entries 10 and 11, outside the cell's 8 entries. */
  lemma TagEntryAsWrittenLeavesPacket(first: nat, ipack: nat, ip: nat)
    requires ipack >= 1 && 4 * ipack + 2 <= ip < 4 * ipack + 4
    ensures TagEntryAsWritten(first, ipack, ip) >= first + 4 * ipack + 4
    ensures ipack == 1 ==> TagEntryAsWritten(first, ipack, ip) >= first + 8
  {
  }

  /** The corrected entries are the last two of the packet, `Quad(L, c, ipack)[2]`
      and `[3]`: the ones the model tags. */
  lemma TagEntryInPacket(L: Layout, c: nat, ipack: nat, ip: nat)
    requires c < |L.first| && L.first[c] + 4 * ipack + 4 <= |L.order|
    requires 4 * ipack + 2 <= ip < 4 * ipack + 4
    ensures TagEntry(L.first[c], ip) < |L.order|
    ensures L.order[TagEntry(L.first[c], ip)] == Quad(L, c, ipack)[ip - 4 * ipack]
  {
  }

  /** The cell the merge loop visits at `(mr, theta, phi)`, as written: the
      angular stride is the 25 angular cells of the uncollapsed grid, even
      after the collapse of the angular axes. */
  function MergeCellAsWritten(dims: seq<nat>, mr: nat, th: nat, ph: nat): nat
    requires |dims| == 3
  {
    mr * AngularCells + th * dims[2] + ph
  }

  /** With both angular axes collapsed (`dims == [5, 1, 1]`) the loop visits
      the cells 0, 25, 50, 75, 100 instead of 0 .. 4: cell 1, which holds
      the particles of the second momentum shell, is never merged. */
  lemma MergeCellAsWrittenSkipsCell()
    ensures var dims := [5, 1, 1];
      1 < dims[0] * dims[1] * dims[2]
      && forall mr: nat, th: nat, ph: nat :: mr < dims[0] && th < dims[1] && ph < dims[2] ==> MergeCellAsWritten(dims, mr, th, ph) != 1
  {
    var dims: seq<nat> := [5, 1, 1];
    forall mr: nat, th: nat, ph: nat | mr < dims[0] && th < dims[1] && ph < dims[2]
      ensures MergeCellAsWritten(dims, mr, th, ph) != 1
    {
      assert th == 0 && ph == 0;
    }
  }

  /** With the stride of the actual dimensions, the loop visits every cell. */
  lemma CellOfOnto(dims: seq<nat>, c: nat)
    requires |dims| == 3 && dims[1] > 0 && dims[2] > 0 && c < dims[0] * dims[1] * dims[2]
    ensures exists mr: nat, th: nat, ph: nat :: mr < dims[0] && th < dims[1] && ph < dims[2] && CellOf(dims, mr, th, ph) == c
  {
    var d0, d1, d2 := dims[0], dims[1], dims[2];
    var a := d1 * d2;
    var mr, r := c / a, c % a;
    var th, ph := r / d2, r % d2;
    MulAssoc(d0, d1, d2);
    MulAssoc(mr, d1, d2);
    if mr >= d0 {
      MulAtMost(d0, mr, a);
      assert false;
    }
    if th >= d1 {
      MulAtMost(d1, th, d2);
      assert false;
    }
    assert CellOf(dims, mr, th, ph) == c;
  }

  /** With positive weights the total energy is at least the total weight,
      since every Lorentz factor is at least 1. */
  lemma {:induction false} EnergyAtLeastWeight(t: Tables, st: Particles, qs: seq<nat>)
    requires t.Valid() && Fits(st) && Within(st, qs)
    requires forall i :: 0 <= i < |qs| ==> st.weight[qs[i]] >= 0.0
    ensures EnergyOf(t, st, qs) >= WeightOf(st, qs)
  {
    if |qs| > 0 {
      var front := qs[..|qs| - 1];
      var q := qs[|qs| - 1];
      EnergyAtLeastWeight(t, st, front);
      GammaAtLeastOne(t, st.momentum[q]);
      MulNonNegative(st.weight[q], Gamma(t, st.momentum[q]) - 1.0);
    }
  }

  /** An energy per weight of at least 1 gives `e^2 - 1 >= 0`. */
  lemma EnergyRatio(wt: real, et: real)
    requires wt > 0.0 && et >= wt
    ensures var e := Quotient(et, wt); e >= 1.0 && e * e - 1.0 >= 0.0
  {
    var e := et / wt;
    assert e * wt == et;
    assert (e - 1.0) * wt == et - wt;
    NonNegativeFactor(e - 1.0, wt);
    MulNonNegative(e - 1.0, e + 1.0);
  }

  /** With the weighted energy, the argument of `sqrt` in the merged norm is
      never negative for a packet of positive weights. */
  lemma MergedNormDefined(t: Tables, st: Particles, quad: seq<nat>)
    requires t.Valid() && Fits(st) && Within(st, quad) && |quad| > 0
    requires forall i :: 0 <= i < |quad| ==> st.weight[quad[i]] > 0.0
    ensures var e := Quotient(EnergyOf(t, st, quad), WeightOf(st, quad)); e * e - 1.0 >= 0.0
  {
    WeightPositive(st, quad);
    EnergyAtLeastWeight(t, st, quad);
    EnergyRatio(WeightOf(st, quad), EnergyOf(t, st, quad));
  }

  /** A non-empty packet of positive weights has a positive total weight. */
  lemma {:induction false} WeightPositive(st: Particles, qs: seq<nat>)
    requires Fits(st) && Within(st, qs) && |qs| > 0
    requires forall i :: 0 <= i < |qs| ==> st.weight[qs[i]] > 0.0
    ensures WeightOf(st, qs) > 0.0
  {
    if |qs| > 1 {
      WeightPositive(st, qs[..|qs| - 1]);
    } else {
      assert qs[..0] == [];
    }
  }

  /** The four unweighted Lorentz factors summed in order. */
  lemma EnergyAsWrittenFour(t: Tables, st: Particles, quad: seq<nat>)
    requires Fits(st) && |quad| == 4 && Within(st, quad)
    ensures EnergyAsWritten(t, st, quad) == Gamma(t, st.momentum[quad[0]]) + Gamma(t, st.momentum[quad[1]])
      + Gamma(t, st.momentum[quad[2]]) + Gamma(t, st.momentum[quad[3]])
  {
    assert quad[..3][..2] == quad[..2] && quad[..2][..1] == quad[..1] && quad[..1][..0] == [];
    assert EnergyAsWritten(t, st, quad[..1]) == Gamma(t, st.momentum[quad[0]]);
    assert EnergyAsWritten(t, st, quad[..2]) == EnergyAsWritten(t, st, quad[..1]) + Gamma(t, st.momentum[quad[1]]);
    assert EnergyAsWritten(t, st, quad[..3]) == EnergyAsWritten(t, st, quad[..2]) + Gamma(t, st.momentum[quad[2]]);
  }

  /** A packet of four particles at rest of weight 2: the unweighted energy
      sum is 4 for a total weight of 8, so the source takes the square root
      of `0.5 * 0.5 - 1 < 0`. */
  lemma EnergyAsWrittenUndefined(t: Tables, st: Particles, quad: seq<nat>)
    requires t.Valid() && Fits(st) && |quad| == 4 && Within(st, quad)
    requires forall i :: 0 <= i < 4 ==> st.weight[quad[i]] == 2.0 && st.momentum[quad[i]] == Vec3(0.0, 0.0, 0.0)
    ensures var e := Quotient(EnergyAsWritten(t, st, quad), WeightOf(st, quad)); e * e - 1.0 < 0.0
  {
    GammaAtLeastOne(t, Vec3(0.0, 0.0, 0.0));
    EnergyAsWrittenFour(t, st, quad);
    WeightOfFour(st, quad);
    var rest := Gamma(t, Vec3(0.0, 0.0, 0.0));
    assert rest == 1.0;
    assert EnergyAsWritten(t, st, quad) == 4.0;
    assert WeightOf(st, quad) == 8.0;
    assert Quotient(4.0, 8.0) == 0.5;
  }
}

