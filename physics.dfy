/** Shared vocabulary of the radiation-reaction operators: three-vectors, the
    local field sample, and the floating-point physics (square root, logarithm,
    quantum parameter, cross-section table queries) that the operators call
    but that are not part of this model.  The physics is carried as function
    values; `Tables.Valid` lists the only facts about them that the proofs use. */
module Physics {

  datatype Option<T> = None | Some(value: T)

  datatype Vec3 = Vec3(x: real, y: real, z: real)

  /** Squared Euclidean norm. */
  function NormSq(v: Vec3): real {
    v.x * v.x + v.y * v.y + v.z * v.z
  }

  function Scale(v: Vec3, f: real): Vec3 {
    Vec3(f * v.x, f * v.y, f * v.z)
  }

  /** The update `p -= temp*p` that every operator applies to the three
      momentum components: one common factor `1 - temp`. */
  function Damp(p: Vec3, temp: real): (r: Vec3)
    ensures r == Scale(p, 1.0 - temp)
  {
    assert p.x - temp * p.x == (1.0 - temp) * p.x;
    assert p.y - temp * p.y == (1.0 - temp) * p.y;
    assert p.z - temp * p.z == (1.0 - temp) * p.z;
    assert Vec3(p.x - temp * p.x, p.y - temp * p.y, p.z - temp * p.z) == Scale(p, 1.0 - temp);
    Vec3(p.x - temp * p.x, p.y - temp * p.y, p.z - temp * p.z)
  }

  lemma NormSqNonNegative(v: Vec3)
    ensures NormSq(v) >= 0.0
  {
    assert v.x * v.x >= 0.0 && v.y * v.y >= 0.0 && v.z * v.z >= 0.0;
  }

  lemma NormSqScale(v: Vec3, f: real)
    ensures NormSq(Scale(v, f)) == f * f * NormSq(v)
  {
    calc {
      NormSq(Scale(v, f));
      (f * v.x) * (f * v.x) + (f * v.y) * (f * v.y) + (f * v.z) * (f * v.z);
      { assert (f * v.x) * (f * v.x) == f * f * (v.x * v.x);
        assert (f * v.y) * (f * v.y) == f * f * (v.y * v.y);
        assert (f * v.z) * (f * v.z) == f * f * (v.z * v.z); }
      f * f * (v.x * v.x) + f * f * (v.y * v.y) + f * f * (v.z * v.z);
      f * f * NormSq(v);
    }
  }

  lemma MulNonNegative(a: real, b: real)
    requires 0.0 <= a && 0.0 <= b
    ensures 0.0 <= a * b
  {
  }

  /** A factor in `[0, 1]` never lengthens a vector. */
  lemma ScaleShrinks(v: Vec3, k: real)
    requires 0.0 <= k <= 1.0
    ensures NormSq(Scale(v, k)) <= NormSq(v)
  {
    NormSqScale(v, k);
    NormSqNonNegative(v);
    var kk := k * k;
    assert kk <= k by {
      MulNonNegative(k, 1.0 - k);
      assert k * (1.0 - k) == k - kk;
    }
    assert kk * NormSq(v) <= NormSq(v) by {
      MulNonNegative(1.0 - kk, NormSq(v));
      assert (1.0 - kk) * NormSq(v) == NormSq(v) - kk * NormSq(v);
    }
  }

  /** A product with a positive factor is non-negative only if the other
      factor is. */
  lemma NonNegativeFactor(a: real, b: real)
    requires b > 0.0 && a * b >= 0.0
    ensures a >= 0.0
  {
    assert a == (a * b) / b;
  }

  lemma DivBelowOne(a: real, b: real)
    requires 0.0 <= a < b
    ensures 0.0 <= a / b < 1.0
  {
    assert a / b * b == a;
  }

  /** `q` is `p` with all three components multiplied by one factor. */
  ghost predicate IsScaled(q: Vec3, p: Vec3) {
    exists f :: q == Scale(p, f)
  }

  lemma ScaleOne(p: Vec3)
    ensures Scale(p, 1.0) == p
  {
  }

  lemma ScaleScale(p: Vec3, a: real, b: real)
    ensures Scale(Scale(p, a), b) == Scale(p, b * a)
  {
    assert b * (a * p.x) == (b * a) * p.x;
    assert b * (a * p.y) == (b * a) * p.y;
    assert b * (a * p.z) == (b * a) * p.z;
  }

  /** Scaling by a positive factor leaves a nonzero momentum nonzero. */
  lemma ScaleStaysMoving(p: Vec3, k: real)
    requires NormSq(p) > 0.0 && k > 0.0
    ensures NormSq(Scale(p, k)) > 0.0
  {
    calc {
      NormSq(Scale(p, k));
    == { NormSqScale(p, k); }
      k * k * NormSq(p);
    > { assert k * k > 0.0; }
      0.0;
    }
  }

  /** Damping by a factor below one leaves a nonzero momentum nonzero. */
  lemma DampStaysMoving(p: Vec3, temp: real)
    requires NormSq(p) > 0.0 && 0.0 <= temp < 1.0
    ensures NormSq(Damp(p, temp)) > 0.0
  {
    ScaleStaysMoving(p, 1.0 - temp);
  }

  /** Electric and magnetic field interpolated at a particle. */
  datatype Field = Field(e: Vec3, b: Vec3)

  /** The collaborators the operators consume: `sqrt`/`log` of the C library,
      `Radiation::computeParticleChi` (charge over mass squared, momentum,
      Lorentz factor, field), and the queries of `RadiationTables` and
      `RadiationTools`. */
  datatype Tables = Tables(
    sqrt: real -> real,
    log: real -> real,
    particleChi: (real, Vec3, real, Field) -> real,
    minimumChiContinuous: real,
    minimumChiDiscontinuous: real,
    photonProductionYield: (real, real) -> real,
    randomPhotonChi: (real, real) -> real,
    ridgersCorrectedRadiatedEnergy: (real, real) -> real,
    factorClassicalRadiatedPower: real,
    nielHFromTable: real -> real,
    nielHFitOrder5: real -> real,
    nielHFitOrder10: real -> real,
    nielHFitRidgers: real -> real)
  {
    /** Square root is exact on non-negative arguments; the quantum parameter
        is non-negative; the photon production yield is non-negative and
        vanishes for a particle with zero quantum parameter; a sampled photon
        quantum parameter lies between zero and the emitter's. */
    ghost predicate Valid() {
      && (forall x :: 0.0 <= x ==> 0.0 <= Sqrt(this, x) && Sqrt(this, x) * Sqrt(this, x) == x)
      && (forall q, p, g, f :: 0.0 <= Chi(this, q, p, g, f))
      && (forall c, g :: 0.0 <= Yield(this, c, g))
      && (forall g :: Yield(this, 0.0, g) == 0.0)
      && (forall c, r :: 0.0 <= c ==> 0.0 <= RandomPhotonChi(this, c, r) <= c)
    }
  }

  /** The collaborators applied, one function each. */
  function Sqrt(t: Tables, x: real): real { t.sqrt(x) }
  function Log(t: Tables, x: real): real { t.log(x) }
  function Chi(t: Tables, qm: real, p: Vec3, gamma: real, f: Field): real { t.particleChi(qm, p, gamma, f) }
  function Yield(t: Tables, chi: real, gamma: real): real { t.photonProductionYield(chi, gamma) }
  function RandomPhotonChi(t: Tables, chi: real, u: real): real { t.randomPhotonChi(chi, u) }
  function RidgersEnergy(t: Tables, chi: real, dt: real): real { t.ridgersCorrectedRadiatedEnergy(chi, dt) }

  /** Lorentz factor `sqrt(1 + |p|^2)` of a momentum in units of m c. */
  function Gamma(t: Tables, p: Vec3): real {
    Sqrt(t, 1.0 + NormSq(p))
  }

  lemma SqrtPositive(t: Tables, x: real)
    requires t.Valid() && x > 0.0
    ensures Sqrt(t, x) > 0.0
  {
    assert 0.0 <= Sqrt(t, x) && Sqrt(t, x) * Sqrt(t, x) == x;
  }

  /** The square root is monotone: a value whose square is below `x` is below
      `sqrt(x)`. */
  lemma SqrtAbove(t: Tables, x: real, y: real)
    requires t.Valid() && 0.0 <= x && 0.0 <= y && y * y < x
    ensures y < Sqrt(t, x)
  {
    var s := Sqrt(t, x);
    assert 0.0 <= s && s * s == x;
    assert (s - y) * (s + y) == s * s - y * y > 0.0;
    assert s + y > 0.0;
  }

  /** A Lorentz factor is at least one, and it is exactly one only for a
      particle at rest. */
  lemma GammaAtLeastOne(t: Tables, p: Vec3)
    requires t.Valid()
    ensures Gamma(t, p) >= 1.0
    ensures Gamma(t, p) == 1.0 <==> NormSq(p) == 0.0
  {
    NormSqNonNegative(p);
    var n := NormSq(p);
    var g := Gamma(t, p);
    assert 0.0 <= g && g * g == 1.0 + n;
    assert (g - 1.0) * (g + 1.0) == n;
    NonNegativeFactor(g - 1.0, g + 1.0);
    if n == 0.0 {
      assert (g - 1.0) * (g + 1.0) == 0.0;
    }
  }

  /** `gamma^2 - 1` is positive, so `sqrt(gamma^2 - 1)` is a valid divisor,
      as soon as the particle is not at rest. */
  lemma MovingGamma(t: Tables, p: Vec3)
    requires t.Valid() && Gamma(t, p) != 1.0
    ensures Gamma(t, p) > 1.0
    ensures Gamma(t, p) * Gamma(t, p) - 1.0 > 0.0
    ensures NormSq(p) > 0.0
  {
    GammaAtLeastOne(t, p);
    NormSqNonNegative(p);
    var g := Gamma(t, p);
    assert (g - 1.0) * (g + 1.0) == g * g - 1.0;
  }

  /** The Lorentz factor grows with the momentum norm. */
  lemma GammaMonotone(t: Tables, p: Vec3, q: Vec3)
    requires t.Valid() && NormSq(p) <= NormSq(q)
    ensures Gamma(t, p) <= Gamma(t, q)
  {
    GammaAtLeastOne(t, p);
    GammaAtLeastOne(t, q);
    var a := Gamma(t, p);
    var b := Gamma(t, q);
    assert a * a == 1.0 + NormSq(p) && b * b == 1.0 + NormSq(q);
    assert (b - a) * (b + a) == b * b - a * a >= 0.0;
    assert b + a > 0.0;
  }

  /** `temp = E*gamma/(gamma^2 - 1)`: the fraction of the momentum removed
      by a continuous loss of energy `E`. */
  function FrictionFactor(energy: real, gamma: real): real
    requires gamma > 1.0
  {
    assert gamma * gamma - 1.0 > 0.0 by {
      assert (gamma - 1.0) * (gamma + 1.0) == gamma * gamma - 1.0;
    }
    energy * gamma / (gamma * gamma - 1.0)
  }

  /** Quantum parameter of a particle from its current momentum. */
  function ParticleChi(t: Tables, qm: real, p: Vec3, f: Field): real {
    Chi(t, qm, p, Gamma(t, p), f)
  }

  /** `charge_over_mass_square = (double)(charge)*one_over_mass_square`, with
      `one_over_mass_square` the square of the species' `one_over_mass_`. */
  function ChargeOverMassSquare(oneOverMass: real, charge: int): real {
    charge as real * (oneOverMass * oneOverMass)
  }

  /** The particle arrays a pass over `[istart, iend)` reads: charges and
      momenta side by side, and the field sampled from index `ipart_ref` on. */
  predicate InRange(charge: seq<int>, field: seq<Field>, momentum: seq<Vec3>,
                    istart: int, iend: int, ipartRef: int)
  {
    0 <= ipartRef <= istart <= iend <= |momentum| && |charge| == |momentum| && iend - ipartRef <= |field|
  }

  /** Particle `i`'s entries exist in the arrays. */
  predicate Has(charge: seq<int>, field: seq<Field>, momentum: seq<Vec3>, i: int, ipartRef: int) {
    0 <= i < |charge| && i < |momentum| && 0 <= i - ipartRef < |field|
  }

  /** The last loop of every radiation operator: the quantum parameter of
      each particle of `[istart, iend)` recomputed from its current momentum,
      with the field sampled at index `ipart - ipart_ref`. */
  method UpdateChi(t: Tables, oneOverMass: real, charge: array<int>, field: array<Field>,
                   momentum: array<Vec3>, chi: array<real>, istart: int, iend: int, ipartRef: int)
    requires 0 <= ipartRef <= istart <= iend <= chi.Length
    requires charge.Length == chi.Length && momentum.Length == chi.Length && iend - ipartRef <= field.Length
    modifies chi
    ensures forall k :: istart <= k < iend ==>
      chi[k] == ParticleChi(t, ChargeOverMassSquare(oneOverMass, charge[k]), momentum[k], field[k - ipartRef])
    ensures forall k :: 0 <= k < chi.Length && !(istart <= k < iend) ==> chi[k] == old(chi[k])
  {
    for ipart := istart to iend
      invariant forall k :: istart <= k < ipart ==>
        chi[k] == ParticleChi(t, ChargeOverMassSquare(oneOverMass, charge[k]), momentum[k], field[k - ipartRef])
      invariant forall k :: 0 <= k < chi.Length && !(istart <= k < ipart) ==> chi[k] == old(chi[k])
    {
      var chargeOverMassSquare := ChargeOverMassSquare(oneOverMass, charge[ipart]);
      var p := momentum[ipart];
      var gamma := Sqrt(t, 1.0 + NormSq(p));
      chi[ipart] := Chi(t, chargeOverMassSquare, p, gamma, field[ipart - ipartRef]);
    }
  }
}
