/** The Niel radiation-reaction operator (`RadiationNiel::operator()`, host
    path): the Lorentz factor and quantum parameter of every particle, then,
    for the particles above the continuous threshold only, a normal variate,
    a stochastic diffusion term and a continuous friction corrected by that
    term; finally the weighted drop of the Lorentz factors added to
    `radiated_energy` and the quantum parameter recomputed. */
module Niel {
  import opened Physics
  import opened Passes
  import Rng

  /** Constants of a `RadiationNiel` object and of the tables it queries. */
  datatype Config = Config(
    tables: Tables,
    dt: real,             // dt_
    oneOverMass: real,    // one_over_mass_
    nielMethod: int)      // getNielHComputationMethodIndex()

  /** The gate of every pass after the first: `chi > minimum_chi_continuous`,
      strict. */
  predicate AboveThreshold(c: Config, chi: real) {
    chi > c.tables.minimumChiContinuous
  }

  // The normal variate

  /** Coefficients of the polynomial used when `temp < 5`, in the order the
      Horner statements apply them (highest degree first). */
  const CentralCoefficients: seq<real> := [
    2.81022636000e-08, 3.43273939000e-07, -3.52338770000e-06, -4.39150654000e-06,
    0.00021858087, -0.00125372503, -0.00417768164, 0.24664072700, 1.50140941000]

  /** Coefficients of the polynomial used when `temp >= 5`. */
  const TailCoefficients: seq<real> := [
    -0.000200214257, 0.000100950558, 0.001349343220, -0.003673428440,
    0.005739507730, -0.007622461300, 0.009438870470, 1.001674060000, 2.832976820000]

  /** `p = cs[0]; p = cs[1] + p*x; ...; p = cs[n-1] + p*x`. */
  function Horner(cs: seq<real>, x: real): real
    decreases |cs|
  {
    if |cs| == 0 then 0.0 else cs[|cs| - 1] + Horner(cs[..|cs| - 1], x) * x
  }

  function Power(x: real, n: nat): real {
    if n == 0 then 1.0 else x * Power(x, n - 1)
  }

  /** The polynomial `sum_k cs[k] * x^(|cs|-1-k)`, term by term. */
  function Polynomial(cs: seq<real>, x: real): real
    decreases |cs|
  {
    if |cs| == 0 then 0.0 else cs[0] * Power(x, |cs| - 1) + Polynomial(cs[1..], x)
  }

  /** Appending a coefficient multiplies the polynomial by `x` and adds it. */
  lemma {:induction false} PolynomialSnoc(cs: seq<real>, c: real, x: real)
    ensures Polynomial(cs + [c], x) == Polynomial(cs, x) * x + c
    decreases |cs|
  {
    if |cs| == 0 {
      assert [c][1..] == [];
    } else {
      assert (cs + [c])[1..] == cs[1..] + [c];
      PolynomialSnoc(cs[1..], c, x);
      var p, q := Power(x, |cs| - 1), Polynomial(cs[1..], x);
      assert Power(x, |cs|) == x * p;
      assert Polynomial(cs + [c], x) == cs[0] * (x * p) + (q * x + c);
      Factor(cs[0], p, q, x, c);
    }
  }

  lemma Factor(a: real, p: real, q: real, x: real, c: real)
    ensures a * (x * p) + (q * x + c) == (a * p + q) * x + c
  {
  }

  /** The Horner statements evaluate the polynomial of their coefficients. */
  lemma {:induction false} HornerIsPolynomial(cs: seq<real>, x: real)
    ensures Horner(cs, x) == Polynomial(cs, x)
    decreases |cs|
  {
    if |cs| > 0 {
      var init := cs[..|cs| - 1];
      HornerIsPolynomial(init, x);
      PolynomialSnoc(init, cs[|cs| - 1], x);
      assert init + [cs[|cs| - 1]] == cs;
    }
  }

  /** A uniform draw `r` in `(-1, 1)` turned into a normal variate of
      variance `dt`: `temp = -log((1-r)(1+r))`, one of two polynomial
      approximations of the inverse error function, then the scaling by
      `p*sqrt(dt)*sqrt(2)`. */
  function NormalVariate(t: Tables, r: real, sqrtdt: real): real {
    var temp := -Log(t, (1.0 - r) * (1.0 + r));
    var p := if temp < 5.0 then Horner(CentralCoefficients, temp - 2.5)
             else Horner(TailCoefficients, Sqrt(t, temp) - 3.0);
    r * (p * sqrtdt * Sqrt(t, 2.0))
  }

  /** The transform is odd: mirrored draws give opposite variates. */
  lemma NormalVariateOdd(t: Tables, r: real, sqrtdt: real)
    ensures NormalVariate(t, -r, sqrtdt) == -NormalVariate(t, r, sqrtdt)
  {
    assert (1.0 - -r) * (1.0 + -r) == (1.0 - r) * (1.0 + r);
  }

  // The diffusion term and the momentum update

  /** The function `h` of the diffusion coefficient, by method index:
      the table, the fit of order 5, the fit of order 10, Ridgers' fit. */
  function NielH(t: Tables, index: int): real -> real
    requires 0 <= index <= 3
  {
    if index == 0 then t.nielHFromTable
    else if index == 1 then t.nielHFitOrder5
    else if index == 2 then t.nielHFitOrder10
    else t.nielHFitRidgers
  }

  /** `sqrt(factor_classical_radiated_power*gamma*h(chi))*random`, the one
      formula all four methods share. */
  function Diffusion(c: Config, h: real -> real, gamma: real, chi: real, random: real): real {
    Sqrt(c.tables, c.tables.factorClassicalRadiatedPower * gamma * h(chi)) * random
  }

  /** The diffusion a uniform draw `u` produces, with the configured method. */
  function Kick(c: Config, gamma: real, chi: real, u: real): real
    requires 0 <= c.nielMethod <= 3
  {
    Diffusion(c, NielH(c.tables, c.nielMethod), gamma, chi, NormalVariate(c.tables, u, Sqrt(c.tables, c.dt)))
  }

  /** Mirrored draws give opposite diffusion terms: the stochastic part has
      no bias of its own. */
  lemma KickOdd(c: Config, gamma: real, chi: real, u: real)
    requires 0 <= c.nielMethod <= 3
    ensures Kick(c, gamma, chi, -u) == -Kick(c, gamma, chi, u)
  {
    var sqrtdt := Sqrt(c.tables, c.dt);
    NormalVariateOdd(c.tables, u, sqrtdt);
    var s := Sqrt(c.tables, c.tables.factorClassicalRadiatedPower * gamma * NielH(c.tables, c.nielMethod)(chi));
    var v := NormalVariate(c.tables, u, sqrtdt);
    assert s * -v == -(s * v);
  }

  /** The momentum update with the guard `gamma > 1` that keeps the
      divisor `gamma^2 - 1` away from zero: all three components multiplied
      by `1 - (E - diffusion)*gamma/(gamma^2 - 1)`, `E` the Ridgers-corrected
      radiated energy. */
  function Update(c: Config, p: Vec3, gamma: real, chi: real, d: real): Vec3 {
    if AboveThreshold(c, chi) && gamma > 1.0
    then Damp(p, FrictionFactor(RidgersEnergy(c.tables, chi, c.dt) - d, gamma))
    else p
  }

  /** The update as the source writes it, gated on `chi` alone.  `None`
      stands for the division by `gamma^2 - 1 == 0`, whose floating-point
      result is infinite or not a number. */
  function UpdateAsWritten(c: Config, p: Vec3, gamma: real, chi: real, d: real): Option<Vec3> {
    if !AboveThreshold(c, chi) then Some(p)
    else if gamma * gamma - 1.0 == 0.0 then None
    else Some(Damp(p, (RidgersEnergy(c.tables, chi, c.dt) - d) * gamma / (gamma * gamma - 1.0)))
  }

  /** A particle at rest (`gamma == 1`) above the threshold reaches the
      division by zero. */
  lemma AsWrittenDividesByZero(c: Config, chi: real, d: real)
    requires AboveThreshold(c, chi)
    ensures UpdateAsWritten(c, Vec3(0.0, 0.0, 0.0), 1.0, chi, d) == None
  {
  }

  /** The guarded update agrees with the source for every moving particle. */
  lemma UpdateAgreesWhenMoving(c: Config, p: Vec3, gamma: real, chi: real, d: real)
    requires gamma > 1.0
    ensures UpdateAsWritten(c, p, gamma, chi, d) == Some(Update(c, p, gamma, chi, d))
  {
    assert (gamma - 1.0) * (gamma + 1.0) == gamma * gamma - 1.0;
    assert (gamma - 1.0) * (gamma + 1.0) > 0.0;
  }

  /** With the guard, a particle at rest keeps its momentum. */
  lemma UpdateKeepsRest(c: Config, p: Vec3, chi: real, d: real)
    requires c.tables.Valid() && NormSq(p) == 0.0
    ensures Update(c, p, Gamma(c.tables, p), chi, d) == p
  {
    GammaAtLeastOne(c.tables, p);
  }

  /** Momentum of a particle after the operator, from its momentum, charge
      over mass squared, field and the uniform draw it receives. */
  function NewMomentum(c: Config, qm: real, p: Vec3, f: Field, u: real): Vec3
    requires 0 <= c.nielMethod <= 3
  {
    var gamma := Gamma(c.tables, p);
    var chi := ParticleChi(c.tables, qm, p, f);
    Update(c, p, gamma, chi, Kick(c, gamma, chi, u))
  }

  /** Only a moving particle above the threshold changes, and the change
      multiplies all three components by one factor. */
  lemma NewMomentumScales(c: Config, qm: real, p: Vec3, f: Field, u: real)
    requires 0 <= c.nielMethod <= 3
    ensures NewMomentum(c, qm, p, f, u) != p ==>
      AboveThreshold(c, ParticleChi(c.tables, qm, p, f)) && Gamma(c.tables, p) > 1.0
    ensures IsScaled(NewMomentum(c, qm, p, f, u), p)
  {
    var r := NewMomentum(c, qm, p, f, u);
    var g := Gamma(c.tables, p);
    var chi := ParticleChi(c.tables, qm, p, f);
    if AboveThreshold(c, chi) && g > 1.0 {
      assert r == Scale(p, 1.0 - FrictionFactor(RidgersEnergy(c.tables, chi, c.dt) - Kick(c, g, chi, u), g));
    } else {
      ScaleOne(p);
      assert r == Scale(p, 1.0);
    }
  }

  lemma QuietParticle(c: Config, qm: real, p: Vec3, f: Field, u: real)
    requires 0 <= c.nielMethod <= 3 && !AboveThreshold(c, ParticleChi(c.tables, qm, p, f))
    ensures NewMomentum(c, qm, p, f, u) == p
  {
  }

  // The operator on the particle arrays

  /** `gammaAt` and `chiOf` are, on every particle, the Lorentz factor at
      its slot of the buffer and its quantum parameter. */
  ghost predicate GammaKernel(c: Config, charge: seq<int>, field: seq<Field>, momentum: seq<Vec3>, ipartRef: int,
                              gammaAt: int -> real, chiOf: int -> real)
  {
    forall i {:trigger Has(charge, field, momentum, i, ipartRef)} :: Has(charge, field, momentum, i, ipartRef) ==>
      gammaAt(i - ipartRef) == Gamma(c.tables, momentum[i])
      && chiOf(i) == ParticleChi(c.tables, ChargeOverMassSquare(c.oneOverMass, charge[i]), momentum[i], field[i - ipartRef])
  }

  /** The first loop stores `GammaAt` and `ChiOf`. */
  lemma GammaKernelHolds(c: Config, charge: seq<int>, field: seq<Field>, momentum: seq<Vec3>, ipartRef: int)
    ensures GammaKernel(c, charge, field, momentum, ipartRef, GammaAt(c.tables, momentum, ipartRef),
                        ChiOf(c, charge, field, momentum, ipartRef))
  {
    forall i | Has(charge, field, momentum, i, ipartRef)
      ensures GammaAt(c.tables, momentum, ipartRef)(i - ipartRef) == Gamma(c.tables, momentum[i])
    {
      assert i - ipartRef + ipartRef == i;
    }
  }

  /** Whether particle `i` passes the gate, judged on the quantum parameter
      the first pass computes. */
  function GateOf(c: Config, charge: seq<int>, field: seq<Field>, momentum: seq<Vec3>, ipartRef: int): int -> bool {
    i => Has(charge, field, momentum, i, ipartRef)
         && AboveThreshold(c, ParticleChi(c.tables, ChargeOverMassSquare(c.oneOverMass, charge[i]), momentum[i],
                                          field[i - ipartRef]))
  }

  /** Number of gated particles in `[istart, i)`: the draws taken before
      particle `i`'s. */
  function Rank(gated: int -> bool, istart: int, i: int): (n: nat)
    requires istart <= i
    ensures n <= i - istart
    decreases i - istart
  {
    if i == istart then 0 else Rank(gated, istart, i - 1) + (if gated(i - 1) then 1 else 0)
  }

  /** One more particle: one more draw when it passes the gate. */
  lemma RankStep(gated: int -> bool, istart: int, j: nat)
    ensures Rank(gated, istart, istart + (j + 1)) == Rank(gated, istart, istart + j) + (if gated(istart + j) then 1 else 0)
  {
    assert istart + (j + 1) - 1 == istart + j;
  }

  /** Gated particles take their draws in index order, one each: two gated
      particles never share a draw. */
  lemma {:induction false} RankStrict(gated: int -> bool, istart: int, i: int, j: int)
    requires istart <= i < j && gated(i)
    ensures Rank(gated, istart, i) < Rank(gated, istart, j)
    decreases j - i
  {
    if j > i + 1 {
      RankStrict(gated, istart, i, j - 1);
    }
  }

  /** A range where nobody passes the gate takes no draw. */
  lemma {:induction false} RankNone(gated: int -> bool, istart: int, i: int)
    requires istart <= i
    requires forall k :: istart <= k < i ==> !gated(k)
    ensures Rank(gated, istart, i) == 0
    decreases i - istart
  {
    if i > istart {
      RankNone(gated, istart, i - 1);
    }
  }

  /** The uniform draw particle `i` receives when it passes the gate. */
  function DrawOf(gated: int -> bool, draws: seq<real>, next0: int, istart: int): int -> real {
    i => if istart <= i && 0 <= next0 + Rank(gated, istart, i) < |draws| then draws[next0 + Rank(gated, istart, i)] else 0.0
  }

  /** Particle `i`'s momentum after the operator, read from the arrays at
      the start of the call. */
  function MomentumOf(c: Config, charge: seq<int>, field: seq<Field>, momentum: seq<Vec3>, ipartRef: int,
                      draws: seq<real>, next0: int, istart: int): int -> Vec3
    requires 0 <= c.nielMethod <= 3
  {
    i => if Has(charge, field, momentum, i, ipartRef)
         then NewMomentum(c, ChargeOverMassSquare(c.oneOverMass, charge[i]), momentum[i], field[i - ipartRef],
                          DrawOf(GateOf(c, charge, field, momentum, ipartRef), draws, next0, istart)(i))
         else Vec3(0.0, 0.0, 0.0)
  }

  /** Drop of particle `i`'s Lorentz factor from `m0` to `m1`. */
  function LossOf(t: Tables, m0: seq<Vec3>, m1: seq<Vec3>): int -> real {
    i => if 0 <= i < |m0| && i < |m1| then Gamma(t, m0[i]) - Gamma(t, m1[i]) else 0.0
  }

  /** A range where nobody passes the gate keeps its momenta and takes no
      draw. */
  lemma QuietRange(c: Config, charge: seq<int>, field: seq<Field>, momentum: seq<Vec3>,
                   istart: int, iend: int, ipartRef: int, draws: seq<real>, next0: int)
    requires 0 <= c.nielMethod <= 3 && InRange(charge, field, momentum, istart, iend, ipartRef)
    requires forall i :: istart <= i < iend ==> !GateOf(c, charge, field, momentum, ipartRef)(i)
    ensures forall i :: istart <= i < iend ==>
      MomentumOf(c, charge, field, momentum, ipartRef, draws, next0, istart)(i) == momentum[i]
    ensures Rank(GateOf(c, charge, field, momentum, ipartRef), istart, iend) == 0
  {
    forall i | istart <= i < iend
      ensures MomentumOf(c, charge, field, momentum, ipartRef, draws, next0, istart)(i) == momentum[i]
    {
      assert Has(charge, field, momentum, i, ipartRef) && !GateOf(c, charge, field, momentum, ipartRef)(i);
      QuietParticle(c, ChargeOverMassSquare(c.oneOverMass, charge[i]), momentum[i], field[i - ipartRef],
                    DrawOf(GateOf(c, charge, field, momentum, ipartRef), draws, next0, istart)(i));
    }
    RankNone(GateOf(c, charge, field, momentum, ipartRef), istart, iend);
  }

  /** The Lorentz factor the first loop as written hands to the quantum
      parameter of particle `ipart`: it stores the factor at
      `gamma[ipart-ipart_ref]` but reads `gamma[ipart]`, which holds the
      particle's own factor only when `ipart_ref == 0` and otherwise a value
      left in the buffer before the call. */
  function GammaReadAsWritten(buffer: seq<real>, own: real, ipart: int, ipartRef: int): real
    requires 0 <= ipart < |buffer|
  {
    if ipartRef == 0 then own else buffer[ipart]
  }

  /** With `ipart_ref = 1` and a zeroed buffer, particle 1's quantum
      parameter is computed with a Lorentz factor of 0 instead of its own. */
  lemma StaleGammaRead(t: Tables, p: Vec3)
    requires t.Valid()
    ensures GammaReadAsWritten([0.0, 0.0], Gamma(t, p), 1, 1) < Gamma(t, p)
  {
    GammaAtLeastOne(t, p);
  }

  /** `gamma - new_gamma` of particle `i`, the old Lorentz factor read
      from the buffer where the first loop stored it. */
  function DropOf(buffer: seq<real>, newGamma: int -> real, ipartRef: int): int -> real {
    i => (if 0 <= i - ipartRef < |buffer| then buffer[i - ipartRef] else 0.0) - newGamma(i)
  }

  /** The reduction of the last loop: `weight[ipart]*(gamma - new_gamma)`
      summed over the range. */
  function Reduction(weight: seq<real>, buffer: seq<real>, newGamma: int -> real,
                     istart: int, iend: int, ipartRef: int): real
    requires 0 <= istart <= iend <= |weight|
  {
    WeightedTable(weight, DropOf(buffer, newGamma, ipartRef), istart, iend)
  }

  /** The reduction as written, reading the old factor at `gamma[ipart]`. */
  function ReductionAsWritten(weight: seq<real>, buffer: seq<real>, newGamma: int -> real,
                              istart: int, iend: int): real
    requires 0 <= istart <= iend <= |weight|
  {
    WeightedTable(weight, i => (if 0 <= i < |buffer| then buffer[i] else 0.0) - newGamma(i), istart, iend)
  }

  /** The corrected reduction, over the factors the first loop stored, is
      the weighted drop of every particle's Lorentz factor. */
  lemma ReductionIsLoss(t: Tables, weight: seq<real>, b0: seq<real>, buffer: seq<real>, m0: seq<Vec3>, m1: seq<Vec3>,
                        istart: int, iend: int, ipartRef: int)
    requires 0 <= ipartRef <= istart <= iend <= |weight| && iend <= |m0| == |m1| && iend - ipartRef <= |b0|
    requires buffer == Sweep(b0, GammaAt(t, m0, ipartRef), istart - ipartRef, iend - ipartRef)
    ensures Reduction(weight, buffer, GammaOf(t, m1), istart, iend, ipartRef)
         == WeightedTable(weight, LossOf(t, m0, m1), istart, iend)
  {
    SweepAt(b0, GammaAt(t, m0, ipartRef), istart - ipartRef, iend - ipartRef);
    forall k | istart <= k < iend
      ensures DropOf(buffer, GammaOf(t, m1), ipartRef)(k) == LossOf(t, m0, m1)(k)
    {
      assert buffer[k - ipartRef] == GammaAt(t, m0, ipartRef)(k - ipartRef);
    }
    WeightedTableAgree(weight, DropOf(buffer, GammaOf(t, m1), ipartRef), LossOf(t, m0, m1), istart, iend);
  }

  /** With `ipart_ref = 0` the two reductions agree. */
  lemma ReductionAtZeroRef(weight: seq<real>, buffer: seq<real>, newGamma: int -> real, istart: int, iend: int)
    requires 0 <= istart <= iend <= |weight|
    ensures ReductionAsWritten(weight, buffer, newGamma, istart, iend) == Reduction(weight, buffer, newGamma, istart, iend, 0)
  {
    WeightedTableAgree(weight, i => (if 0 <= i < |buffer| then buffer[i] else 0.0) - newGamma(i),
                       DropOf(buffer, newGamma, 0), istart, iend);
  }

  /** With `ipart_ref = 1`, one particle of weight 1 whose factor drops from
      2 to 1 (stored at buffer index 0): the reduction as written reports
      `-1`, the intended one `1`. */
  lemma ReductionMissesOffset()
    ensures ReductionAsWritten([0.0, 1.0], [2.0, 0.0], _ => 1.0, 1, 2) == -1.0
    ensures Reduction([0.0, 1.0], [2.0, 0.0], _ => 1.0, 1, 2, 1) == 1.0
  {
    var buffer := [2.0, 0.0];
    var g: int -> real := _ => 1.0;
    var asWritten: int -> real := i => (if 0 <= i < |buffer| then buffer[i] else 0.0) - g(i);
    WeightedTableStep([0.0, 1.0], asWritten, 1, 2);
    WeightedTableStep([0.0, 1.0], DropOf(buffer, g, 1), 1, 2);
  }

  /** `Gamma` of each entry of `m`. */
  function GammaOf(t: Tables, m: seq<Vec3>): int -> real {
    i => if 0 <= i < |m| then Gamma(t, m[i]) else 0.0
  }

  /** The Lorentz factor of particle `j + ipart_ref`: what the first loop
      stores at `gamma[j]` of the thread's buffer. */
  function GammaAt(t: Tables, m: seq<Vec3>, ipartRef: int): int -> real {
    j => if 0 <= j + ipartRef < |m| then Gamma(t, m[j + ipartRef]) else 0.0
  }

  /** The quantum parameter of particle `i` with momentum `m[i]`. */
  function ChiOf(c: Config, charge: seq<int>, field: seq<Field>, m: seq<Vec3>, ipartRef: int): int -> real {
    i => if Has(charge, field, m, i, ipartRef)
         then ParticleChi(c.tables, ChargeOverMassSquare(c.oneOverMass, charge[i]), m[i], field[i - ipartRef])
         else 0.0
  }

  /** `drop` and `chiOf` are, on every particle, the drop of the Lorentz
      factor from the one stored in `gamma` and the quantum parameter. */
  ghost predicate EnergyKernel(c: Config, charge: seq<int>, field: seq<Field>, momentum: seq<Vec3>, gamma: seq<real>,
                               ipartRef: int, drop: int -> real, chiOf: int -> real)
  {
    forall i {:trigger Has(charge, field, momentum, i, ipartRef)} :: Has(charge, field, momentum, i, ipartRef) ==>
      drop(i) == DropOf(gamma, GammaOf(c.tables, momentum), ipartRef)(i)
      && chiOf(i) == ChiOf(c, charge, field, momentum, ipartRef)(i)
  }

  /** One particle of `EnergyKernel`. */
  lemma EnergyAt(c: Config, charge: seq<int>, field: seq<Field>, momentum: seq<Vec3>, gamma: seq<real>,
                 ipartRef: int, drop: int -> real, chiOf: int -> real, i: int)
    requires EnergyKernel(c, charge, field, momentum, gamma, ipartRef, drop, chiOf)
    requires Has(charge, field, momentum, i, ipartRef) && i - ipartRef < |gamma|
    ensures drop(i) == gamma[i - ipartRef] - Gamma(c.tables, momentum[i])
    ensures chiOf(i) == ParticleChi(c.tables, ChargeOverMassSquare(c.oneOverMass, charge[i]), momentum[i], field[i - ipartRef])
  {
  }

  /** The gate reads the quantum parameters the first loop stores. */
  lemma GateReadsChi(c: Config, charge: seq<int>, field: seq<Field>, m0: seq<Vec3>, ipartRef: int,
                     chi: seq<real>, istart: int, iend: int)
    requires InRange(charge, field, m0, istart, iend, ipartRef) && |chi| == |m0|
    requires forall k :: istart <= k < iend ==> chi[k] == ChiOf(c, charge, field, m0, ipartRef)(k)
    ensures forall k :: istart <= k < iend ==> GateOf(c, charge, field, m0, ipartRef)(k) == AboveThreshold(c, chi[k])
  {
    forall k | istart <= k < iend
      ensures GateOf(c, charge, field, m0, ipartRef)(k) == AboveThreshold(c, chi[k])
    {
      assert Has(charge, field, m0, k, ipartRef);
    }
  }

  /** The pieces of a particle's update, as the passes leave them, assemble
      into `NewMomentum`. */
  lemma Assemble(c: Config, qm: real, p: Vec3, f: Field, u: real, gamma: real, chi: real, d: real)
    requires 0 <= c.nielMethod <= 3
    requires gamma == Gamma(c.tables, p) && chi == ParticleChi(c.tables, qm, p, f)
    requires AboveThreshold(c, chi) ==>
      d == Diffusion(c, NielH(c.tables, c.nielMethod), gamma, chi, NormalVariate(c.tables, u, Sqrt(c.tables, c.dt)))
    ensures Update(c, p, gamma, chi, d) == NewMomentum(c, qm, p, f, u)
  {
  }

  /** The draw of a gated particle `k` is the `Rank`-th draw from `next0`. */
  lemma DrawAt(gated: int -> bool, draws: seq<real>, next0: nat, istart: int, k: int)
    requires istart <= k && next0 + Rank(gated, istart, k) < |draws|
    ensures DrawOf(gated, draws, next0, istart)(k) == draws[next0 + Rank(gated, istart, k)]
  {
  }

  /** Particle `k`'s Lorentz factor, quantum parameter and gate. */
  lemma ReadAt(c: Config, charge: seq<int>, field: seq<Field>, m0: seq<Vec3>, ipartRef: int, k: int)
    requires Has(charge, field, m0, k, ipartRef)
    ensures GammaAt(c.tables, m0, ipartRef)(k - ipartRef) == Gamma(c.tables, m0[k])
    ensures ChiOf(c, charge, field, m0, ipartRef)(k)
         == ParticleChi(c.tables, ChargeOverMassSquare(c.oneOverMass, charge[k]), m0[k], field[k - ipartRef])
    ensures GateOf(c, charge, field, m0, ipartRef)(k) == AboveThreshold(c, ChiOf(c, charge, field, m0, ipartRef)(k))
  {
  }

  /** Particle `k`'s final momentum is its `NewMomentum` with its draw. */
  lemma MomentumAt(c: Config, charge: seq<int>, field: seq<Field>, m0: seq<Vec3>, ipartRef: int,
                   draws: seq<real>, next0: nat, istart: int, k: int)
    requires 0 <= c.nielMethod <= 3 && Has(charge, field, m0, k, ipartRef)
    ensures MomentumOf(c, charge, field, m0, ipartRef, draws, next0, istart)(k)
         == NewMomentum(c, ChargeOverMassSquare(c.oneOverMass, charge[k]), m0[k], field[k - ipartRef],
                        DrawOf(GateOf(c, charge, field, m0, ipartRef), draws, next0, istart)(k))
  {
  }

  /** One particle of the fourth loop: when the buffers and the diffusion
      term it reads are those of the earlier loops, its update is its
      `MomentumOf`. */
  lemma AssembleAt(c: Config, charge: seq<int>, field: seq<Field>, m0: seq<Vec3>, ipartRef: int,
                   draws: seq<real>, next0: nat, istart: int, k: int, gamma: real, chi: real, d: real)
    requires 0 <= c.nielMethod <= 3 && istart <= k && Has(charge, field, m0, k, ipartRef)
    requires gamma == GammaAt(c.tables, m0, ipartRef)(k - ipartRef) && chi == ChiOf(c, charge, field, m0, ipartRef)(k)
    requires next0 + Rank(GateOf(c, charge, field, m0, ipartRef), istart, k) < |draws|
    requires GateOf(c, charge, field, m0, ipartRef)(k) ==>
      d == Diffusion(c, NielH(c.tables, c.nielMethod), gamma, chi,
                     NormalVariate(c.tables, draws[next0 + Rank(GateOf(c, charge, field, m0, ipartRef), istart, k)],
                                   Sqrt(c.tables, c.dt)))
    ensures Update(c, m0[k], gamma, chi, d) == MomentumOf(c, charge, field, m0, ipartRef, draws, next0, istart)(k)
  {
    var gated := GateOf(c, charge, field, m0, ipartRef);
    var qm, f := ChargeOverMassSquare(c.oneOverMass, charge[k]), field[k - ipartRef];
    var u := draws[next0 + Rank(gated, istart, k)];
    DrawAt(gated, draws, next0, istart, k);
    ReadAt(c, charge, field, m0, ipartRef, k);
    Assemble(c, qm, m0[k], f, u, gamma, chi, d);
    MomentumAt(c, charge, field, m0, ipartRef, draws, next0, istart, k);
  }

  /** After the first loop, the buffers hold each particle's Lorentz factor
      and quantum parameter. */
  lemma SweptBuffers(c: Config, charge: seq<int>, field: seq<Field>, m0: seq<Vec3>, ipartRef: int,
                     istart: int, iend: int, g0: seq<real>, c0: seq<real>, gamma: seq<real>, chi: seq<real>)
    requires InRange(charge, field, m0, istart, iend, ipartRef) && |m0| == |c0| && iend - ipartRef <= |g0|
    requires gamma == Sweep(g0, GammaAt(c.tables, m0, ipartRef), istart - ipartRef, iend - ipartRef)
    requires chi == Sweep(c0, ChiOf(c, charge, field, m0, ipartRef), istart, iend)
    ensures forall j :: istart - ipartRef <= j < iend - ipartRef ==> gamma[j] == GammaAt(c.tables, m0, ipartRef)(j)
    ensures forall k :: istart <= k < iend ==> chi[k] == ChiOf(c, charge, field, m0, ipartRef)(k)
  {
    SweptRange(gamma, g0, GammaAt(c.tables, m0, ipartRef), istart - ipartRef, iend - ipartRef);
    SweptRange(chi, c0, ChiOf(c, charge, field, m0, ipartRef), istart, iend);
  }

  class RadiationNiel {
    const config: Config
    const rand: Rng.Random

    constructor (config: Config, rand: Rng.Random)
      ensures this.config == config && this.rand == rand
    {
      this.config := config;
      this.rand := rand;
    }

    /** `operator()` on `[istart, iend)`.  `gamma` is the thread's
        `dynamics_invgf` buffer, indexed by `ipart - ipart_ref`.  Every
        particle gets its Lorentz factor and quantum parameter before any
        momentum changes; each particle above the threshold takes the next
        draw, in index order, and has its momentum updated; the radiated
        energy grows once, by the weighted drop of the Lorentz factors; the
        quantum parameter is recomputed from the final momenta. */
    method Apply(weight: array<real>, charge: array<int>, field: array<Field>, momentum: array<Vec3>,
                 chi: array<real>, gamma: array<real>, radiatedEnergy: real, istart: int, iend: int, ipartRef: int)
      returns (radiatedEnergy': real)
      requires 0 <= config.nielMethod <= 3
      requires rand.Valid() && rand.next + (iend - istart) <= |rand.draws|
      requires InRange(charge[..], field[..], momentum[..], istart, iend, ipartRef)
      requires weight.Length == momentum.Length && chi.Length == momentum.Length && iend - ipartRef <= gamma.Length
      requires chi != weight && gamma != chi && gamma != weight
      modifies momentum, chi, gamma, rand
      ensures rand.Valid()
      ensures rand.next == old(rand.next) + Rank(GateOf(config, charge[..], field[..], old(momentum[..]), ipartRef), istart, iend)
      ensures momentum[..] == Sweep(old(momentum[..]), MomentumOf(config, charge[..], field[..], old(momentum[..]), ipartRef,
                                                                  rand.draws, old(rand.next), istart), istart, iend)
      ensures radiatedEnergy' == radiatedEnergy
        + WeightedTable(weight[..], LossOf(config.tables, old(momentum[..]), momentum[..]), istart, iend)
      ensures chi[..] == Sweep(old(chi[..]), ChiOf(config, charge[..], field[..], momentum[..], ipartRef), istart, iend)
      ensures gamma[..] == Sweep(old(gamma[..]), GammaAt(config.tables, old(momentum[..]), ipartRef),
                                 istart - ipartRef, iend - ipartRef)
    {
      ghost var m0, g0, c0, w := momentum[..], gamma[..], chi[..], weight[..];
      var t := config.tables;
      GammaKernelHolds(config, charge[..], field[..], m0, ipartRef);
      GammaPass(charge, field, momentum, chi, gamma, istart, iend, ipartRef,
                GammaAt(t, m0, ipartRef), ChiOf(config, charge[..], field[..], m0, ipartRef));
      SweptBuffers(config, charge[..], field[..], m0, ipartRef, istart, iend, g0, c0, gamma[..], chi[..]);
      PushMomenta(charge, field, momentum, chi, gamma, istart, iend, ipartRef);
      ghost var m1, g1 := momentum[..], gamma[..];
      var energyLoc := EnergyPass(weight, charge, field, gamma, momentum, chi, istart, iend, ipartRef,
                                  DropOf(g1, GammaOf(t, m1), ipartRef), ChiOf(config, charge[..], field[..], m1, ipartRef));
      SweepTwice(c0, ChiOf(config, charge[..], field[..], m0, ipartRef), ChiOf(config, charge[..], field[..], m1, ipartRef),
                 istart, iend);
      ReductionIsLoss(t, w, g0, g1, m0, m1, istart, iend, ipartRef);
      radiatedEnergy' := radiatedEnergy + energyLoc;
    }

    /** The second to fourth loops, once the first has stored every
        particle's Lorentz factor and quantum parameter: the draws, the
        diffusion terms and the momentum update. */
    method PushMomenta(charge: array<int>, field: array<Field>, momentum: array<Vec3>, chi: array<real>,
                       gamma: array<real>, istart: int, iend: int, ipartRef: int)
      requires 0 <= config.nielMethod <= 3
      requires rand.Valid() && rand.next + (iend - istart) <= |rand.draws|
      requires InRange(charge[..], field[..], momentum[..], istart, iend, ipartRef)
      requires chi.Length == momentum.Length && iend - ipartRef <= gamma.Length && gamma != chi
      requires forall j :: istart - ipartRef <= j < iend - ipartRef ==>
        gamma[j] == GammaAt(config.tables, momentum[..], ipartRef)(j)
      requires forall k :: istart <= k < iend ==> chi[k] == ChiOf(config, charge[..], field[..], momentum[..], ipartRef)(k)
      modifies momentum, rand
      ensures rand.Valid()
      ensures rand.next == old(rand.next) + Rank(GateOf(config, charge[..], field[..], old(momentum[..]), ipartRef), istart, iend)
      ensures momentum[..] == Sweep(old(momentum[..]), MomentumOf(config, charge[..], field[..], old(momentum[..]), ipartRef,
                                                                  rand.draws, old(rand.next), istart), istart, iend)
    {
      ghost var m0, ch, fl, next0 := momentum[..], charge[..], field[..], rand.next;
      ghost var gated := GateOf(config, ch, fl, m0, ipartRef);
      GateReadsChi(config, ch, fl, m0, ipartRef, chi[..], istart, iend);
      var diffusion := Kicks(chi, gamma, istart, iend, ipartRef, gated);
      MomentumKernelHolds(charge, field, chi, gamma, diffusion, momentum, istart, iend, ipartRef, next0);
      MomentumPass(chi, gamma, diffusion, momentum, istart, iend, ipartRef,
                   MomentumOf(config, ch, fl, m0, ipartRef, rand.draws, next0, istart));
    }

    /** The first loop: the Lorentz factor stored at `gamma[ipart-ipart_ref]`
        and the quantum parameter computed with that same factor. */
    method GammaPass(charge: array<int>, field: array<Field>, momentum: array<Vec3>,
                     chi: array<real>, gamma: array<real>, istart: int, iend: int, ipartRef: int,
                     ghost gammaAt: int -> real, ghost chiOf: int -> real)
      requires InRange(charge[..], field[..], momentum[..], istart, iend, ipartRef)
      requires chi.Length == momentum.Length && iend - ipartRef <= gamma.Length && gamma != chi
      requires GammaKernel(config, charge[..], field[..], momentum[..], ipartRef, gammaAt, chiOf)
      modifies chi, gamma
      ensures gamma[..] == Sweep(old(gamma[..]), gammaAt, istart - ipartRef, iend - ipartRef)
      ensures chi[..] == Sweep(old(chi[..]), chiOf, istart, iend)
    {
      ghost var g0, c0 := gamma[..], chi[..];
      var slot := istart - ipartRef;
      for ipart := istart to iend
        invariant slot == ipart - ipartRef
        invariant gamma[..] == Sweep(g0, gammaAt, istart - ipartRef, slot)
        invariant chi[..] == Sweep(c0, chiOf, istart, ipart)
      {
        GammaAdvance(charge, field, momentum, chi, gamma, istart, ipart, slot, ipartRef, gammaAt, chiOf, g0, c0);
        slot := slot + 1;
      }
    }

    /** One turn of the first loop, stated on the two swept buffers. */
    method GammaAdvance(charge: array<int>, field: array<Field>, momentum: array<Vec3>,
                        chi: array<real>, gamma: array<real>, istart: int, ipart: int, slot: int, ipartRef: int,
                        ghost gammaAt: int -> real, ghost chiOf: int -> real, ghost g0: seq<real>, ghost c0: seq<real>)
      requires Has(charge[..], field[..], momentum[..], ipart, ipartRef) && 0 <= ipartRef <= istart <= ipart
      requires |g0| == gamma.Length && |c0| == chi.Length
      requires chi.Length == momentum.Length && slot == ipart - ipartRef && slot < gamma.Length && gamma != chi
      requires GammaKernel(config, charge[..], field[..], momentum[..], ipartRef, gammaAt, chiOf)
      requires gamma[..] == Sweep(g0, gammaAt, istart - ipartRef, slot)
      requires chi[..] == Sweep(c0, chiOf, istart, ipart)
      modifies chi, gamma
      ensures gamma[..] == Sweep(g0, gammaAt, istart - ipartRef, slot + 1)
      ensures chi[..] == Sweep(c0, chiOf, istart, ipart + 1)
    {
      SweepNext(g0, gammaAt, istart - ipartRef, slot);
      SweepNext(c0, chiOf, istart, ipart);
      GammaStep(charge, field, momentum, chi, gamma, ipart, slot, ipartRef, gammaAt(slot), chiOf(ipart));
    }

    /** The body of the first loop for particle `ipart`, whose factor goes
        to slot `ipart - ipartRef` of the buffer. */
    method GammaStep(charge: array<int>, field: array<Field>, momentum: array<Vec3>, chi: array<real>,
                     gamma: array<real>, ipart: int, slot: int, ipartRef: int, ghost g: real, ghost x: real)
      requires 0 <= ipart < charge.Length && ipart < momentum.Length && ipart < chi.Length && gamma != chi
      requires slot == ipart - ipartRef && 0 <= slot < field.Length && slot < gamma.Length
      requires g == Gamma(config.tables, momentum[ipart])
      requires x == ParticleChi(config.tables, ChargeOverMassSquare(config.oneOverMass, charge[ipart]),
                                momentum[ipart], field[ipart - ipartRef])
      modifies chi, gamma
      ensures gamma[..] == old(gamma[..])[slot := g]
      ensures chi[..] == old(chi[..])[ipart := x]
    {
      var t := config.tables;
      var chargeOverMassSquare := ChargeOverMassSquare(config.oneOverMass, charge[ipart]);
      var p := momentum[ipart];
      gamma[ipart - ipartRef] := Sqrt(t, 1.0 + NormSq(p));
      chi[ipart] := Chi(t, chargeOverMassSquare, p, gamma[ipart - ipartRef], field[ipart - ipartRef]);
    }

    /** The first loop as written: the quantum parameter reads the Lorentz
        factor at `gamma[ipart]`, which must then lie in the buffer too. */
    method GammaPassAsWritten(charge: array<int>, field: array<Field>, momentum: array<Vec3>,
                              chi: array<real>, gamma: array<real>, istart: int, iend: int, ipartRef: int)
      requires InRange(charge[..], field[..], momentum[..], istart, iend, ipartRef)
      requires chi.Length == momentum.Length && iend <= gamma.Length && gamma != chi
      modifies chi, gamma
      ensures forall k :: istart <= k < iend ==> gamma[k - ipartRef] == Gamma(config.tables, momentum[k])
      ensures forall k :: istart <= k < iend ==>
        chi[k] == Chi(config.tables, ChargeOverMassSquare(config.oneOverMass, charge[k]), momentum[k],
                      GammaReadAsWritten(old(gamma[..]), Gamma(config.tables, momentum[k]), k, ipartRef),
                      field[k - ipartRef])
    {
      ghost var buffer := gamma[..];
      for ipart := istart to iend
        invariant AsWrittenSoFar(charge, field, momentum, chi, gamma, buffer, istart, ipart, ipartRef)
      {
        GammaStepAsWritten(charge, field, momentum, chi, gamma, buffer, istart, ipart, ipartRef);
      }
    }

    /** What the first loop as written has stored once particles `istart`
        to `ipart - 1` are done: their factors at their slots, every slot
        from `ipart - ipartRef` on still as before the call, and their
        quantum parameters computed with the factor read at `gamma[k]`. */
    ghost predicate AsWrittenSoFar(charge: array<int>, field: array<Field>, momentum: array<Vec3>,
                                   chi: array<real>, gamma: array<real>, buffer: seq<real>,
                                   istart: int, ipart: int, ipartRef: int)
      reads charge, field, momentum, chi, gamma
    {
      0 <= ipartRef <= istart <= ipart <= momentum.Length && ipart <= gamma.Length && |buffer| == gamma.Length
      && ipart <= charge.Length && ipart <= chi.Length && ipart - ipartRef <= field.Length
      && (forall k :: istart <= k < ipart ==> gamma[k - ipartRef] == Gamma(config.tables, momentum[k]))
      && (forall j :: ipart - ipartRef <= j < gamma.Length ==> gamma[j] == buffer[j])
      && (forall k :: istart <= k < ipart ==>
            chi[k] == Chi(config.tables, ChargeOverMassSquare(config.oneOverMass, charge[k]), momentum[k],
                          GammaReadAsWritten(buffer, Gamma(config.tables, momentum[k]), k, ipartRef),
                          field[k - ipartRef]))
    }

    /** The body of the first loop as written, for particle `ipart`. */
    method GammaStepAsWritten(charge: array<int>, field: array<Field>, momentum: array<Vec3>,
                              chi: array<real>, gamma: array<real>, ghost buffer: seq<real>,
                              istart: int, ipart: int, ipartRef: int)
      requires ipart < momentum.Length && ipart < gamma.Length && ipart < charge.Length && ipart < chi.Length
      requires ipart - ipartRef < field.Length && gamma != chi
      requires AsWrittenSoFar(charge, field, momentum, chi, gamma, buffer, istart, ipart, ipartRef)
      modifies chi, gamma
      ensures AsWrittenSoFar(charge, field, momentum, chi, gamma, buffer, istart, ipart + 1, ipartRef)
    {
      var t := config.tables;
      var chargeOverMassSquare := ChargeOverMassSquare(config.oneOverMass, charge[ipart]);
      var p := momentum[ipart];
      gamma[ipart - ipartRef] := Sqrt(t, 1.0 + NormSq(p));
      assert gamma[ipart] == GammaReadAsWritten(buffer, Gamma(t, p), ipart, ipartRef);
      chi[ipart] := Chi(t, chargeOverMassSquare, p, gamma[ipart], field[ipart - ipartRef]);
    }

    /** The second to fifth loops: a draw for each particle above the
        threshold, in index order, turned into a normal variate and then
        into its diffusion term; entries of the other particles stay
        unwritten. */
    method Kicks(chi: array<real>, gamma: array<real>, istart: int, iend: int, ipartRef: int, ghost gated: int -> bool)
      returns (diffusion: array<real>)
      requires 0 <= config.nielMethod <= 3
      requires rand.Valid() && rand.next + (iend - istart) <= |rand.draws|
      requires 0 <= ipartRef <= istart <= iend <= chi.Length && iend - ipartRef <= gamma.Length
      requires forall k :: istart <= k < iend ==> gated(k) == AboveThreshold(config, chi[k])
      modifies rand
      ensures fresh(diffusion) && diffusion.Length == iend - istart
      ensures rand.Valid() && rand.next == old(rand.next) + Rank(gated, istart, iend)
      ensures forall j :: 0 <= j < iend - istart && gated(istart + j) ==>
        diffusion[j] == Diffusion(config, NielH(config.tables, config.nielMethod), gamma[istart + j - ipartRef],
                                  chi[istart + j],
                                  NormalVariate(config.tables, rand.draws[old(rand.next) + Rank(gated, istart, istart + j)],
                                                Sqrt(config.tables, config.dt)))
    {
      var sqrtdt := Sqrt(config.tables, config.dt);
      diffusion := new real[iend - istart];
      var randomNumbers := NormalDraws(chi, istart, iend, sqrtdt, gated);
      DiffusionPass(chi, gamma, randomNumbers, diffusion, istart, iend, ipartRef, gated);
    }

    /** The second and third loops: a uniform draw for each particle above
        the threshold, in index order, turned into a normal variate. */
    method NormalDraws(chi: array<real>, istart: int, iend: int, sqrtdt: real, ghost gated: int -> bool)
      returns (randomNumbers: array<real>)
      requires rand.Valid() && rand.next + (iend - istart) <= |rand.draws|
      requires 0 <= istart <= iend <= chi.Length
      requires forall k :: istart <= k < iend ==> gated(k) == AboveThreshold(config, chi[k])
      modifies rand
      ensures fresh(randomNumbers) && randomNumbers.Length == iend - istart
      ensures rand.Valid() && rand.next == old(rand.next) + Rank(gated, istart, iend)
      ensures forall j :: 0 <= j < iend - istart && gated(istart + j) ==>
        randomNumbers[j] == NormalVariate(config.tables, rand.draws[old(rand.next) + Rank(gated, istart, istart + j)], sqrtdt)
    {
      ghost var next0 := rand.next;
      randomNumbers := new real[iend - istart];
      RandomPass(chi, randomNumbers, istart, iend, gated);
      ghost var uniform := randomNumbers[..];
      NormalPass(chi, randomNumbers, istart, iend, sqrtdt, gated);
      forall j | 0 <= j < iend - istart && gated(istart + j)
        ensures randomNumbers[j] == NormalVariate(config.tables, rand.draws[next0 + Rank(gated, istart, istart + j)], sqrtdt)
      {
        assert uniform[j] == rand.draws[next0 + Rank(gated, istart, istart + j)];
      }
    }

    /** The second loop: each particle above the threshold takes the next
        uniform draw, in index order; the other entries stay unwritten. */
    method RandomPass(chi: array<real>, randomNumbers: array<real>, istart: int, iend: int, ghost gated: int -> bool)
      requires rand.Valid() && rand.next + (iend - istart) <= |rand.draws|
      requires 0 <= istart <= iend <= chi.Length && randomNumbers.Length == iend - istart && randomNumbers != chi
      requires forall k :: istart <= k < iend ==> gated(k) == AboveThreshold(config, chi[k])
      modifies rand, randomNumbers
      ensures rand.Valid() && rand.next == old(rand.next) + Rank(gated, istart, iend)
      ensures forall j :: 0 <= j < randomNumbers.Length && gated(istart + j) ==>
        randomNumbers[j] == rand.draws[old(rand.next) + Rank(gated, istart, istart + j)]
      ensures forall j :: 0 <= j < randomNumbers.Length && !gated(istart + j) ==> randomNumbers[j] == old(randomNumbers[j])
    {
      ghost var next0, r0 := rand.next, randomNumbers[..];
      var nbparticles := iend - istart;
      for ipart := 0 to nbparticles
        invariant DrawnSoFar(randomNumbers, gated, istart, ipart, next0, r0)
      {
        assert gated(istart + ipart) == AboveThreshold(config, chi[istart + ipart]);
        RandomAdvance(chi, randomNumbers, istart, ipart, gated, next0, r0);
      }
    }

    /** What the second loop has done once `ipart` entries are visited:
        the generator is `Rank` draws further on, each visited particle
        above the threshold holds its draw, every other entry is as before. */
    ghost predicate DrawnSoFar(randomNumbers: array<real>, gated: int -> bool, istart: int, ipart: int,
                               next0: nat, r0: seq<real>)
      reads rand, randomNumbers
    {
      0 <= ipart <= randomNumbers.Length && |r0| == randomNumbers.Length
      && next0 + randomNumbers.Length <= |rand.draws|
      && rand.next == next0 + Rank(gated, istart, istart + ipart)
      && (forall j :: 0 <= j < ipart && gated(istart + j) ==>
            randomNumbers[j] == rand.draws[next0 + Rank(gated, istart, istart + j)])
      && (forall j :: 0 <= j < randomNumbers.Length && !(j < ipart && gated(istart + j)) ==> randomNumbers[j] == r0[j])
    }

    /** One turn of the second loop, stated on what the loop has done. */
    method RandomAdvance(chi: array<real>, randomNumbers: array<real>, istart: int, ipart: int,
                         ghost gated: int -> bool, ghost next0: nat, ghost r0: seq<real>)
      requires 0 <= ipart < randomNumbers.Length && 0 <= istart + ipart < chi.Length && randomNumbers != chi
      requires gated(istart + ipart) == AboveThreshold(config, chi[istart + ipart])
      requires DrawnSoFar(randomNumbers, gated, istart, ipart, next0, r0)
      modifies rand, randomNumbers
      ensures DrawnSoFar(randomNumbers, gated, istart, ipart + 1, next0, r0)
    {
      RankStep(gated, istart, ipart);
      DrawStep(chi, randomNumbers, istart, ipart);
    }

    /** The body of the second loop for particle `istart + ipart`. */
    method DrawStep(chi: array<real>, randomNumbers: array<real>, istart: int, ipart: int)
      requires 0 <= ipart < randomNumbers.Length && 0 <= istart + ipart < chi.Length && randomNumbers != chi
      requires rand.Valid() && (AboveThreshold(config, chi[istart + ipart]) ==> rand.Available())
      modifies rand, randomNumbers
      ensures rand.Valid()
      ensures rand.next == old(rand.next) + (if AboveThreshold(config, chi[istart + ipart]) then 1 else 0)
      ensures randomNumbers[ipart] == if AboveThreshold(config, chi[istart + ipart]) then rand.draws[old(rand.next)]
                                      else old(randomNumbers[ipart])
      ensures forall j :: 0 <= j < randomNumbers.Length && j != ipart ==> randomNumbers[j] == old(randomNumbers[j])
    {
      if chi[istart + ipart] > config.tables.minimumChiContinuous {
        randomNumbers[ipart] := rand.Draw();
      }
    }

    /** The third loop: the draws of the particles above the threshold
        turned into normal variates of variance `dt`. */
    method NormalPass(chi: array<real>, randomNumbers: array<real>, istart: int, iend: int, sqrtdt: real,
                      ghost gated: int -> bool)
      requires 0 <= istart <= iend <= chi.Length && randomNumbers.Length == iend - istart && randomNumbers != chi
      requires forall k :: istart <= k < iend ==> gated(k) == AboveThreshold(config, chi[k])
      modifies randomNumbers
      ensures forall j :: 0 <= j < randomNumbers.Length && gated(istart + j) ==>
        randomNumbers[j] == NormalVariate(config.tables, old(randomNumbers[j]), sqrtdt)
      ensures forall j :: 0 <= j < randomNumbers.Length && !gated(istart + j) ==> randomNumbers[j] == old(randomNumbers[j])
    {
      var t := config.tables;
      var nbparticles := iend - istart;
      ghost var r0 := randomNumbers[..];
      for ipart := 0 to nbparticles
        invariant forall j :: 0 <= j < nbparticles ==>
          randomNumbers[j] == (if j < ipart && gated(istart + j) then NormalVariate(t, r0[j], sqrtdt) else r0[j])
      {
        assert gated(istart + ipart) == AboveThreshold(config, chi[istart + ipart]);
        if chi[istart + ipart] > t.minimumChiContinuous {
          randomNumbers[ipart] := Variate(randomNumbers[ipart], sqrtdt);
        }
      }
    }

    /** The body of the third loop for one draw `r`. */
    method Variate(r: real, sqrtdt: real) returns (v: real)
      ensures v == NormalVariate(config.tables, r, sqrtdt)
    {
      var t := config.tables;
      var temp := -Log(t, (1.0 - r) * (1.0 + r));
      var p: real;
      if temp < 5.0 {
        temp := temp - 2.5;
        p := Horner(CentralCoefficients, temp);
      } else {
        temp := Sqrt(t, temp) - 3.0;
        p := Horner(TailCoefficients, temp);
      }
      v := r * (p * sqrtdt * Sqrt(t, 2.0));
    }

    /** The dispatch on the method index: each of the four branches runs
        the same diffusion loop with its own `h`. */
    method DiffusionPass(chi: array<real>, gamma: array<real>, randomNumbers: array<real>, diffusion: array<real>,
                         istart: int, iend: int, ipartRef: int, ghost gated: int -> bool)
      requires 0 <= config.nielMethod <= 3
      requires 0 <= ipartRef <= istart <= iend <= chi.Length && iend - ipartRef <= gamma.Length
      requires randomNumbers.Length == iend - istart && diffusion.Length == iend - istart
      requires diffusion != chi && diffusion != gamma && diffusion != randomNumbers
      requires forall k :: istart <= k < iend ==> gated(k) == AboveThreshold(config, chi[k])
      modifies diffusion
      ensures forall j :: 0 <= j < diffusion.Length && gated(istart + j) ==>
        diffusion[j] == Diffusion(config, NielH(config.tables, config.nielMethod), gamma[istart + j - ipartRef],
                                  chi[istart + j], randomNumbers[j])
      ensures forall j :: 0 <= j < diffusion.Length && !gated(istart + j) ==> diffusion[j] == old(diffusion[j])
    {
      var t := config.tables;
      if config.nielMethod == 0 {
        DiffusionLoop(t.nielHFromTable, chi, gamma, randomNumbers, diffusion, istart, iend, ipartRef, gated);
      } else if config.nielMethod == 1 {
        DiffusionLoop(t.nielHFitOrder5, chi, gamma, randomNumbers, diffusion, istart, iend, ipartRef, gated);
      } else if config.nielMethod == 2 {
        DiffusionLoop(t.nielHFitOrder10, chi, gamma, randomNumbers, diffusion, istart, iend, ipartRef, gated);
      } else if config.nielMethod == 3 {
        DiffusionLoop(t.nielHFitRidgers, chi, gamma, randomNumbers, diffusion, istart, iend, ipartRef, gated);
      }
    }

    /** One branch of the dispatch: the diffusion of every particle above
        the threshold, with the Lorentz factor read where the first loop
        stored it. */
    method DiffusionLoop(h: real -> real, chi: array<real>, gamma: array<real>, randomNumbers: array<real>,
                         diffusion: array<real>, istart: int, iend: int, ipartRef: int, ghost gated: int -> bool)
      requires 0 <= ipartRef <= istart <= iend <= chi.Length && iend - ipartRef <= gamma.Length
      requires randomNumbers.Length == iend - istart && diffusion.Length == iend - istart
      requires diffusion != chi && diffusion != gamma && diffusion != randomNumbers
      requires forall k :: istart <= k < iend ==> gated(k) == AboveThreshold(config, chi[k])
      modifies diffusion
      ensures forall j :: 0 <= j < diffusion.Length && gated(istart + j) ==>
        diffusion[j] == Diffusion(config, h, gamma[istart + j - ipartRef], chi[istart + j], randomNumbers[j])
      ensures forall j :: 0 <= j < diffusion.Length && !gated(istart + j) ==> diffusion[j] == old(diffusion[j])
    {
      var t := config.tables;
      for ipart := istart to iend
        invariant forall j :: 0 <= j < diffusion.Length ==>
          diffusion[j] == (if j < ipart - istart && gated(istart + j)
                           then Diffusion(config, h, gamma[istart + j - ipartRef], chi[istart + j], randomNumbers[j])
                           else old(diffusion[j]))
      {
        assert gated(istart + (ipart - istart)) == AboveThreshold(config, chi[ipart]);
        if chi[ipart] > t.minimumChiContinuous {
          diffusion[ipart - istart] := Diffusion(config, h, gamma[ipart - ipartRef], chi[ipart], randomNumbers[ipart - istart]);
        }
      }
    }

    /** `next` is, on every particle of the range, the update of its
        momentum from the buffers and the diffusion terms. */
    ghost predicate MomentumKernel(chi: array<real>, gamma: array<real>, diffusion: array<real>, m0: seq<Vec3>,
                                   istart: int, iend: int, ipartRef: int, next: int -> Vec3)
      reads chi, gamma, diffusion
    {
      0 <= ipartRef <= istart <= iend <= chi.Length && iend <= |m0| && iend - ipartRef <= gamma.Length
      && iend - istart <= diffusion.Length
      && forall j :: 0 <= j < iend - istart ==>
           next(istart + j) == Update(config, m0[istart + j], gamma[istart + j - ipartRef], chi[istart + j], diffusion[j])
    }

    /** With the buffers of the first loop and the kicks of `Kicks`, the
        update of every particle is its `MomentumOf`. */
    lemma MomentumKernelHolds(charge: array<int>, field: array<Field>, chi: array<real>, gamma: array<real>,
                              diffusion: array<real>, momentum: array<Vec3>, istart: int, iend: int, ipartRef: int,
                              next0: nat)
      requires 0 <= config.nielMethod <= 3
      requires InRange(charge[..], field[..], momentum[..], istart, iend, ipartRef)
      requires chi.Length == momentum.Length && iend - ipartRef <= gamma.Length && diffusion.Length == iend - istart
      requires next0 + (iend - istart) <= |rand.draws|
      requires forall j :: istart - ipartRef <= j < iend - ipartRef ==>
        gamma[j] == GammaAt(config.tables, momentum[..], ipartRef)(j)
      requires forall k :: istart <= k < iend ==> chi[k] == ChiOf(config, charge[..], field[..], momentum[..], ipartRef)(k)
      requires forall j :: 0 <= j < iend - istart && GateOf(config, charge[..], field[..], momentum[..], ipartRef)(istart + j) ==>
        diffusion[j] == Diffusion(config, NielH(config.tables, config.nielMethod), gamma[istart + j - ipartRef],
                                  chi[istart + j],
                                  NormalVariate(config.tables,
                                                rand.draws[next0 + Rank(GateOf(config, charge[..], field[..], momentum[..], ipartRef),
                                                                        istart, istart + j)],
                                                Sqrt(config.tables, config.dt)))
      ensures MomentumKernel(chi, gamma, diffusion, momentum[..], istart, iend, ipartRef,
                             MomentumOf(config, charge[..], field[..], momentum[..], ipartRef, rand.draws, next0, istart))
    {
      var ch, fl, m, draws := charge[..], field[..], momentum[..], rand.draws;
      var next := MomentumOf(config, ch, fl, m, ipartRef, draws, next0, istart);
      forall j | 0 <= j < iend - istart
        ensures next(istart + j) == Update(config, m[istart + j], gamma[istart + j - ipartRef], chi[istart + j], diffusion[j])
      {
        AssembleAt(config, ch, fl, m, ipartRef, draws, next0, istart, istart + j,
                   gamma[istart + j - ipartRef], chi[istart + j], diffusion[j]);
      }
    }

    /** The fourth loop: the momentum update of every moving particle above
        the threshold, each particle to its `next`. */
    method MomentumPass(chi: array<real>, gamma: array<real>, diffusion: array<real>, momentum: array<Vec3>,
                        istart: int, iend: int, ipartRef: int, ghost next: int -> Vec3)
      requires chi.Length == momentum.Length
      requires MomentumKernel(chi, gamma, diffusion, momentum[..], istart, iend, ipartRef, next)
      modifies momentum
      ensures momentum[..] == Sweep(old(momentum[..]), next, istart, iend)
    {
      ghost var m0 := momentum[..];
      for j := 0 to iend - istart
        invariant momentum[..] == Sweep(m0, next, istart, istart + j)
      {
        SweepAhead(m0, next, istart, istart + j, istart + j);
        MomentumStep(chi, gamma, diffusion, momentum, istart, j, ipartRef);
      }
    }

    /** The body of the fourth loop for particle `istart + j`. */
    method MomentumStep(chi: array<real>, gamma: array<real>, diffusion: array<real>, momentum: array<Vec3>,
                        istart: int, j: int, ipartRef: int)
      requires 0 <= istart + j < chi.Length == momentum.Length && 0 <= istart + j - ipartRef < gamma.Length
      requires 0 <= j < diffusion.Length
      modifies momentum
      ensures momentum[..] == old(momentum[..])[istart + j := Update(config, old(momentum[istart + j]), gamma[istart + j - ipartRef],
                                                                   chi[istart + j], diffusion[j])]
    {
      var t := config.tables;
      var ipart := istart + j;
      var g := gamma[ipart - ipartRef];
      if chi[ipart] > t.minimumChiContinuous && g > 1.0 {
        var radEnergy := RidgersEnergy(t, chi[ipart], config.dt);
        var temp := FrictionFactor(radEnergy - diffusion[j], g);
        momentum[ipart] := Damp(momentum[ipart], temp);
      }
    }

    /** The last loop: the weighted drop of the Lorentz factors summed, and
        the quantum parameter recomputed from the final momenta.  `drop`
        and `chiOf` stand for `DropOf` and `ChiOf` (see `EnergyKernel`). */
    method EnergyPass(weight: array<real>, charge: array<int>, field: array<Field>, gamma: array<real>,
                      momentum: array<Vec3>, chi: array<real>, istart: int, iend: int, ipartRef: int,
                      ghost drop: int -> real, ghost chiOf: int -> real)
      returns (energyLoc: real)
      requires InRange(charge[..], field[..], momentum[..], istart, iend, ipartRef)
      requires weight.Length == momentum.Length && chi.Length == momentum.Length && iend - ipartRef <= gamma.Length
      requires chi != weight && chi != gamma
      requires EnergyKernel(config, charge[..], field[..], momentum[..], gamma[..], ipartRef, drop, chiOf)
      modifies chi
      ensures energyLoc == WeightedTable(weight[..], drop, istart, iend)
      ensures chi[..] == Sweep(old(chi[..]), chiOf, istart, iend)
    {
      ghost var c0, w := chi[..], weight[..];
      energyLoc := 0.0;
      for ipart := istart to iend
        invariant energyLoc == WeightedTable(w, drop, istart, ipart)
        invariant chi[..] == Sweep(c0, chiOf, istart, ipart)
      {
        EnergyAt(config, charge[..], field[..], momentum[..], gamma[..], ipartRef, drop, chiOf, ipart);
        var newGamma;
        energyLoc, newGamma := EnergyStep(weight, gamma, momentum, istart, ipart, ipartRef, drop, w, energyLoc);
        ChiStep(charge, field, momentum, chi, istart, ipart, ipartRef, newGamma, chiOf, c0);
      }
    }

    /** The body of the last loop for one particle, first half: its new
        Lorentz factor and its weighted drop added to the sum. */
    method EnergyStep(weight: array<real>, gamma: array<real>, momentum: array<Vec3>, istart: int, ipart: int,
                      ipartRef: int, ghost drop: int -> real, ghost w: seq<real>, energy: real)
      returns (energy': real, newGamma: real)
      requires 0 <= istart <= ipart < weight.Length == momentum.Length && 0 <= ipart - ipartRef < gamma.Length
      requires drop(ipart) == gamma[ipart - ipartRef] - Gamma(config.tables, momentum[ipart])
      requires |w| == weight.Length && w[ipart] == weight[ipart] && energy == WeightedTable(w, drop, istart, ipart)
      ensures energy' == WeightedTable(w, drop, istart, ipart + 1)
      ensures newGamma == Gamma(config.tables, momentum[ipart])
    {
      var p := momentum[ipart];
      newGamma := Sqrt(config.tables, 1.0 + NormSq(p));
      var loss := gamma[ipart - ipartRef] - newGamma;
      WeightedTableStep(w, drop, istart, ipart + 1);
      energy' := energy + weight[ipart] * loss;
    }

    /** The body of the last loop for one particle, second half: its
        quantum parameter from the new momentum. */
    method ChiStep(charge: array<int>, field: array<Field>, momentum: array<Vec3>, chi: array<real>,
                   istart: int, ipart: int, ipartRef: int, newGamma: real, ghost chiOf: int -> real, ghost c0: seq<real>)
      requires 0 <= istart <= ipart < chi.Length == momentum.Length == charge.Length && 0 <= ipart - ipartRef < field.Length
      requires newGamma == Gamma(config.tables, momentum[ipart])
      requires chiOf(ipart) == ParticleChi(config.tables, ChargeOverMassSquare(config.oneOverMass, charge[ipart]),
                                           momentum[ipart], field[ipart - ipartRef])
      requires |c0| == chi.Length && chi[..] == Sweep(c0, chiOf, istart, ipart)
      modifies chi
      ensures chi[..] == Sweep(c0, chiOf, istart, ipart + 1)
    {
      var chargeOverMassSquare := ChargeOverMassSquare(config.oneOverMass, charge[ipart]);
      chi[ipart] := Chi(config.tables, chargeOverMassSquare, momentum[ipart], newGamma, field[ipart - ipartRef]);
    }
  }
}
