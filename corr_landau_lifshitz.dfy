/** The corrected Landau-Lifshitz radiation-reaction operator
    (`RadiationCorrLandauLifshitz::operator()`, host path): a continuous
    friction applied to every particle whose Lorentz factor exceeds one and
    whose quantum parameter reaches the continuous threshold, the energy each
    particle loses kept in a scratch array, the weighted sum of those losses
    added to `radiated_energy`, and the quantum parameter recomputed. */
module CorrLandauLifshitz {
  import opened Physics
  import opened Passes

  /** Constants of a `RadiationCorrLandauLifshitz` object. */
  datatype Config = Config(
    tables: Tables,
    dt: real,             // dt_
    oneOverMass: real)    // one_over_mass_

  /** The gate of the momentum update: `gamma > 1` and
      `chi >= getMinimumChiContinuous()`, inclusive. */
  predicate Radiates(c: Config, gamma: real, chi: real) {
    gamma > 1.0 && chi >= c.tables.minimumChiContinuous
  }

  /** `temp = getRidgersCorrectedRadiatedEnergy(chi, dt_) * gamma/(gamma^2 - 1)`. */
  function Friction(c: Config, gamma: real, chi: real): real
    requires gamma > 1.0
  {
    FrictionFactor(RidgersEnergy(c.tables, chi, c.dt), gamma)
  }

  /** Momentum of a particle after the friction step: untouched outside the
      gate, every component multiplied by one common factor inside it. */
  function NewMomentum(c: Config, qm: real, p: Vec3, f: Field): Vec3 {
    var gamma := Gamma(c.tables, p);
    var chi := ParticleChi(c.tables, qm, p, f);
    if Radiates(c, gamma, chi) then Damp(p, Friction(c, gamma, chi)) else p
  }

  /** Only a particle that passes the gate has its momentum changed, and the
      change multiplies all three components by one factor. */
  lemma NewMomentumScales(c: Config, qm: real, p: Vec3, f: Field)
    ensures NewMomentum(c, qm, p, f) != p ==> Radiates(c, Gamma(c.tables, p), ParticleChi(c.tables, qm, p, f))
    ensures IsScaled(NewMomentum(c, qm, p, f), p)
  {
    var r := NewMomentum(c, qm, p, f);
    if r == p {
      ScaleOne(p);
      assert r == Scale(p, 1.0);
    } else {
      var g := Gamma(c.tables, p);
      assert r == Scale(p, 1.0 - Friction(c, g, ParticleChi(c.tables, qm, p, f)));
    }
  }

  /** `rad_norm_energy[ipart-istart]`: written only inside the gate, zero
      from the initialisation otherwise; either way the drop of the Lorentz
      factor across the step. */
  function EnergyLoss(c: Config, qm: real, p: Vec3, f: Field): (e: real)
    ensures e == Gamma(c.tables, p) - Gamma(c.tables, NewMomentum(c, qm, p, f))
  {
    var gamma := Gamma(c.tables, p);
    if Radiates(c, gamma, ParticleChi(c.tables, qm, p, f)) then gamma - Gamma(c.tables, NewMomentum(c, qm, p, f)) else 0.0
  }

  /** A friction factor within `[0, 1]` never raises the Lorentz factor. */
  lemma LossNonNegative(c: Config, qm: real, p: Vec3, f: Field)
    requires c.tables.Valid()
    requires var g := Gamma(c.tables, p);
      Radiates(c, g, ParticleChi(c.tables, qm, p, f)) ==> 0.0 <= Friction(c, g, ParticleChi(c.tables, qm, p, f)) <= 1.0
    ensures EnergyLoss(c, qm, p, f) >= 0.0
  {
    var g := Gamma(c.tables, p);
    var chi := ParticleChi(c.tables, qm, p, f);
    if Radiates(c, g, chi) {
      var k := 1.0 - Friction(c, g, chi);
      assert NewMomentum(c, qm, p, f) == Scale(p, k);
      ScaleShrinks(p, k);
      GammaMonotone(c.tables, Scale(p, k), p);
    }
  }


  /** Particle `i`'s new momentum, read from the arrays. */
  function MomentumOf(c: Config, charge: seq<int>, field: seq<Field>, momentum: seq<Vec3>, ipartRef: int): int -> Vec3 {
    i => if Has(charge, field, momentum, i, ipartRef)
         then NewMomentum(c, ChargeOverMassSquare(c.oneOverMass, charge[i]), momentum[i], field[i - ipartRef])
         else Vec3(0.0, 0.0, 0.0)
  }

  /** Particle `i`'s entry of `rad_norm_energy`, read from the arrays. */
  function LossOf(c: Config, charge: seq<int>, field: seq<Field>, momentum: seq<Vec3>, ipartRef: int): int -> real {
    i => if Has(charge, field, momentum, i, ipartRef)
         then EnergyLoss(c, ChargeOverMassSquare(c.oneOverMass, charge[i]), momentum[i], field[i - ipartRef])
         else 0.0
  }

  /** `next` and `loss` give each particle's new momentum and loss.  The
      quantifier is instantiated only where a particle is named through
      `Has`, which keeps the physics out of the loops that merely carry
      `next` and `loss` along. */
  ghost predicate Kernel(c: Config, charge: seq<int>, field: seq<Field>, momentum: seq<Vec3>, ipartRef: int,
                   next: int -> Vec3, loss: int -> real)
  {
    forall i {:trigger Has(charge, field, momentum, i, ipartRef)} :: Has(charge, field, momentum, i, ipartRef) ==>
      next(i) == MomentumOf(c, charge, field, momentum, ipartRef)(i)
      && loss(i) == LossOf(c, charge, field, momentum, ipartRef)(i)
  }

  /** The reduction as written: `weight[ipart]` with `ipart` counted from 0,
      so the losses of `[istart, iend)` are weighted by the first
      `iend - istart` weights of the array. */
  function RadiatedAsWritten(weight: seq<real>, loss: int -> real, istart: int, iend: int): real
    requires 0 <= istart <= iend <= |weight|
  {
    WeightedSum(weight[..iend - istart], Table(loss, istart, iend))
  }

  /** The two reductions agree when the range starts at the first particle. */
  lemma AsWrittenAtZero(weight: seq<real>, loss: int -> real, iend: int)
    requires 0 <= iend <= |weight|
    ensures RadiatedAsWritten(weight, loss, 0, iend) == WeightedTable(weight, loss, 0, iend)
  {
    assert weight[0..iend] == weight[..iend];
  }

  /** With `istart = 1`, a second particle that loses `0.5` next to a
      weightless first one: the reduction as written charges the loss to the
      first particle and reports nothing, the intended one reports `0.5`. */
  lemma AsWrittenMissesOffset()
    ensures RadiatedAsWritten([0.0, 1.0], _ => 0.5, 1, 2) == 0.0
    ensures WeightedTable([0.0, 1.0], _ => 0.5, 1, 2) == 0.5
  {
    var loss: int -> real := _ => 0.5;
    assert Table(loss, 1, 2) == [0.5] by {
      assert Table(loss, 1, 1) == [];
    }
    assert [0.0, 1.0][..1] == [0.0];
    assert [0.0, 1.0][1..2] == [1.0];
    assert [0.0][..0] == [] && [0.5][..0] == [] && [1.0][..0] == [];
  }

  /** The friction factor of particle `i`, when it passes the gate, lies in
      `[0, 1]`: the step removes part of the momentum and never reverses it. */
  predicate Dissipative(c: Config, qm: real, p: Vec3, f: Field) {
    var g := Gamma(c.tables, p);
    var chi := ParticleChi(c.tables, qm, p, f);
    Radiates(c, g, chi) ==> 0.0 <= Friction(c, g, chi) <= 1.0
  }

  /** The operator never reports a negative radiated energy for particles
      of non-negative weight whose friction is dissipative. */
  lemma RadiatedNonNegative(c: Config, weight: seq<real>, charge: seq<int>, field: seq<Field>,
                            momentum: seq<Vec3>, istart: int, iend: int, ipartRef: int)
    requires c.tables.Valid()
    requires InRange(charge, field, momentum, istart, iend, ipartRef) && |weight| == |momentum|
    requires forall i :: istart <= i < iend ==> weight[i] >= 0.0
    requires forall i :: istart <= i < iend ==>
      Dissipative(c, ChargeOverMassSquare(c.oneOverMass, charge[i]), momentum[i], field[i - ipartRef])
    ensures WeightedTable(weight, LossOf(c, charge, field, momentum, ipartRef), istart, iend) >= 0.0
  {
    var loss := LossOf(c, charge, field, momentum, ipartRef);
    forall i | istart <= i < iend
      ensures loss(i) >= 0.0
    {
      LossNonNegative(c, ChargeOverMassSquare(c.oneOverMass, charge[i]), momentum[i], field[i - ipartRef]);
    }
    WeightedTableNonNegative(weight, loss, istart, iend);
  }

  lemma QuietParticle(c: Config, qm: real, p: Vec3, f: Field)
    requires !Radiates(c, Gamma(c.tables, p), ParticleChi(c.tables, qm, p, f))
    ensures NewMomentum(c, qm, p, f) == p && EnergyLoss(c, qm, p, f) == 0.0
  {
  }

  /** A range in which no particle passes the gate keeps its momenta and
      adds nothing to the radiated energy. */
  lemma QuietRange(c: Config, weight: seq<real>, charge: seq<int>, field: seq<Field>,
                   momentum: seq<Vec3>, istart: int, iend: int, ipartRef: int)
    requires InRange(charge, field, momentum, istart, iend, ipartRef) && |weight| == |momentum|
    requires forall i :: istart <= i < iend ==>
      var qm := ChargeOverMassSquare(c.oneOverMass, charge[i]);
      !Radiates(c, Gamma(c.tables, momentum[i]), ParticleChi(c.tables, qm, momentum[i], field[i - ipartRef]))
    ensures Sweep(momentum, MomentumOf(c, charge, field, momentum, ipartRef), istart, iend) == momentum
    ensures WeightedTable(weight, LossOf(c, charge, field, momentum, ipartRef), istart, iend) == 0.0
  {
    var next := MomentumOf(c, charge, field, momentum, ipartRef);
    var loss := LossOf(c, charge, field, momentum, ipartRef);
    forall i | istart <= i < iend
      ensures next(i) == momentum[i] && loss(i) == 0.0
    {
      QuietParticle(c, ChargeOverMassSquare(c.oneOverMass, charge[i]), momentum[i], field[i - ipartRef]);
    }
    SweepIdentity(momentum, next, istart, iend);
    WeightedTableZero(weight, loss, istart, iend);
  }

  class RadiationCorrLandauLifshitz {
    const config: Config

    constructor (config: Config)
      ensures this.config == config
    {
      this.config := config;
    }

    /** `operator()`: friction on the range `[istart, iend)`, the radiated
        energy added once to `radiated_energy`, with each loss weighted by
        its own particle's weight, and `chi` recomputed from the final
        momenta, including those the gate left untouched.  Charge, weight
        and field are only read. */
    method Apply(weight: array<real>, charge: array<int>, field: array<Field>,
                 momentum: array<Vec3>, chi: array<real>,
                 radiatedEnergy: real, istart: int, iend: int, ipartRef: int)
      returns (radiatedEnergy': real)
      requires InRange(charge[..], field[..], momentum[..], istart, iend, ipartRef)
      requires weight.Length == momentum.Length && chi.Length == momentum.Length && chi != weight
      modifies momentum, chi
      ensures momentum[..] == Sweep(old(momentum[..]), MomentumOf(config, charge[..], field[..], old(momentum[..]), ipartRef),
                                    istart, iend)
      ensures radiatedEnergy' == radiatedEnergy
        + WeightedTable(weight[..], LossOf(config, charge[..], field[..], old(momentum[..]), ipartRef), istart, iend)
      ensures forall k :: istart <= k < iend ==>
        chi[k] == ParticleChi(config.tables, ChargeOverMassSquare(config.oneOverMass, charge[k]), momentum[k],
                              field[k - ipartRef])
      ensures forall k :: 0 <= k < chi.Length && !(istart <= k < iend) ==> chi[k] == old(chi[k])
    {
      ghost var m0, ch, fl, w := momentum[..], charge[..], field[..], weight[..];
      var radNormEnergy := Zeros(iend - istart);
      ghost var next, loss := MomentumOf(config, ch, fl, m0, ipartRef), LossOf(config, ch, fl, m0, ipartRef);
      FrictionPass(charge, field, momentum, radNormEnergy, istart, iend, ipartRef, next, loss);
      ghost var m1 := momentum[..];
      assert charge[..] == ch && field[..] == fl && weight[..] == w;
      var energyLoc := Reduce(weight, radNormEnergy, istart);
      assert energyLoc == WeightedTable(w, LossOf(config, ch, fl, m0, ipartRef), istart, iend);
      UpdateChi(config.tables, config.oneOverMass, charge, field, momentum, chi, istart, iend, ipartRef);
      assert momentum[..] == m1 && charge[..] == ch && field[..] == fl && weight[..] == w;
      radiatedEnergy' := radiatedEnergy + energyLoc;
    }

    /** The scratch array `rad_norm_energy`, zeroed entry by entry. */
    static method Zeros(n: nat) returns (a: array<real>)
      ensures fresh(a) && a.Length == n && forall k :: 0 <= k < n ==> a[k] == 0.0
    {
      a := new real[n];
      for ipart := 0 to n
        invariant forall k :: 0 <= k < ipart ==> a[k] == 0.0
      {
        a[ipart] := 0.0;
      }
    }

    /** The first loop of `operator()`: the gated momentum update, recording
        each updated particle's loss in the zeroed scratch array. */
    method FrictionPass(charge: array<int>, field: array<Field>, momentum: array<Vec3>,
                        radNormEnergy: array<real>, istart: int, iend: int, ipartRef: int,
                        ghost next: int -> Vec3, ghost loss: int -> real)
      requires InRange(charge[..], field[..], momentum[..], istart, iend, ipartRef)
      requires Kernel(config, charge[..], field[..], momentum[..], ipartRef, next, loss)
      requires radNormEnergy.Length == iend - istart
      requires forall k :: 0 <= k < radNormEnergy.Length ==> radNormEnergy[k] == 0.0
      modifies momentum, radNormEnergy
      ensures momentum[..] == Sweep(old(momentum[..]), next, istart, iend)
      ensures radNormEnergy[..] == Table(loss, istart, iend)
    {
      ghost var m0 := momentum[..];
      for ipart := istart to iend
        invariant momentum[..] == Sweep(m0, next, istart, ipart)
        invariant radNormEnergy[..ipart - istart] == Table(loss, istart, ipart)
        invariant forall k :: ipart - istart <= k < radNormEnergy.Length ==> radNormEnergy[k] == 0.0
      {
        SweepAhead(m0, next, istart, ipart, ipart);
        FrictionStep(charge, field, momentum, radNormEnergy, istart, ipart, ipartRef, m0, next, loss);
        assert radNormEnergy[..ipart + 1 - istart] == radNormEnergy[..ipart - istart] + [loss(ipart)];
      }
      assert radNormEnergy[..] == radNormEnergy[..iend - istart];
    }

    /** One iteration of the first loop: particle `ipart`'s momentum and
        scratch entry, written only when it passes the gate. */
    method FrictionStep(charge: array<int>, field: array<Field>, momentum: array<Vec3>,
                        radNormEnergy: array<real>, istart: int, ipart: int, ipartRef: int,
                        ghost m0: seq<Vec3>, ghost next: int -> Vec3, ghost loss: int -> real)
      requires |m0| == momentum.Length && charge.Length == momentum.Length
      requires Kernel(config, charge[..], field[..], m0, ipartRef, next, loss)
      requires 0 <= ipart < momentum.Length && 0 <= ipart - ipartRef < field.Length
      requires 0 <= ipart - istart < radNormEnergy.Length
      requires momentum[ipart] == m0[ipart] && radNormEnergy[ipart - istart] == 0.0
      modifies momentum, radNormEnergy
      ensures momentum[..] == old(momentum[..])[ipart := next(ipart)]
      ensures radNormEnergy[..] == old(radNormEnergy[..])[ipart - istart := loss(ipart)]
    {
      assert Has(charge[..], field[..], m0, ipart, ipartRef);
      var q, e, radiates := ParticleFriction(ChargeOverMassSquare(config.oneOverMass, charge[ipart]),
                                             momentum[ipart], field[ipart - ipartRef]);
      if radiates {
        momentum[ipart] := q;
        radNormEnergy[ipart - istart] := e;
      }
    }

    /** The body of the first loop for one particle: its Lorentz factor and
        quantum parameter, the gate, and inside it the new momentum and the
        exact loss `gamma - sqrt(1 + |p'|^2)`. */
    method ParticleFriction(qm: real, p: Vec3, f: Field) returns (q: Vec3, loss: real, radiates: bool)
      ensures q == NewMomentum(config, qm, p, f)
      ensures radiates ==> loss == EnergyLoss(config, qm, p, f)
      ensures !radiates ==> q == p && EnergyLoss(config, qm, p, f) == 0.0
    {
      var t := config.tables;
      var gamma := Sqrt(t, 1.0 + NormSq(p));
      var particleChi := Chi(t, qm, p, gamma, f);
      q := p;
      loss := 0.0;
      radiates := gamma > 1.0 && particleChi >= t.minimumChiContinuous;
      if radiates {
        var temp := RidgersEnergy(t, particleChi, config.dt);
        temp := temp * (gamma / (gamma * gamma - 1.0));
        assert temp == Friction(config, gamma, particleChi);
        q := Damp(p, temp);
        loss := gamma - Sqrt(t, 1.0 + NormSq(q));
      }
    }
  }
}
