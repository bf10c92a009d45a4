/** The Monte-Carlo radiation-reaction operator as the source runs it: one
    object holding the operator's constants, the random source and the
    temporary photon buffer `new_photons_`; its methods update the particle
    arrays in place.  Each method is proved equal to the functions of module
    `MonteCarloSpec`, whose lemmas carry the properties. */
module MonteCarlo {
  import opened Physics
  import opened MonteCarloSpec
  import opened Passes
  import Rng

  class RadiationMonteCarlo {
    const config: Config
    const rand: Rng.Random
    /** `new_photons_`: photons created during the call, moved to the photon
        species afterwards (by code that is not part of this model). */
    var newPhotons: seq<Photon>

    constructor (config: Config, rand: Rng.Random)
      requires config.photonSampling >= 1
      ensures this.config == config && this.rand == rand && newPhotons == []
    {
      this.config := config;
      this.rand := rand;
      newPhotons := [];
    }

    /** `photonEmission`: recoil of the parent and creation of the
        macro-photons, or the energy lost when no photon is created. */
    method PhotonEmission(ctx: Context, chi: real, gamma: real, momentum: array<Vec3>, ipart: int, u: real)
      returns (radiatedEnergy: real)
      requires config.Valid() && 0 <= ipart < momentum.Length
      requires chi > 0.0 && gamma == Gamma(config.tables, momentum[ipart]) && gamma != 1.0
      modifies this, momentum
      ensures var em := Emit(config, ctx, chi, old(momentum[ipart]), u);
        && momentum[..] == old(momentum[..])[ipart := em.momentum]
        && newPhotons == old(newPhotons) + em.photons
        && radiatedEnergy == em.energy
    {
      RecoilKeepsMomentum(config, chi, momentum[ipart], u);
      MovingGamma(config.tables, momentum[ipart]);
      SqrtPositive(config.tables, gamma * gamma - 1.0);
      var t := config.tables;
      ghost var em := Emit(config, ctx, chi, momentum[ipart], u);
      var photonChi := RandomPhotonChi(t, chi, u);
      var gammaPh := PhotonGamma(config, chi, gamma, u);
      var invOldNorm := RecoilFactor(config, gamma, gammaPh);
      var p := momentum[ipart];
      momentum[ipart] := Damp(p, invOldNorm);
      assert momentum[..] == old(momentum[..])[ipart := em.momentum];
      if ctx.photonSpecies && gammaPh >= config.photonGammaThreshold {
        CreatePhotons(ctx, momentum[ipart], gammaPh, photonChi);
        radiatedEnergy := 0.0;
      } else {
        var q := momentum[ipart];
        gammaPh := gamma - Sqrt(t, 1.0 + NormSq(q));
        radiatedEnergy := ctx.weight * gammaPh;
      }
    }
  
    /** State of particle `ipart`'s loop, as module `MonteCarloSpec` sees it. */
    ghost function LoopState(momentum: array<Vec3>, tau: array<real>, ipart: int,
                             localTime: real, iterations: int, energy: real): McState
      requires 0 <= ipart < momentum.Length && ipart < tau.Length
      reads this, rand, momentum, tau
    {
      McState(momentum[ipart], tau[ipart], localTime, iterations, energy, newPhotons, rand.next, false)
    }

    /** `operator()`: the Monte-Carlo loop of every particle of
        `[istart, iend)` in turn, the local radiated energy added to
        `radiated_energy`, then the quantum parameter of every particle of
        the range recomputed from its final momentum.  When the supplied
        draws run out, the method stops at once. */
    method Apply(position: array<Vec3>, weight: array<real>, charge: array<int>, field: array<Field>,
                 momentum: array<Vec3>, tau: array<real>, chi: array<real>, photonSpecies: bool,
                 radiatedEnergy: real, istart: int, iend: int, ipartRef: int)
      returns (radiatedEnergy': real, exhausted: bool)
      requires config.Valid() && rand.Valid()
      requires Fits(Inputs(position[..], weight[..], charge[..], field[..], ipartRef, photonSpecies), istart, iend)
      requires momentum.Length == position.Length && tau.Length == position.Length && chi.Length == position.Length
      requires momentum != position && tau != weight && chi != weight && tau != chi
      modifies this, rand, momentum, tau, chi
      ensures rand.Valid()
      ensures var r := RunParticles(config, Inputs(position[..], weight[..], charge[..], field[..], ipartRef, photonSpecies),
                                    rand.draws, istart, iend,
                                    Batch(old(momentum[..]), old(tau[..]), 0.0, old(newPhotons), old(rand.next), false));
        && momentum[..] == r.momentum && tau[..] == r.tau
        && newPhotons == r.photons && rand.next == r.next && exhausted == r.exhausted
        && (!exhausted ==> radiatedEnergy' == radiatedEnergy + r.energy)
      ensures !exhausted ==> forall k :: istart <= k < iend ==>
        chi[k] == ParticleChi(config.tables, ChargeOverMassSquare(config.oneOverMass, charge[k]), momentum[k], field[k - ipartRef])
      ensures forall k :: 0 <= k < chi.Length && !(!exhausted && istart <= k < iend) ==> chi[k] == old(chi[k])
      ensures !exhausted && RangeDissipative(config, Inputs(position[..], weight[..], charge[..], field[..], ipartRef, photonSpecies), istart, iend)
        ==> radiatedEnergy' >= radiatedEnergy
    {
      ghost var inp := Inputs(position[..], weight[..], charge[..], field[..], ipartRef, photonSpecies);
      ghost var b0 := Batch(momentum[..], tau[..], 0.0, newPhotons, rand.next, false);
      ghost var adv := (i: int, b: Batch) =>
        if config.Valid() && ParticleIn(inp, i) && BatchFits(inp, rand.draws, b) then Advance(config, inp, rand.draws, i, b) else b;
      RunParticlesFold(config, inp, rand.draws, istart, iend, b0, adv);
      var energyLoc;
      energyLoc, exhausted := ParticlesPass(position, weight, charge, field, momentum, tau, photonSpecies,
                                            istart, iend, ipartRef, inp, adv);
      radiatedEnergy' := radiatedEnergy;
      if exhausted {
        return;
      }
      radiatedEnergy' := radiatedEnergy + energyLoc;
      if RangeDissipative(config, inp, istart, iend) {
        RunParticlesEnergy(config, inp, rand.draws, istart, iend, b0);
      }
      UpdateChi(config.tables, config.oneOverMass, charge, field, momentum, chi, istart, iend, ipartRef);
    }

    /** The first loop of `operator()`: the per-particle Monte-Carlo loops
        of the range, one after the other, summing `radiated_energy_loc`;
        `adv` is the value-level effect of one particle's loop. */
    method ParticlesPass(position: array<Vec3>, weight: array<real>, charge: array<int>, field: array<Field>,
                         momentum: array<Vec3>, tau: array<real>, photonSpecies: bool,
                         istart: int, iend: int, ipartRef: int,
                         ghost inp: Inputs, ghost adv: (int, Batch) -> Batch)
      returns (energyLoc: real, exhausted: bool)
      requires config.Valid() && rand.Valid()
      requires inp == Inputs(position[..], weight[..], charge[..], field[..], ipartRef, photonSpecies)
      requires Fits(inp, istart, iend) && AdvancesBy(config, inp, rand.draws, adv)
      requires momentum.Length == position.Length && tau.Length == position.Length
      requires momentum != position && tau != weight
      modifies this, rand, momentum, tau
      ensures rand.Valid()
      ensures Batch(momentum[..], tau[..], energyLoc, newPhotons, rand.next, exhausted)
           == Fold(adv, Done, istart, iend,
                   Batch(old(momentum[..]), old(tau[..]), 0.0, old(newPhotons), old(rand.next), false))
    {
      ghost var r0 := Fold(adv, Done, istart, iend, Batch(momentum[..], tau[..], 0.0, newPhotons, rand.next, false));
      energyLoc := 0.0;
      exhausted := false;
      for ipart := istart to iend
        invariant rand.Valid() && !exhausted
        invariant Fold(adv, Done, ipart, iend, Batch(momentum[..], tau[..], energyLoc, newPhotons, rand.next, false)) == r0
      {
        energyLoc, exhausted := ParticleOfRange(position, weight, charge, field, momentum, tau, photonSpecies,
                                                ipart, ipartRef, energyLoc, inp, adv);
        if exhausted {
          return;
        }
      }
    }

    /** One turn of the first loop: particle `ipart`'s context read from the
        arrays, then its Monte-Carlo loop. */
    method ParticleOfRange(position: array<Vec3>, weight: array<real>, charge: array<int>, field: array<Field>,
                           momentum: array<Vec3>, tau: array<real>, photonSpecies: bool,
                           ipart: int, ipartRef: int, energyIn: real,
                           ghost inp: Inputs, ghost adv: (int, Batch) -> Batch)
      returns (energy: real, exhausted: bool)
      requires config.Valid() && rand.Valid()
      requires inp == Inputs(position[..], weight[..], charge[..], field[..], ipartRef, photonSpecies)
      requires AdvancesBy(config, inp, rand.draws, adv)
      requires Fits(inp, ipart, ipart + 1)
      requires momentum.Length == position.Length && tau.Length == position.Length
      requires momentum != position && tau != weight
      modifies this, rand, momentum, tau
      ensures rand.Valid()
      ensures Batch(momentum[..], tau[..], energy, newPhotons, rand.next, exhausted)
           == adv(ipart, Batch(old(momentum[..]), old(tau[..]), energyIn, old(newPhotons), old(rand.next), false))
    {
      ghost var b0 := Batch(momentum[..], tau[..], energyIn, newPhotons, rand.next, false);
      assert ParticleIn(inp, ipart) && BatchFits(inp, rand.draws, b0);
      var ctx := Context(ChargeOverMassSquare(config.oneOverMass, charge[ipart]), field[ipart - ipartRef],
                         position[ipart], weight[ipart], photonSpecies);
      assert ctx == ContextOf(config, inp, ipart);
      energy, exhausted := ParticleLoop(ctx, momentum, tau, ipart, energyIn);
    }

    /** The Monte-Carlo loop of one particle: `while (local_it_time < dt_ &&
        mc_it_nb < max_monte_carlo_iterations_)`.  Returns the updated
        `radiated_energy_loc`, and whether the supplied draws ran out (the
        method then stops where it stands). */
    method ParticleLoop(ctx: Context, momentum: array<Vec3>, tau: array<real>, ipart: int, energyIn: real)
      returns (energy: real, exhausted: bool)
      requires config.Valid() && rand.Valid()
      requires 0 <= ipart < momentum.Length && ipart < tau.Length
      modifies this, rand, momentum, tau
      ensures rand.Valid()
      ensures var r := Run(config, ctx, rand.draws,
                           Start(old(momentum[ipart]), old(tau[ipart]), energyIn, old(newPhotons), old(rand.next)));
        && momentum[..] == old(momentum[..])[ipart := r.momentum]
        && tau[..] == old(tau[..])[ipart := r.tau]
        && energy == r.energy && newPhotons == r.photons && rand.next == r.next
        && exhausted == r.exhausted
    {
      ghost var draws := rand.draws;
      ghost var r0 := Run(config, ctx, draws, Start(momentum[ipart], tau[ipart], energyIn, newPhotons, rand.next));
      var localTime := 0.0;
      var iterations := 0;
      energy := energyIn;
      exhausted := false;
      while localTime < config.dt && iterations < config.maxIterations
        invariant rand.Valid() && rand.draws == draws && !exhausted
        invariant momentum[..] == old(momentum[..])[ipart := momentum[ipart]]
        invariant tau[..] == old(tau[..])[ipart := tau[ipart]]
        invariant Run(config, ctx, draws, LoopState(momentum, tau, ipart, localTime, iterations, energy)) == r0
        decreases Remaining(config, LoopState(momentum, tau, ipart, localTime, iterations, energy))
      {
        ghost var cur := LoopState(momentum, tau, ipart, localTime, iterations, energy);
        var stop;
        localTime, iterations, energy, exhausted, stop :=
          Iteration(ctx, momentum, tau, ipart, localTime, iterations, energy, cur);
        if exhausted || stop {
          assert r0 == LoopState(momentum, tau, ipart, localTime, iterations, energy).(exhausted := exhausted);
          return;
        }
      }
      assert r0 == LoopState(momentum, tau, ipart, localTime, iterations, energy);
    }

    /** The body of the per-particle loop: Lorentz factor and quantum
        parameter from the current momentum, a fresh optical depth when one
        is due, then exactly one of the three branches.  `stop` reports the
        `break` for a particle at rest. */
    method Iteration(ctx: Context, momentum: array<Vec3>, tau: array<real>, ipart: int,
                     localTime: real, iterations: int, energy: real, ghost cur: McState)
      returns (localTime': real, iterations': int, energy': real, exhausted: bool, stop: bool)
      requires config.Valid() && rand.Valid()
      requires 0 <= ipart < momentum.Length && ipart < tau.Length
      requires localTime < config.dt && iterations < config.maxIterations
      requires cur == LoopState(momentum, tau, ipart, localTime, iterations, energy)
      modifies this, rand, momentum, tau
      ensures rand.Valid()
      ensures momentum[..] == old(momentum[..])[ipart := momentum[ipart]]
      ensures tau[..] == old(tau[..])[ipart := tau[ipart]]
      ensures var s := LoopState(momentum, tau, ipart, localTime', iterations', energy').(exhausted := exhausted);
        && Run(config, ctx, rand.draws, cur) == Run(config, ctx, rand.draws, s)
        && (exhausted || stop ==> Run(config, ctx, rand.draws, cur) == s)
        && (!exhausted && !stop ==> Remaining(config, s) < Remaining(config, cur))
    {
      ghost var draws := rand.draws;
      var t := config.tables;
      var p := momentum[ipart];
      var gamma := Sqrt(t, 1.0 + NormSq(p));
      DecisionBranches(config, ctx, draws, cur);
      localTime', iterations', energy', exhausted, stop := localTime, iterations, energy, false, false;
      if gamma == 1.0 {
        assert cur.momentum == p && Gamma(config.tables, cur.momentum) == 1.0;
        stop := true;
        return;
      }
      var chi := Chi(t, ctx.chargeOverMassSquare, p, gamma, ctx.field);
      if chi > t.minimumChiDiscontinuous && tau[ipart] <= config.epsilonTau {
        exhausted := NewOpticalDepth(tau, ipart);
        if exhausted {
          assert Decide(config, ctx, draws, cur) == Exhausted(tau[ipart], rand.next);
          return;
        }
      }
      ghost var s1 := LoopState(momentum, tau, ipart, localTime, iterations, energy);
      ghost var b := Classify(config, chi, tau[ipart], gamma);
      assert Decide(config, ctx, draws, cur) == Take(b, gamma, chi, tau[ipart], rand.next);
      assert Run(config, ctx, draws, cur) == Run(config, ctx, draws, Step(config, ctx, draws, b, gamma, chi, s1));
      localTime', iterations', energy', exhausted :=
        TakeBranch(ctx, momentum, tau, ipart, gamma, chi, localTime, iterations, energy, b, s1);
    }

    /** The three branches of an iteration, of which exactly one runs:
        discontinuous emission while the optical depth is above epsilon,
        otherwise continuous emission between the two thresholds for a
        moving particle, otherwise nothing but the end of the loop. */
    method TakeBranch(ctx: Context, momentum: array<Vec3>, tau: array<real>, ipart: int,
                      gamma: real, chi: real, localTime: real, iterations: int, energy: real,
                      ghost b: Branch, ghost s1: McState)
      returns (localTime': real, iterations': int, energy': real, exhausted: bool)
      requires config.Valid() && rand.Valid()
      requires 0 <= ipart < momentum.Length && ipart < tau.Length
      requires s1 == LoopState(momentum, tau, ipart, localTime, iterations, energy)
      requires gamma == Gamma(config.tables, momentum[ipart]) && gamma != 1.0 && chi >= 0.0
      requires b == Classify(config, chi, tau[ipart], gamma)
      modifies this, rand, momentum, tau
      ensures rand.Valid()
      ensures momentum[..] == old(momentum[..])[ipart := momentum[ipart]]
      ensures tau[..] == old(tau[..])[ipart := tau[ipart]]
      ensures LoopState(momentum, tau, ipart, localTime', iterations', energy').(exhausted := exhausted)
           == Step(config, ctx, rand.draws, b, gamma, chi, s1)
    {
      var t := config.tables;
      localTime', iterations', energy', exhausted := localTime, iterations, energy, false;
      if tau[ipart] > config.epsilonTau {
        localTime', iterations', energy', exhausted :=
          DiscontinuousEmission(ctx, momentum, tau, ipart, gamma, chi, localTime, iterations, energy);
      } else if chi <= t.minimumChiDiscontinuous && tau[ipart] <= config.epsilonTau
                && chi > t.minimumChiContinuous && gamma > 1.0 {
        localTime', energy' := ContinuousEmission(ctx, momentum, ipart, gamma, chi, localTime, energy, s1);
      } else {
        // no emission since the quantum parameter is too low
        localTime' := config.dt;
      }
    }

    /** `while (tau[ipart] <= epsilon_tau_) tau[ipart] = -log(1 - uniform())`:
        draw a new final optical depth to reach.  Reports whether the
        supplied draws ran out first. */
    method NewOpticalDepth(tau: array<real>, ipart: int) returns (exhausted: bool)
      requires config.Valid() && rand.Valid() && 0 <= ipart < tau.Length
      modifies rand, tau
      ensures rand.Valid()
      ensures (tau[ipart], rand.next) == Redraw(config, rand.draws, old(tau[ipart]), old(rand.next))
      ensures tau[..] == old(tau[..])[ipart := tau[ipart]]
      ensures exhausted <==> tau[ipart] <= config.epsilonTau
    {
      exhausted := false;
      while tau[ipart] <= config.epsilonTau
        invariant rand.Valid()
        invariant tau[..] == old(tau[..])[ipart := tau[ipart]]
        invariant Redraw(config, rand.draws, tau[ipart], rand.next)
               == Redraw(config, rand.draws, old(tau[ipart]), old(rand.next))
        decreases |rand.draws| - rand.next
      {
        if !rand.Available() {
          exhausted := true;
          return;
        }
        ghost var next0 := rand.next;
        RedrawStep(config, rand.draws, tau[ipart], next0);
        var u := rand.Draw();
        tau[ipart] := OpticalDepth(config, u);
        assert tau[ipart] == OpticalDepth(config, rand.draws[next0]) && rand.next == next0 + 1;
      }
    }

    /** The discontinuous branch: consume optical depth over the emission
        time and, once it is used up, emit a photon with the next draw and
        reset the optical depth to -1. */
    method DiscontinuousEmission(ctx: Context, momentum: array<Vec3>, tau: array<real>, ipart: int,
                                 gamma: real, chi: real, localTime: real, iterations: int, energy: real)
      returns (localTime': real, iterations': int, energy': real, exhausted: bool)
      requires config.Valid() && rand.Valid()
      requires 0 <= ipart < momentum.Length && ipart < tau.Length
      requires tau[ipart] > config.epsilonTau
      requires gamma == Gamma(config.tables, momentum[ipart]) && gamma != 1.0 && chi >= 0.0
      modifies this, rand, momentum, tau
      ensures rand.Valid()
      ensures var r := DiscontinuousStep(config, ctx, rand.draws, gamma, chi,
                         McState(old(momentum[ipart]), old(tau[ipart]), localTime, iterations, energy,
                                 old(newPhotons), old(rand.next), false));
        && momentum[..] == old(momentum[..])[ipart := r.momentum]
        && tau[..] == old(tau[..])[ipart := r.tau]
        && localTime' == r.time && iterations' == r.iterations && energy' == r.energy
        && newPhotons == r.photons && rand.next == r.next && exhausted == r.exhausted
    {
      ghost var r := DiscontinuousStep(config, ctx, rand.draws, gamma, chi,
                       McState(momentum[ipart], tau[ipart], localTime, iterations, energy,
                               newPhotons, rand.next, false));
      var t := config.tables;
      var y := Yield(t, chi, gamma);
      // min(tau/Y, dt - local_it_time), a zero yield giving an infinite tau/Y
      var emissionTime := EmissionTime(tau[ipart], y, config.dt - localTime);
      tau[ipart] := tau[ipart] - y * emissionTime;
      assert tau[..] == old(tau[..])[ipart := tau[ipart]];
      energy' := energy;
      exhausted := false;
      if tau[ipart] <= config.epsilonTau {
        if !rand.Available() {
          exhausted := true;
          localTime', iterations' := localTime, iterations;
          assert r.tau == tau[ipart];
          return;
        }
        assert y != 0.0 && chi > 0.0;
        var u := rand.Draw();
        var e := PhotonEmission(ctx, chi, gamma, momentum, ipart, u);
        energy' := energy + e;
        tau[ipart] := -1.0;
        assert tau[..] == old(tau[..])[ipart := -1.0];
        assert r.tau == -1.0;
      } else {
        assert r.tau == tau[ipart];
      }
      iterations' := iterations + 1;
      localTime' := localTime + emissionTime;
    }

    /** The continuous branch: the rest of the time step as one friction
        impulse, its energy added to the local sum. */
    method ContinuousEmission(ctx: Context, momentum: array<Vec3>, ipart: int,
                              gamma: real, chi: real, localTime: real, energy: real, ghost s: McState)
      returns (localTime': real, energy': real)
      requires config.Valid() && 0 <= ipart < momentum.Length
      requires gamma == Gamma(config.tables, momentum[ipart]) && gamma > 1.0
      requires s.momentum == momentum[ipart] && s.time == localTime && s.energy == energy
      modifies momentum
      ensures var r := ContinuousStep(config, ctx, gamma, chi, s);
        && momentum[..] == old(momentum[..])[ipart := r.momentum]
        && localTime' == r.time && energy' == r.energy
    {
      var t := config.tables;
      var emissionTime := config.dt - localTime;
      var contRadEnergy := RidgersEnergy(t, chi, emissionTime);
      var temp := FrictionFactor(contRadEnergy, gamma);
      momentum[ipart] := Damp(momentum[ipart], temp);
      energy' := energy + ctx.weight * (gamma - Sqrt(t, 1.0 + NormSq(momentum[ipart])));
      localTime' := config.dt;
    }

    /** The creation branch of `photonEmission`: `createParticles` appends
        `radiation_photon_sampling_` blank entries, and the loop fills each
        with the parent's position, the photon momentum along the parent's
        direction, the split weight, zero charge, and the photon quantum
        parameter and sentinel optical depth when the species stores them. */
    method CreatePhotons(ctx: Context, p: Vec3, gammaPh: real, photonChi: real)
      requires config.Valid() && NormSq(p) > 0.0
      modifies this
      ensures newPhotons == old(newPhotons)
                + seq(config.photonSampling, _ => MacroPhoton(config, ctx, p, gammaPh, photonChi))
    {
      var n0 := |newPhotons|;
      newPhotons := newPhotons + seq(config.photonSampling, _ => BlankPhoton(config));
      var npart := |newPhotons|;
      ghost var photon := MacroPhoton(config, ctx, p, gammaPh, photonChi);
      for idNew := npart - config.photonSampling to npart
        invariant |newPhotons| == npart
        invariant newPhotons[..n0] == old(newPhotons)
        invariant forall k :: n0 <= k < idNew ==> newPhotons[k] == photon
        invariant forall k :: idNew <= k < npart ==> newPhotons[k] == BlankPhoton(config)
      {
        var ph := FillPhoton(ctx, p, gammaPh, photonChi, newPhotons[idNew]);
        newPhotons := newPhotons[idNew := ph];
      }
      assert newPhotons == old(newPhotons) + seq(config.photonSampling, _ => photon);
    }

    /** `position[d][id_new] = position[d][ipart]` for each of the first
        `nDim_` dimensions of the blank entry. */
    method FillPosition(pos: Vec3, blank: seq<real>) returns (position: seq<real>)
      requires 1 <= config.nDim <= 3 && |blank| == config.nDim
      ensures position == PositionOf(pos, config.nDim)
    {
      position := blank[0 := pos.x];
      if config.nDim > 1 {
        position := position[1 := pos.y];
        if config.nDim > 2 {
          position := position[2 := pos.z];
        }
      }
    }

    /** The body of the emission loop for one new entry `id_new`. */
    method FillPhoton(ctx: Context, p: Vec3, gammaPh: real, photonChi: real, blank: Photon) returns (ph: Photon)
      requires config.Valid() && NormSq(p) > 0.0 && blank == BlankPhoton(config)
      ensures ph == MacroPhoton(config, ctx, p, gammaPh, photonChi)
    {
      var position := FillPosition(ctx.position, blank.position);
      // Fields the species does not store keep the blank entry's `None`.
      var chi := if config.photonsHaveChi then Some(photonChi) else blank.chi;
      var tau := if config.photonsAreMonteCarlo then Some(-1.0) else blank.tau;
      assert chi == (if config.photonsHaveChi then Some(photonChi) else None);
      assert tau == (if config.photonsAreMonteCarlo then Some(-1.0) else None);
      ph := Photon(position, PhotonMomentum(config, p, gammaPh),
                   ctx.weight * config.InvPhotonSampling(), 0, chi, tau);
    }
  }
}
