# Radiation reaction and Vranic merging in Smilei, modelled in Dafny

Smilei is a particle-in-cell code. During each time step, every species with
radiation reaction passes its particles through one of several radiation
operators. Species with particle merging also go through a merging pass,
which replaces packets of similar macro-particles by fewer ones. This project
models the host (non-GPU) path of four of these passes:

- **`RadiationMonteCarlo::operator()` and `photonEmission`.** Each particle of
  the range `[istart, iend)` runs a loop of at most
  `max_monte_carlo_iterations_` sub-steps. A sub-step does one of three
  things:
  - it advances the particle's optical depth `tau` and, once `tau` is used
    up, emits a photon, recoils the particle and possibly creates
    `radiation_photon_sampling_` macro-photons;
  - it applies one continuous friction impulse;
  - it stops.

  The radiated energy is summed and the quantum parameter `chi` is
  recomputed.
- **`RadiationCorrLandauLifshitz::operator()`.** A continuous friction gated
  on `gamma > 1` and `chi >= minimum_chi_continuous`. Each particle's energy
  loss goes into a scratch array, the weighted sum of the losses is added to
  `radiated_energy`, and `chi` is recomputed.
- **`RadiationNiel::operator()`.** Stored Lorentz factors and `chi`, then
  only for particles above the continuous threshold:
  - a uniform draw;
  - a normal variate, computed by two Horner polynomials;
  - a diffusion term, one of four methods chosen by index;
  - a friction corrected by that term.

  Then comes the weighted drop of the Lorentz factors, and `chi` is
  recomputed.
- **`MergingVranic::operator()`.** The merging of Vranic et al., Computer
  Physics Communications 191 (2015) 65-73.
  - The momenta of a range of more than `merging_ppc_min_threshold_`
    particles are binned into at most 5x5x5 spherical momentum cells
    (norm, azimuth, elevation).
  - They are sorted by cell with a counting sort (histogram, exclusive
    scan, stable scatter).
  - In every cell of at least four particles, each packet of four
    consecutive sorted particles is replaced by two particles of half the
    packet's weight. Their momenta lie in the plane of the total momentum
    and the cell direction.

Every loop of the source is a `method` over `array`s with its invariants. It
is proved equal to a specification function of the old state:
- `Passes.Sweep` for per-particle rewrites;
- `Passes.WeightedTable` for reductions;
- `MonteCarloSpec.Run` / `RunParticles` for the Monte-Carlo loops;
- `VranicSpec.Pass` for the merging.

Lemmas about those functions state what the source promises.

Where the source is wrong (see "## Findings"), the methods and the
specification functions they are proved against implement the corrected
lines. Each of those lines is also modelled as written, in a separate member
that shows the discrepancy on a concrete input.

The floating-point physics is carried as function values: `sqrt`, `log`,
the trigonometric functions, `computeParticleChi` and every table lookup.
These live in `Physics.Tables` and `VranicSpec.Geometry`. Their `Valid`
predicates list the only facts the proofs use:
- `sqrt` is exact on non-negative reals;
- `chi >= 0`;
- the yield is non-negative and zero at `chi == 0`;
- a sampled photon `chi` lies in `[0, chi]`;
- `sin^2 + cos^2 == 1`;
- `cos(acos x) == x` on `[-1, 1]`.

The random generator `rand_` becomes `Rng.Random`, a class that hands out a
supplied sequence of draws in order.

Files:
- `physics.dfy`: vectors, the physics collaborators, the Lorentz factor, and
  the `chi` loop shared by two operators.
- `passes.dfy`: the per-particle rewrite, table and weighted-reduction
  shapes.
- `rng.dfy`: the random source.
- `monte_carlo_spec.dfy` and `monte_carlo.dfy`: the Monte-Carlo operator.
- `corr_landau_lifshitz.dfy`: the corrected Landau-Lifshitz operator.
- `niel.dfy`: the Niel operator.
- `cell_sort.dfy`, `vranic_spec.dfy` and `vranic.dfy`: the counting sort,
  the merging functions, and the merging loops.

## Model

| member | source | states |
|---|---|---|
| Physics.GammaAtLeastOne | src/Radiation/RadiationMonteCarlo.cpp:217-223 | the Lorentz factor `sqrt(1+|p|^2)` is at least 1, and equals 1 exactly when the momentum is zero (the `gamma == 1` break) |
| Physics.MovingGamma | src/Radiation/RadiationMonteCarlo.cpp:217-223 | past the break, `gamma > 1`, `gamma^2 - 1 > 0` (the friction and recoil divisions are defined) and the particle is moving |
| Physics.GammaMonotone | src/Radiation/RadiationCorrLandauLifshitz.cpp:170-173 | a momentum of no larger norm has no larger Lorentz factor |
| Physics.ScaleShrinks | src/Radiation/RadiationCorrLandauLifshitz.cpp:160-162 | scaling all three components by a factor in `[0, 1]` never increases the norm |
| Physics.DampStaysMoving | src/Radiation/RadiationMonteCarlo.cpp:341-343 | `p - temp*p` with `0 <= temp < 1` leaves a moving particle moving |
| Physics.UpdateChi | src/Radiation/RadiationMonteCarlo.cpp:384-399 | the final loop sets `chi[k]` from particle `k`'s charge, final momentum and field for every `k` in the range, and changes no other entry (also src/Radiation/RadiationCorrLandauLifshitz.cpp:194-212) |
| Passes.Sweep | src/Radiation/RadiationCorrLandauLifshitz.cpp:134-175 | a loop that rewrites entry `k` of an array from particle `k` alone keeps the array's length |
| Passes.SweepAt | src/Radiation/RadiationCorrLandauLifshitz.cpp:134-175 | after such a loop over `[istart, i)`, entry `k` is `f(k)` inside the range and unchanged outside it |
| Passes.SweepFrom | src/Radiation/RadiationCorrLandauLifshitz.cpp:134-175 | conversely, an array that is `f(k)` inside the range and unchanged outside is the result of the loop |
| Passes.SweepIdentity | src/Radiation/RadiationCorrLandauLifshitz.cpp:151-163 | a loop whose every particle is left alone leaves the array unchanged |
| Passes.SweepTwice | src/Radiation/RadiationNiel.cpp:187-191 | rewriting the same range twice keeps only the second rewrite (the first `chi` pass is overwritten by the last, 427-431) |
| Passes.Table | src/Radiation/RadiationCorrLandauLifshitz.cpp:111-115 | the scratch array of a range holds one entry per particle |
| Passes.TableAt | src/Radiation/RadiationCorrLandauLifshitz.cpp:170-173 | scratch entry `k` belongs to particle `istart + k` |
| Passes.WeightedTableStep | src/Radiation/RadiationCorrLandauLifshitz.cpp:177-180 | the weighted reduction grows by `weight[i]*e(i)` per particle |
| Passes.WeightedTableNonNegative | src/Radiation/RadiationCorrLandauLifshitz.cpp:177-180 | non-negative weights and losses give a non-negative radiated energy |
| Passes.WeightedTableZero | src/Radiation/RadiationCorrLandauLifshitz.cpp:177-180 | a range where no particle loses energy radiates nothing |
| Passes.WeightedTableAgree | src/Radiation/RadiationNiel.cpp:415-434 | the reduction depends only on the per-particle losses inside the range |
| Passes.Reduce | src/Radiation/RadiationCorrLandauLifshitz.cpp:177-180 | the reduction loop returns `Σ weight[offset+i]*e[i]` over the scratch array; the weights are read from the range's offset, corrected (see Findings) where line 179 reads them from 0 |
| Rng.Random.constructor | src/Radiation/RadiationMonteCarlo.cpp:23-29 | the random source starts at its first supplied draw |
| Rng.Random.Draw | src/Radiation/RadiationNiel.cpp:239-253 | each `uniform()`/`uniform2()` returns the next supplied draw and advances by exactly one |
| MonteCarloSpec.PositionOf | src/Radiation/RadiationMonteCarlo.cpp:525-531 | a photon's position has `nDim_` components, copied from the emitter's |
| MonteCarloSpec.SampledFraction | src/Radiation/RadiationMonteCarlo.cpp:450-454 | `gammaph = photon_chi/chi * (gamma - 1)` lies in `[0, gamma - 1]` |
| MonteCarloSpec.FactorBelowOne | src/Radiation/RadiationMonteCarlo.cpp:463-466 | the recoil factor `gammaph/sqrt(gamma^2-1)` lies in `[0, 1)` |
| MonteCarloSpec.RecoilKeepsMomentum | src/Radiation/RadiationMonteCarlo.cpp:454-466 | for a moving emitter the recoil factor is in `[0, 1)` and the recoiled particle is still moving |
| MonteCarloSpec.EmissionRecoil | src/Radiation/RadiationMonteCarlo.cpp:463-466 | the recoil multiplies all three components by one factor in `(0, 1]` and leaves the particle moving |
| MonteCarloSpec.TotalWeightOfCopies | src/Radiation/RadiationMonteCarlo.cpp:522-552 | `n` copies of a photon carry `n` times its weight |
| MonteCarloSpec.SplitWeight | src/Radiation/RadiationMonteCarlo.cpp:541 | `n` photons of weight `w * (1/n)` carry exactly `w` |
| MonteCarloSpec.MacroPhotonNorm | src/Radiation/RadiationMonteCarlo.cpp:517-538 | each macro-photon's momentum has norm `gammaph`, along the recoiled emitter's direction |
| MonteCarloSpec.MacroPhotonCopies | src/Radiation/RadiationMonteCarlo.cpp:522-552 | the created photons share weight `weight/sampling` (total = emitter weight), charge 0, the emitter's position, `chi = photon_chi` when stored, `tau = -1` when Monte-Carlo, momentum norm `gammaph` |
| MonteCarloSpec.EmissionCreates | src/Radiation/RadiationMonteCarlo.cpp:478-565 | with a photon species and `gammaph >= threshold`: exactly `radiation_photon_sampling_` photons as above are appended, and the returned radiated energy is 0 |
| MonteCarloSpec.EmissionWithoutCreation | src/Radiation/RadiationMonteCarlo.cpp:558-565 | without creation nothing is appended, the returned energy is `weight*(gamma_before - gamma_after)`, and the particle's Lorentz factor does not grow |
| MonteCarloSpec.EmitEnergyNonNegative | src/Radiation/RadiationMonteCarlo.cpp:555-565 | for a particle of non-negative weight `photonEmission` returns a non-negative energy: 0 when photons are created, the parent's loss otherwise |
| MonteCarloSpec.Redraw | src/Radiation/RadiationMonteCarlo.cpp:239-257 | the redraw loop ends with `tau > epsilon_tau_` unless the draws ran out, never rewinds the draws, and changes `tau` only by drawing |
| MonteCarloSpec.RedrawStep | src/Radiation/RadiationMonteCarlo.cpp:242-257 | each redraw consumes one draw and sets `tau = -log(1 - u)` |
| MonteCarloSpec.DecisionBranches | src/Radiation/RadiationMonteCarlo.cpp:217-357 | an iteration stops iff `gamma == 1`; otherwise exactly one branch runs: discontinuous iff `tau > eps` (even below the discontinuous threshold); continuous iff `tau <= eps`, `contThr < chi <= discThr` and `gamma > 1`; else no emission |
| MonteCarloSpec.EmissionTimeBounds | src/Radiation/RadiationMonteCarlo.cpp:273 | the emission time lies between 0 and the time left in the step |
| MonteCarloSpec.DiscontinuousStepFacts | src/Radiation/RadiationMonteCarlo.cpp:263-319 | a discontinuous sub-step keeps `local_it_time <= dt`, counts one iteration, and leaves `tau > eps` or emits and resets `tau` to -1 |
| MonteCarloSpec.Run | src/Radiation/RadiationMonteCarlo.cpp:213-359 | the per-particle loop terminates and never consumes more draws than were supplied |
| MonteCarloSpec.RunIterations | src/Radiation/RadiationMonteCarlo.cpp:213-223 | the loop never counts more than `max_monte_carlo_iterations_` discontinuous sub-steps (315) |
| MonteCarloSpec.RunTime | src/Radiation/RadiationMonteCarlo.cpp:213-223 | `local_it_time` never exceeds `dt_` (273, 317, 352, 356); the loop ends at `dt_`, at the iteration bound or at rest; a particle at rest leaves it untouched |
| MonteCarloSpec.RunTau | src/Radiation/RadiationMonteCarlo.cpp:239-312 | every `tau` the loop leaves behind is its starting value, `> epsilon_tau_`, or exactly -1 |
| MonteCarloSpec.RunTauKept | src/Radiation/RadiationMonteCarlo.cpp:239-312 | a `tau` that starts `> eps` or at -1 stays so |
| MonteCarloSpec.ContinuousEnergy | src/Radiation/RadiationMonteCarlo.cpp:326-353 | with a friction factor in `[0, 1]` the continuous impulse adds `weight*(gamma - new_gamma) >= 0` to `radiated_energy_loc` (346) |
| MonteCarloSpec.RunEnergyGrows | src/Radiation/RadiationMonteCarlo.cpp:213-359 | for a particle of non-negative weight and its continuous friction factor `E*gamma/(gamma^2-1)` in `[0, 1]` at every momentum where its continuous branch can run (`gamma > 1`, `min_chi_continuous < chi <= min_chi_discontinuous`, with chi from its own charge and field), `radiated_energy_loc` never decreases over the particle's loop (294, 346) |
| MonteCarloSpec.EmittedByAppend | src/Radiation/RadiationMonteCarlo.cpp:522-552 | two runs of photons from one emitter concatenate into one |
| MonteCarloSpec.EmitEmittedBy | src/Radiation/RadiationMonteCarlo.cpp:511-552 | every `photonEmission` appends whole groups of `radiation_photon_sampling_` photons, each with the emitter's position, weight share and charge 0 |
| MonteCarloSpec.RunPhotons | src/Radiation/RadiationMonteCarlo.cpp:213-359 | the photon buffer only grows: the old photons stay as a prefix and the new ones were emitted by this particle |
| MonteCarloSpec.EmittedChain | src/Radiation/RadiationMonteCarlo.cpp:204-361 | photon-buffer growth composes across successive sub-steps |
| MonteCarloSpec.DiscontinuousShape | src/Radiation/RadiationMonteCarlo.cpp:263-319 | a discontinuous sub-step either keeps momentum and photons or applies exactly one `photonEmission` with the next draw |
| MonteCarloSpec.StepPhotons | src/Radiation/RadiationMonteCarlo.cpp:263-357 | each branch appends only photons of this emitter to the buffer |
| MonteCarloSpec.StepScale | src/Radiation/RadiationMonteCarlo.cpp:326-353 | each branch multiplies all three momentum components by one common factor |
| MonteCarloSpec.RunKeepsDirection | src/Radiation/RadiationMonteCarlo.cpp:213-359 | over the whole loop the momentum is only ever rescaled, never rotated |
| MonteCarloSpec.RunNext | src/Radiation/RadiationMonteCarlo.cpp:213-359 | the loop never rewinds the random source |
| MonteCarloSpec.Advance | src/Radiation/RadiationMonteCarlo.cpp:204-361 | one particle's loop keeps the batch state well formed |
| MonteCarloSpec.RunParticles | src/Radiation/RadiationMonteCarlo.cpp:204-361 | the loops of the particles of the range, one after the other, keep the batch state well formed |
| MonteCarloSpec.RunParticlesFold | src/Radiation/RadiationMonteCarlo.cpp:204-361 | the range pass equals the fold of the per-particle loop |
| MonteCarloSpec.RunParticlesFrame | src/Radiation/RadiationMonteCarlo.cpp:204-361 | momenta and optical depths outside the range are not touched |
| MonteCarloSpec.RunParticlesAppend | src/Radiation/RadiationMonteCarlo.cpp:204-361 | over the range, the photon buffer only grows and the draws only advance |
| MonteCarloSpec.AdvanceAppend | src/Radiation/RadiationMonteCarlo.cpp:204-361 | the same for one particle |
| MonteCarloSpec.RunParticlesTau | src/Radiation/RadiationMonteCarlo.cpp:239-312 | after the pass every `tau` in the range is unchanged, `> eps`, or -1 |
| MonteCarloSpec.AdvanceTau | src/Radiation/RadiationMonteCarlo.cpp:239-312 | the same for one particle |
| MonteCarloSpec.TauCombine | src/Radiation/RadiationMonteCarlo.cpp:204-361 | the per-particle `tau` property composes along the range |
| MonteCarloSpec.RunParticlesDirection | src/Radiation/RadiationMonteCarlo.cpp:204-361 | after the pass every momentum in the range is a rescaling of its old value |
| MonteCarloSpec.AdvanceDirection | src/Radiation/RadiationMonteCarlo.cpp:204-361 | the same for one particle |
| MonteCarloSpec.DirectionCombine | src/Radiation/RadiationMonteCarlo.cpp:204-361 | the rescaling property composes along the range |
| MonteCarloSpec.RunParticlesEnergy | src/Radiation/RadiationMonteCarlo.cpp:147-361 | over the range, when every particle has a non-negative weight and its continuous friction factor in `[0, 1]` wherever its continuous branch can run, `radiated_energy_loc` never decreases |
| MonteCarloSpec.AdvanceEnergy | src/Radiation/RadiationMonteCarlo.cpp:204-361 | the same for one particle |
| MonteCarloSpec.FrictionDissipativeRadiates | src/Radiation/RadiationMonteCarlo.cpp:326-353 | the per-particle friction hypothesis admits tables whose continuous branch radiates: with chi `= gamma - 1` and corrected energy `chi`, it holds for every particle, and a particle with `1 < gamma <= 2` passes the continuous gate and radiates a positive energy |
| MonteCarloSpec.RunParticlesAtRest | src/Radiation/RadiationMonteCarlo.cpp:217-223 | a particle of the range at rest (`gamma == 1`) keeps its momentum and `tau`, whatever the iteration cap |
| MonteCarloSpec.AdvanceAtRest | src/Radiation/RadiationMonteCarlo.cpp:217-223 | the loop of a particle at rest changes nothing of the batch: its momentum and `tau`, the radiated energy, the photons and the draws stay as they were |
| MonteCarlo.RadiationMonteCarlo.constructor | src/Radiation/RadiationMonteCarlo.cpp:23-29 | the operator starts with its constants, its random source and an empty photon buffer |
| MonteCarlo.RadiationMonteCarlo.PhotonEmission | src/Radiation/RadiationMonteCarlo.cpp:422-566 | `photonEmission` recoils the particle's momentum, appends the created photons and returns the radiated energy, as `Emit` |
| MonteCarlo.RadiationMonteCarlo.Apply | src/Radiation/RadiationMonteCarlo.cpp:52-409 | momenta, `tau`, photons and draws end as `RunParticles` says; `radiated_energy` grows once by the local sum (368), and never decreases when every particle of the range has a non-negative weight and its continuous friction factor in `[0, 1]` wherever its continuous branch can run; `chi` is recomputed for the range from the final momenta; nothing else changes |
| MonteCarlo.RadiationMonteCarlo.ParticlesPass | src/Radiation/RadiationMonteCarlo.cpp:204-361 | the first loop runs the particles' Monte-Carlo loops in index order |
| MonteCarlo.RadiationMonteCarlo.ParticleOfRange | src/Radiation/RadiationMonteCarlo.cpp:204-212 | one turn reads the particle's `charge_over_mass` (205), field, position and weight and runs its loop |
| MonteCarlo.RadiationMonteCarlo.ParticleLoop | src/Radiation/RadiationMonteCarlo.cpp:213-359 | the `while` loop ends in the state `Run` computes; only this particle's entries change |
| MonteCarlo.RadiationMonteCarlo.Iteration | src/Radiation/RadiationMonteCarlo.cpp:217-357 | one pass of the loop body is one step of `Run`, and the loop measure decreases |
| MonteCarlo.RadiationMonteCarlo.TakeBranch | src/Radiation/RadiationMonteCarlo.cpp:263-357 | the branch taken is the one `Classify` picks, with the effect `Step` gives |
| MonteCarlo.RadiationMonteCarlo.NewOpticalDepth | src/Radiation/RadiationMonteCarlo.cpp:242-257 | the redraw loop leaves `tau` and the draws as `Redraw` does, and fails only when the draws run out |
| MonteCarlo.RadiationMonteCarlo.DiscontinuousEmission | src/Radiation/RadiationMonteCarlo.cpp:263-319 | the discontinuous branch has the effect of `DiscontinuousStep` |
| MonteCarlo.RadiationMonteCarlo.ContinuousEmission | src/Radiation/RadiationMonteCarlo.cpp:326-353 | the continuous branch scales the momentum by `1 - E*gamma/(gamma^2-1)`, adds `weight*(gamma - new_gamma)` and sets the time to `dt_` |
| MonteCarlo.RadiationMonteCarlo.CreatePhotons | src/Radiation/RadiationMonteCarlo.cpp:511-552 | appends exactly `radiation_photon_sampling_` identical macro-photons |
| MonteCarlo.RadiationMonteCarlo.FillPosition | src/Radiation/RadiationMonteCarlo.cpp:525-531 | the photon position is the emitter's first `nDim_` coordinates |
| MonteCarlo.RadiationMonteCarlo.FillPhoton | src/Radiation/RadiationMonteCarlo.cpp:533-550 | one created photon gets the macro-photon's fields |
| CorrLandauLifshitz.NewMomentumScales | src/Radiation/RadiationCorrLandauLifshitz.cpp:151-163 | the momentum changes only when `gamma > 1` and `chi >= minimum_chi_continuous` (inclusive); the update multiplies the three components by one factor |
| CorrLandauLifshitz.LossNonNegative | src/Radiation/RadiationCorrLandauLifshitz.cpp:170-173 | a friction factor in `[0, 1]` gives a non-negative energy loss `gamma_before - gamma_after` |
| CorrLandauLifshitz.QuietParticle | src/Radiation/RadiationCorrLandauLifshitz.cpp:151-173 | a particle outside the gate keeps its momentum and loses no energy |
| CorrLandauLifshitz.QuietRange | src/Radiation/RadiationCorrLandauLifshitz.cpp:134-180 | a range with no particle in the gate keeps its momenta and radiates nothing |
| CorrLandauLifshitz.RadiatedNonNegative | src/Radiation/RadiationCorrLandauLifshitz.cpp:177-180 | with non-negative weights and dissipative friction, the radiated energy added is non-negative |
| CorrLandauLifshitz.AsWrittenAtZero | src/Radiation/RadiationCorrLandauLifshitz.cpp:177-180 | the reduction as written is right when `istart == 0` |
| CorrLandauLifshitz.AsWrittenMissesOffset | src/Radiation/RadiationCorrLandauLifshitz.cpp:179 | for `istart = 1` it reads the wrong weight: 0 instead of 0.5 |
| CorrLandauLifshitz.RadiationCorrLandauLifshitz.constructor | src/Radiation/RadiationCorrLandauLifshitz.cpp:23-26 | the operator keeps its constants |
| CorrLandauLifshitz.RadiationCorrLandauLifshitz.Apply | src/Radiation/RadiationCorrLandauLifshitz.cpp:49-229 | momenta become `Sweep` of the gated friction; `radiated_energy` grows once by `Σ weight[i]*loss(i)` over the range (220); `chi` is recomputed for the range from the new momenta, every other `chi` unchanged; weight and charge are only read. The reduction is the corrected line 179 (see Findings) |
| CorrLandauLifshitz.RadiationCorrLandauLifshitz.Zeros | src/Radiation/RadiationCorrLandauLifshitz.cpp:111-115 | the scratch `rad_norm_energy` array starts all zero |
| CorrLandauLifshitz.RadiationCorrLandauLifshitz.FrictionPass | src/Radiation/RadiationCorrLandauLifshitz.cpp:134-175 | the main loop rewrites each momentum and records each particle's loss (zero when not updated) |
| CorrLandauLifshitz.RadiationCorrLandauLifshitz.FrictionStep | src/Radiation/RadiationCorrLandauLifshitz.cpp:134-175 | one turn changes only its particle's momentum and scratch entry |
| CorrLandauLifshitz.RadiationCorrLandauLifshitz.ParticleFriction | src/Radiation/RadiationCorrLandauLifshitz.cpp:138-173 | one particle's friction; outside the gate the momentum is kept and the loss is 0 |
| Niel.PolynomialSnoc | src/Radiation/RadiationNiel.cpp:262-284 | adding one coefficient multiplies the polynomial by `x` and adds it |
| Niel.HornerIsPolynomial | src/Radiation/RadiationNiel.cpp:262-284 | the Horner statements evaluate the polynomial `Σ c_i x^(n-1-i)` |
| Niel.NormalVariateOdd | src/Radiation/RadiationNiel.cpp:257-290 | the normal-variate transform is odd in the draw |
| Niel.KickOdd | src/Radiation/RadiationNiel.cpp:298-375 | so is the diffusion term of each of the four methods, which share one formula (310, 329, 348, 368) |
| Niel.NewMomentumScales | src/Radiation/RadiationNiel.cpp:382-402 | the momentum changes only above the threshold and for a moving particle; the update multiplies the three components by one factor |
| Niel.QuietParticle | src/Radiation/RadiationNiel.cpp:384 | a particle with `chi <= minimum_chi_continuous` keeps its momentum |
| Niel.UpdateAgreesWhenMoving | src/Radiation/RadiationNiel.cpp:392-398 | the guarded update equals the update as written whenever `gamma > 1` |
| Niel.UpdateKeepsRest | src/Radiation/RadiationNiel.cpp:392-398 | the guarded update leaves a particle at rest unchanged |
| Niel.AsWrittenDividesByZero | src/Radiation/RadiationNiel.cpp:392-393 | as written, a particle at rest above the threshold divides by `gamma^2 - 1 = 0` |
| Niel.GammaKernelHolds | src/Radiation/RadiationNiel.cpp:177-194 | the first loop's per-particle values are the Lorentz factor and `chi` of the unchanged momentum |
| Niel.Rank | src/Radiation/RadiationNiel.cpp:239-253 | the number of gated particles before `i` is at most the number of particles before it |
| Niel.RankStep | src/Radiation/RadiationNiel.cpp:239-253 | a particle takes a draw exactly when it is gated |
| Niel.RankStrict | src/Radiation/RadiationNiel.cpp:239-253 | gated particles take distinct draws, in index order |
| Niel.RankNone | src/Radiation/RadiationNiel.cpp:239-253 | a range with no gated particle takes no draw |
| Niel.QuietRange | src/Radiation/RadiationNiel.cpp:239-402 | such a range keeps every momentum and consumes no draw |
| Niel.GateReadsChi | src/Radiation/RadiationNiel.cpp:384 | the gate reads the `chi` stored by the first loop, computed from the old momentum |
| Niel.Assemble | src/Radiation/RadiationNiel.cpp:257-398 | the draw, variate, diffusion and update steps compose to the particle's new momentum |
| Niel.StaleGammaRead | src/Radiation/RadiationNiel.cpp:189 | as written, with `ipart_ref = 1`, `chi` is computed from a stale buffer entry instead of the particle's Lorentz factor |
| Niel.ReductionIsLoss | src/Radiation/RadiationNiel.cpp:415-434 | the reduction, reading the buffer at `ipart - ipart_ref`, is `Σ weight*(gamma_old - gamma_new)` |
| Niel.ReductionAtZeroRef | src/Radiation/RadiationNiel.cpp:425 | the reduction as written agrees with it when `ipart_ref == 0` |
| Niel.ReductionMissesOffset | src/Radiation/RadiationNiel.cpp:425 | for `ipart_ref = 1` it gives -1 where the loss is 1 |
| Niel.RadiationNiel.constructor | src/Radiation/RadiationNiel.cpp:25-28 | the operator keeps its constants and its random source |
| Niel.RadiationNiel.Apply | src/Radiation/RadiationNiel.cpp:51-453 | gated particles take draws in index order (`rand` advances by their number); momenta become `Sweep` of the Niel update with those draws; `radiated_energy` grows once by the weighted Lorentz-factor drop (443); `chi` is recomputed from the new momenta; `gamma` holds the old Lorentz factors at `ipart - ipart_ref`. Lines 189, 392-393 and 425 are corrected (see Findings) |
| Niel.RadiationNiel.PushMomenta | src/Radiation/RadiationNiel.cpp:239-402 | the draw, variate, diffusion and momentum loops together apply the update to the range |
| Niel.RadiationNiel.GammaPass | src/Radiation/RadiationNiel.cpp:177-194 | the first loop stores every Lorentz factor at `ipart - ipart_ref` and every `chi`, before any momentum changes; `chi` reads the buffer at `ipart - ipart_ref`, corrected (see Findings) where line 189 reads `gamma[ipart]` |
| Niel.RadiationNiel.GammaAdvance | src/Radiation/RadiationNiel.cpp:177-194 | one turn of that loop keeps its invariant |
| Niel.RadiationNiel.GammaStep | src/Radiation/RadiationNiel.cpp:182-191 | one particle's buffer entry and `chi` |
| Niel.RadiationNiel.GammaPassAsWritten | src/Radiation/RadiationNiel.cpp:177-194 | as written, the buffer gets the Lorentz factors but `chi` reads the buffer at `ipart` (189) |
| Niel.RadiationNiel.GammaStepAsWritten | src/Radiation/RadiationNiel.cpp:182-191 | one turn of the loop as written |
| Niel.RadiationNiel.Kicks | src/Radiation/RadiationNiel.cpp:239-375 | fills the diffusion of every gated particle from its own draw |
| Niel.RadiationNiel.NormalDraws | src/Radiation/RadiationNiel.cpp:239-290 | each gated particle's random number is the normal variate of the next draw |
| Niel.RadiationNiel.RandomPass | src/Radiation/RadiationNiel.cpp:239-253 | only gated particles take a `uniform2()` draw, in index order |
| Niel.RadiationNiel.RandomAdvance | src/Radiation/RadiationNiel.cpp:239-253 | one turn of that loop keeps its invariant |
| Niel.RadiationNiel.DrawStep | src/Radiation/RadiationNiel.cpp:242-249 | one particle: a draw exactly when gated |
| Niel.RadiationNiel.NormalPass | src/Radiation/RadiationNiel.cpp:257-290 | gated entries become normal variates, the others are untouched |
| Niel.RadiationNiel.Variate | src/Radiation/RadiationNiel.cpp:259-286 | the transform of one draw |
| Niel.RadiationNiel.DiffusionPass | src/Radiation/RadiationNiel.cpp:298-375 | the method index selects `h`; gated entries get the shared diffusion formula |
| Niel.RadiationNiel.DiffusionLoop | src/Radiation/RadiationNiel.cpp:298-316 | one method's loop over the gated particles |
| Niel.RadiationNiel.MomentumKernelHolds | src/Radiation/RadiationNiel.cpp:382-402 | the stored buffers yield each particle's new momentum |
| Niel.RadiationNiel.MomentumPass | src/Radiation/RadiationNiel.cpp:382-402 | the momentum loop rewrites the range as `Sweep` |
| Niel.RadiationNiel.MomentumStep | src/Radiation/RadiationNiel.cpp:384-398 | one particle's update, with a `gamma > 1` guard the source lacks, corrected (see Findings) |
| Niel.RadiationNiel.EnergyPass | src/Radiation/RadiationNiel.cpp:415-434 | the last loop sums the weighted drops and recomputes `chi`; it reads the buffer at `ipart - ipart_ref`, corrected (see Findings) where line 425 reads `gamma[ipart]` |
| Niel.RadiationNiel.EnergyStep | src/Radiation/RadiationNiel.cpp:420-425 | one particle's `new_gamma` and contribution |
| Niel.RadiationNiel.ChiStep | src/Radiation/RadiationNiel.cpp:427-431 | one particle's new `chi` |
| CellSort.Iota | src/Merging/MergingVranic.cpp:292-308 | `0 .. n-1`, the particles of the range to be sorted |
| CellSort.BucketShape | src/Merging/MergingVranic.cpp:292-308 | a cell's bucket lists only particles of that cell, in increasing index order |
| CellSort.BucketCount | src/Merging/MergingVranic.cpp:269-273 | a cell's bucket has as many entries as the histogram counts |
| CellSort.BucketSnoc | src/Merging/MergingVranic.cpp:292-308 | scattering one more particle appends it to its cell's bucket only |
| CellSort.BucketPrefix | src/Merging/MergingVranic.cpp:292-308 | the bucket of a prefix is a prefix of the bucket |
| CellSort.GroupedLength | src/Merging/MergingVranic.cpp:277-286 | the sorted particles of cells `< m` number the exclusive scan at `m` |
| CellSort.BelowMonotone | src/Merging/MergingVranic.cpp:277-286 | the exclusive scan is non-decreasing |
| CellSort.GroupedPrefix | src/Merging/MergingVranic.cpp:277-308 | the sorted order of cells `< c` is a prefix of that of cells `< m` |
| CellSort.GroupedOrdered | src/Merging/MergingVranic.cpp:292-308 | the scatter's order is ascending by cell and stable inside a cell |
| CellSort.GroupedSnoc | src/Merging/MergingVranic.cpp:292-308 | one more particle adds exactly itself to the sorted multiset |
| CellSort.GroupedPermutation | src/Merging/MergingVranic.cpp:292-308 | the sorted order is a permutation of the range |
| CellSort.GroupedNone | src/Merging/MergingVranic.cpp:292-308 | an empty range sorts to nothing |
| CellSort.GroupedAt | src/Merging/MergingVranic.cpp:292-308 | cell `c`'s `r`-th particle sits at `first[c] + r` |
| CellSort.BucketRank | src/Merging/MergingVranic.cpp:292-308 | a particle's rank in its cell is the count of earlier particles of that cell |
| CellSort.SlotHolds | src/Merging/MergingVranic.cpp:292-308 | the slot `first[c] + count` the scatter writes holds that particle |
| CellSort.SegmentCell | src/Merging/MergingVranic.cpp:292-308 | every entry of cell `c`'s segment has cell index `c` |
| CellSort.OrderedDistinct | src/Merging/MergingVranic.cpp:292-308 | an ordered listing has no repeated particle |
| CellSort.SlotInjective | src/Merging/MergingVranic.cpp:292-308 | two particles are never scattered to the same slot |
| CellSort.SlotFresh | src/Merging/MergingVranic.cpp:292-308 | each scatter write lands in a slot no earlier particle took |
| CellSort.SlotOfEntry | src/Merging/MergingVranic.cpp:292-308 | every sorted entry was written by its own particle |
| VranicSpec.ExtremesBound | src/Merging/MergingVranic.cpp:171-192 | the running minimum and maximum bound every value |
| VranicSpec.AxisOf | src/Merging/MergingVranic.cpp:195-219 | an axis either collapses to one cell of width 0 or has 5 cells of width at least `1e-10` |
| VranicSpec.BinInRange | src/Merging/MergingVranic.cpp:195-197 | with the 1% widening, a value within the extremes falls in a cell `< cells` (257-259) |
| VranicSpec.CellInRange | src/Merging/MergingVranic.cpp:262-263 | the 1D cell index is below the product of the dimensions |
| VranicSpec.DimsFit | src/Merging/MergingVranic.cpp:92-100 | the dimensions after collapse never exceed the 125 cells of the histogram |
| VranicSpec.Norms | src/Merging/MergingVranic.cpp:171-192 | the momentum norm of each particle of the range |
| VranicSpec.Azimuths | src/Merging/MergingVranic.cpp:171-192 | `atan2(py, px)` of each particle |
| VranicSpec.Elevations | src/Merging/MergingVranic.cpp:171-192 | `asin(pz/|p|)` of each particle |
| VranicSpec.ParticleAngles | src/Merging/MergingVranic.cpp:171-192 | the three per-particle coordinates, one particle at a time |
| VranicSpec.CellIndices | src/Merging/MergingVranic.cpp:248-264 | one cell index per particle of the range |
| VranicSpec.CellIndexAt | src/Merging/MergingVranic.cpp:248-264 | a particle's index is `CellOf` of its three bins |
| VranicSpec.CellIndicesInRange | src/Merging/MergingVranic.cpp:257-263 | every computed cell index is `< momentum_cells`, so the histogram write (271) is in bounds |
| VranicSpec.DirectionIsUnit | src/Merging/MergingVranic.cpp:223-235 | every cell direction is a unit vector |
| VranicSpec.Directions | src/Merging/MergingVranic.cpp:223-235 | one direction per angular cell, at index `theta*dims[2] + phi` |
| VranicSpec.DirectionAt | src/Merging/MergingVranic.cpp:223-235 | the direction of angular cell `(theta, phi)` |
| VranicSpec.SplitBalance | src/Merging/MergingVranic.cpp:441-452 | the two merged momenta, each of weight `wt/2`, add up to the total momentum |
| VranicSpec.SurvivorsKeepMomentum | src/Merging/MergingVranic.cpp:406-452 | the packet's total momentum is conserved when `0 < |pt| <= wt*pa` |
| VranicSpec.CrossTwiceOrthogonal | src/Merging/MergingVranic.cpp:424-435 | the source's `e2` is orthogonal to `e1` |
| VranicSpec.DirectionUnit | src/Merging/MergingVranic.cpp:420-423 | `e1 = pt/|pt|` is a unit vector |
| VranicSpec.Normalised | src/Merging/MergingVranic.cpp:424-435 | a non-zero vector divided by its norm is a unit vector |
| VranicSpec.SplitOnShell | src/Merging/MergingVranic.cpp:441-452 | `pa (c e1 ± s e2)` has norm `pa` for orthogonal unit `e1`, `e2` and `c^2 + s^2 = 1` |
| VranicSpec.SurvivorsOnShell | src/Merging/MergingVranic.cpp:406-452 | with `e2` normalised, both merged momenta have norm `pa` whenever `pt` is non-zero and not parallel to the cell direction |
| VranicSpec.SurvivorsKeepEnergy | src/Merging/MergingVranic.cpp:400-452 | with the weighted energy and `e2` normalised, the two merged particles of weight `wt/2` carry the packet's total energy |
| VranicSpec.SurvivorsAsWrittenOffShell | src/Merging/MergingVranic.cpp:424-435 | as written, a packet of weight 2, total momentum `(1, 0, 0)` and `pa = 1`, in the cell of direction `(0.6, 0.8, 0)`, gives merged momenta of squared norm 0.73 instead of 1 |
| VranicSpec.Live | src/Merging/MergingVranic.cpp:455-458 | the weight a particle keeps unless tagged |
| VranicSpec.WeightOfFour | src/Merging/MergingVranic.cpp:374-392 | a packet's total weight is the sum of its four weights |
| VranicSpec.PacketUpdate | src/Merging/MergingVranic.cpp:441-458 | the packet update keeps the particle arrays' length |
| VranicSpec.PacketUpdateFrom | src/Merging/MergingVranic.cpp:441-458 | it gives the first two entries weight `wt/2` and the merged momenta, tags the packet's last two, and changes nothing else; the tag index is corrected (see Findings) where line 456 leaves the packet |
| VranicSpec.PacketLive | src/Merging/MergingVranic.cpp:441-458 | the surviving weights after the packet: `wt/2`, `wt/2`, 0, 0 |
| VranicSpec.PacketFrame | src/Merging/MergingVranic.cpp:441-458 | particles outside the packet are untouched |
| VranicSpec.PacketKeepsWeight | src/Merging/MergingVranic.cpp:392 | the surviving weight of any range holding the packet is unchanged |
| VranicSpec.Quad | src/Merging/MergingVranic.cpp:372-392 | packet `k` of cell `c` is sorted entries `first[c] + 4k .. + 3` |
| VranicSpec.QuadWithin | src/Merging/MergingVranic.cpp:357-383 | a packet of a cell with enough particles lies inside the particle arrays |
| VranicSpec.VranicRuleIs | src/Merging/MergingVranic.cpp:406-452 | the merge rule is the source's survivors computation |
| VranicSpec.MergePackets | src/Merging/MergingVranic.cpp:369-460 | the packet loop of a cell keeps the arrays' length |
| VranicSpec.MergeCell | src/Merging/MergingVranic.cpp:357-460 | only cells with at least 4 particles are merged, in `count/4` packets |
| VranicSpec.MergeCells | src/Merging/MergingVranic.cpp:347-465 | the cells are merged in index order, every cell visited; the stride is corrected (see Findings) where line 355 uses 25 |
| VranicSpec.NotMergedYet | src/Merging/MergingVranic.cpp:347-465 | a sorted entry of a later cell is untouched by earlier cells |
| VranicSpec.QuadAvoids | src/Merging/MergingVranic.cpp:369-460 | a packet does not contain the particle of any other sorted entry |
| VranicSpec.NextMergeable | src/Merging/MergingVranic.cpp:369-460 | the next packet still has four distinct untagged particles in the range |
| VranicSpec.PacketStep | src/Merging/MergingVranic.cpp:369-460 | the packet invariant (weight kept, leftovers untouched) survives one packet |
| VranicSpec.MergePacketsKeep | src/Merging/MergingVranic.cpp:369-460 | a cell's packet loop keeps the surviving weight and leaves its `count%4` leftovers untouched |
| VranicSpec.CellUntagged | src/Merging/MergingVranic.cpp:347-465 | a cell's particles are still untagged when its turn comes |
| VranicSpec.CellStep | src/Merging/MergingVranic.cpp:347-465 | the cell invariant survives one cell |
| VranicSpec.CellAdvance | src/Merging/MergingVranic.cpp:347-465 | the cell invariant advances by one merged cell |
| VranicSpec.MergeCellsKeep | src/Merging/MergingVranic.cpp:347-465 | over all cells the surviving weight is kept |
| VranicSpec.Firsts | src/Merging/MergingVranic.cpp:277-286 | `momentum_cell_particle_index[c]` is the number of particles in cells `< c` |
| VranicSpec.Counts | src/Merging/MergingVranic.cpp:269-273 | `particles_per_momentum_cells[c]` is the number of particles in cell `c` |
| VranicSpec.Placed | src/Merging/MergingVranic.cpp:292-308 | `sorted_particles` holds `istart + i` in the grouped order |
| VranicSpec.RangeMomenta | src/Merging/MergingVranic.cpp:171-192 | the momenta the pass reads, one per particle of a non-empty range |
| VranicSpec.SortLaid | src/Merging/MergingVranic.cpp:269-308 | the histogram, scan and scatter outputs form a well-formed cell layout covering the range |
| VranicSpec.LayoutLaid | src/Merging/MergingVranic.cpp:155-308 | the sorting phase yields such a layout, with one sorted entry per particle |
| VranicSpec.Merged | src/Merging/MergingVranic.cpp:155-465 | the sort then merge phases keep the arrays' length |
| VranicSpec.Pass | src/Merging/MergingVranic.cpp:55 | a range of at most `merging_ppc_min_threshold_` particles is left as it is |
| VranicSpec.MergedKeeps | src/Merging/MergingVranic.cpp:347-465 | merging keeps the surviving weight of the range and touches no other particle |
| VranicSpec.PassKeepsWeight | src/Merging/MergingVranic.cpp:44-469 | the pass keeps the range's surviving weight and changes nothing outside the range |
| VranicSpec.TagEntryAsWrittenLeavesPacket | src/Merging/MergingVranic.cpp:455-458 | as written, from the second packet on the tagged entries lie beyond the packet |
| VranicSpec.TagEntryInPacket | src/Merging/MergingVranic.cpp:455-458 | with `first + ip`, the tagged entries are the packet's third and fourth |
| VranicSpec.MergeCellAsWrittenSkipsCell | src/Merging/MergingVranic.cpp:352-355 | as written, with dimensions `[5, 1, 1]` cell 1 is never visited |
| VranicSpec.CellOfOnto | src/Merging/MergingVranic.cpp:262-263 | with the stride of the actual dimensions, every cell is visited |
| VranicSpec.EnergyAtLeastWeight | src/Merging/MergingVranic.cpp:400-402 | the weighted total energy is at least the total weight |
| VranicSpec.EnergyRatio | src/Merging/MergingVranic.cpp:406-409 | then `new_energy >= 1`, so `new_energy^2 - 1 >= 0` |
| VranicSpec.MergedNormDefined | src/Merging/MergingVranic.cpp:400-409 | with the weighted energy, `pa = sqrt(new_energy^2 - 1)` has a non-negative argument |
| VranicSpec.WeightPositive | src/Merging/MergingVranic.cpp:392 | a packet of positive weights has positive total weight |
| VranicSpec.EnergyAsWrittenFour | src/Merging/MergingVranic.cpp:400-402 | as written, `total_energy` is the sum of the four Lorentz factors, unweighted |
| VranicSpec.EnergyAsWrittenUndefined | src/Merging/MergingVranic.cpp:400-409 | with four particles at rest of weight 2, the as-written `new_energy^2 - 1` is negative |
| Vranic.ExtremesSnoc | src/Merging/MergingVranic.cpp:171-192 | one more particle updates the running extremes by `min`/`max` |
| Vranic.AnglesOfRange | src/Merging/MergingVranic.cpp:171-192 | the norms and angles computed there are those of the range |
| Vranic.IndexedByRange | src/Merging/MergingVranic.cpp:248-264 | the index loop's values are the range's cell indices |
| Vranic.CellOfCarry | src/Merging/MergingVranic.cpp:347-355 | the nested cell loops visit consecutive 1D indices |
| Vranic.AngularPart | src/Merging/MergingVranic.cpp:352-355 | `icc` is the angular part of the cell index |
| Vranic.MergingVranic.constructor | src/Merging/MergingVranic.cpp:20-24 | the pass keeps its threshold, collaborators and dimensions |
| Vranic.MergingVranic.Apply | src/Merging/MergingVranic.cpp:44-469 | weights, momenta and keys end as `Pass` of the old ones; the dimensions are those of the range's axes when the range exceeds the threshold, unchanged otherwise. Lines 355, 400-402, 424-435 and 456 are corrected (see Findings) |
| Vranic.MergingVranic.Sort | src/Merging/MergingVranic.cpp:155-308 | the sorting phase returns the directions, sorted particles, first entries and counts of the range's cell indices |
| Vranic.MergingVranic.Extremes | src/Merging/MergingVranic.cpp:155-192 | the extremes of norm, azimuth and elevation, and the two angles of each particle |
| Vranic.MergingVranic.ExtremesStep | src/Merging/MergingVranic.cpp:171-192 | one turn of the extremes loop |
| Vranic.MergingVranic.AnglesStep | src/Merging/MergingVranic.cpp:171-192 | one particle's angles |
| Vranic.MergingVranic.Discretise | src/Merging/MergingVranic.cpp:195-219 | the widened, possibly collapsed axes, and the dimensions they give |
| Vranic.MergingVranic.CellDirections | src/Merging/MergingVranic.cpp:223-235 | `cell_vec` holds the direction of every angular cell |
| Vranic.MergingVranic.DirectionStep | src/Merging/MergingVranic.cpp:223-235 | one angular cell's direction |
| Vranic.MergingVranic.CellIndexPass | src/Merging/MergingVranic.cpp:248-264 | `momentum_cell_index` holds every particle's cell index |
| Vranic.MergingVranic.IndexStep | src/Merging/MergingVranic.cpp:248-264 | one particle's cell index |
| Vranic.MergingVranic.CountingSort | src/Merging/MergingVranic.cpp:269-308 | the histogram, scan and scatter in sequence |
| Vranic.MergingVranic.Histogram | src/Merging/MergingVranic.cpp:269-273 | the counts equal the number of particles per cell |
| Vranic.MergingVranic.Scan | src/Merging/MergingVranic.cpp:277-286 | the first entries are the exclusive prefix sums of the counts, and the counts are zeroed |
| Vranic.MergingVranic.Scatter | src/Merging/MergingVranic.cpp:292-308 | `sorted_particles` is the stable grouped permutation of the range, and the counts are rebuilt |
| Vranic.MergingVranic.ScatterStep | src/Merging/MergingVranic.cpp:292-308 | one particle lands in a fresh slot of its cell |
| Vranic.MergingVranic.MergeAll | src/Merging/MergingVranic.cpp:347-465 | the merge loops have the effect of `MergeCells` |
| Vranic.MergingVranic.MergeShell | src/Merging/MergingVranic.cpp:347-465 | one `mr_i` turn merges its cells |
| Vranic.MergingVranic.MergeRow | src/Merging/MergingVranic.cpp:348-465 | one `theta_i` turn merges its cells |
| Vranic.MergingVranic.MergeNextCell | src/Merging/MergingVranic.cpp:349-465 | one `phi_i` turn merges the cell at the stride of the actual dimensions, corrected (see Findings) where line 355 uses 25 |
| Vranic.MergingVranic.MergeCellAt | src/Merging/MergingVranic.cpp:357-460 | one cell is merged as `MergeCell` says |
| Vranic.MergingVranic.MergeCellPackets | src/Merging/MergingVranic.cpp:369-460 | the packet loop of a cell |
| Vranic.MergingVranic.MergeNextPacket | src/Merging/MergingVranic.cpp:372-460 | one more packet |
| Vranic.MergingVranic.MergePacketAt | src/Merging/MergingVranic.cpp:372-460 | one packet as `PacketUpdate` says |
| Vranic.MergingVranic.PacketTotals | src/Merging/MergingVranic.cpp:374-403 | the packet's total weight, weighted momentum and energy; the energy is weighted, corrected (see Findings) where lines 400-402 sum unweighted Lorentz factors |
| Vranic.MergingVranic.Survive | src/Merging/MergingVranic.cpp:406-435 | the two merged momenta of the Vranic construction, with `e2` normalised, corrected (see Findings) |
| Vranic.MergingVranic.WritePacket | src/Merging/MergingVranic.cpp:441-458 | the two survivors written, the packet's other two tagged `-1`; the tag index is corrected (see Findings) where line 456 leaves the packet |

## Left out

- GPU and OpenACC regions are not modelled: curand seeding, the linear congruential generator and the `acc parallel` reductions. `#pragma omp simd` has no effect on the result.
- Floating-point arithmetic: the model computes on exact reals. Rounding, NaN and infinities are not modelled. `Quotient(a, 0)` is taken as 0. `Bin` takes a collapsed axis's cell as 0: there the source divides by a zero step and casts the non-finite quotient to `unsigned int`, which C++ leaves undefined. In the Monte-Carlo emission time, `tau/Y` with `Y == 0` is taken as infinite, so the remaining time is used.
- `sqrt`, `log`, `atan2`, `asin`, `acos`, `sin`, `cos`, `Radiation::computeParticleChi` and the queries of `RadiationTables`/`RadiationTools` are uninterpreted functions. Only the facts listed in `Tables.Valid` and `Geometry.Valid` are assumed about them.
- The random generator is a finite sequence of supplied draws. The range of each draw is not constrained.
- MonteCarlo.RadiationMonteCarlo.Apply: when the supplied draws run out, the method reports it and stops. The source would keep drawing, and its redraw loop ends only with probability one. Every contract holds in full when the draws suffice.
- MonteCarloSpec.RunEnergyGrows: assumes, per particle, that the continuous friction factor `E*gamma/(gamma^2-1)` lies in `[0, 1]` at every momentum where the particle's continuous branch can run (`FrictionDissipative` with `ContinuousGate`: moving, and chi from its own charge and field in `(min_chi_continuous, min_chi_discontinuous]`). The corrected radiated energy `E` comes from a table that is not part of this model, so the bound is a hypothesis and not a consequence. `FrictionDissipativeRadiates` shows that it admits a non-zero continuous energy.
- MonteCarloSpec.Run: the epsilon of the optical depth is assumed `>= 0`. The constant belongs to the base class `Radiation`, which is not part of this model. Values in `[-1, 0)` are not covered.
- `Particles`, `Species` and `SmileiMPI` are not modelled: `createParticles`, the `getPtr*` accessors and the `dynamics_*` buffers. Particles are parallel arrays, the three momentum components one `array<Vec3>`, and the new-photon buffer a growing sequence. The three `cell_vec` arrays are one `array<Vec3>`.
- Scratch-array allocation is not modelled, including the `aligned_alloc` / `delete[]` mismatch in src/Radiation/RadiationCorrLandauLifshitz.cpp:111 and 226.
- src/Params/InputData.h and src/Merging/MergingFactory.h are not part of this model.
- Niel.RadiationNiel.Apply: requires the method index to be one of 0 to 3. The source leaves `diffusion` unwritten for any other value but still reads it. It also requires one supplied draw per particle of the range.
- Vranic.MergingVranic.Apply: requires `istart <= iend`. The unsigned wrap-around of `iend - istart` is not modelled.
- Vranic.MergingVranic.constructor: `dimensions` is a parameter. The pass resets it to 5x5x5 before the collapse, as the source does.
- VranicSpec.SurvivorsKeepMomentum: momentum conservation is proved only when `0 < |pt| <= wt*pa`, the domain where `acos` and the unit vector are defined.
- VranicSpec.PassKeepsWeight: requires the particles of the range to be untagged on entry.
- VranicSpec.SurvivorsKeepEnergy: energy conservation is proved only when the total momentum is not parallel to the cell direction. In that case the source's `e2` is zero and no unit `e2` exists.
- CorrLandauLifshitz.RadiationCorrLandauLifshitz.Apply: implements the corrected line 179 (see Findings). The line as written is modelled by CorrLandauLifshitz.RadiatedAsWritten, and the discrepancy is shown by CorrLandauLifshitz.AsWrittenMissesOffset.
- Niel.RadiationNiel.Apply: implements the corrected lines 189, 392-393 and 425 (see Findings). As written, line 189 is modelled by Niel.RadiationNiel.GammaPassAsWritten and Niel.StaleGammaRead, lines 392-393 by Niel.AsWrittenDividesByZero, and line 425 by Niel.ReductionMissesOffset.
- Vranic.MergingVranic.Apply: implements the corrected lines 355, 400-402, 424-435 and 456 (see Findings). As written, line 355 is modelled by VranicSpec.MergeCellAsWrittenSkipsCell, lines 400-402 by VranicSpec.EnergyAsWrittenUndefined, lines 424-435 by VranicSpec.SurvivorsAsWrittenOffShell, and line 456 by VranicSpec.TagEntryAsWrittenLeavesPacket.
- Removal of the particles tagged `-1` happens after the pass, in code that is not part of this model.

## Findings

| source | as written | input that shows it | evidently intended | confidence | as-written member | corrected member |
|---|---|---|---|---|---|---|
| src/Merging/MergingVranic.cpp:456 | the tag loop reads `sorted_particles[first + ipack*4 + ip]` with `ip` already starting at `ipack*4 + 2` | a cell of 8 particles: the second packet tags sorted entries 10 and 11, past the cell's segment, instead of 6 and 7 | `sorted_particles[first + ip]` | not executed | VranicSpec.TagEntryAsWrittenLeavesPacket | VranicSpec.TagEntryInPacket |
| src/Merging/MergingVranic.cpp:355 | `ic = mr_i * momentum_angular_cells + icc`, with `momentum_angular_cells` fixed at 25 before the axes collapse (99-100, 208-219) | dimensions `[5, 1, 1]`: particles of the second momentum shell have cell 1, which the loop never visits | the stride `dimensions_[1]*dimensions_[2]`, as in the indexing at 262-263 | not executed | VranicSpec.MergeCellAsWrittenSkipsCell | VranicSpec.CellOfOnto |
| src/Merging/MergingVranic.cpp:400-402 | `total_energy` sums the Lorentz factors without the weights, but is divided by the total weight (406) | four particles at rest of weight 2: `new_energy = 0.5` and `sqrt(0.25 - 1)` | `total_energy += weight[ipart]*sqrt(1 + p^2)` | not executed | VranicSpec.EnergyAsWrittenUndefined | VranicSpec.MergedNormDefined |
| src/Radiation/RadiationCorrLandauLifshitz.cpp:179 | the reduction reads `weight[ipart]` with `ipart` counting from 0 | `istart = 1`, weights `[0, 1]`, loss 0.5: adds 0 instead of 0.5 | `weight[istart + ipart]` | not executed | CorrLandauLifshitz.AsWrittenMissesOffset | CorrLandauLifshitz.RadiationCorrLandauLifshitz.Apply |
| src/Radiation/RadiationNiel.cpp:189 | `chi` reads `gamma[ipart]` while the Lorentz factor was stored at `gamma[ipart - ipart_ref]` (182) | `ipart_ref = 1` with a zeroed buffer: `chi` is computed with Lorentz factor 0 | `gamma[ipart - ipart_ref]` | not executed | Niel.StaleGammaRead | Niel.RadiationNiel.GammaPass |
| src/Radiation/RadiationNiel.cpp:425 | the reduction reads `gamma[ipart]` | `ipart_ref = 1`, buffer `[2, 0]`, new Lorentz factor 1: adds -1 instead of 1 | `gamma[ipart - ipart_ref]` | not executed | Niel.ReductionMissesOffset | Niel.ReductionIsLoss |
| src/Radiation/RadiationNiel.cpp:392-393 | `temp` divides by `gamma^2 - 1` with no `gamma > 1` guard, unlike the other two operators | a particle at rest whose `chi` is above the continuous threshold | skip the update when `gamma == 1` | not executed | Niel.AsWrittenDividesByZero | Niel.UpdateKeepsRest |
| src/Merging/MergingVranic.cpp:424-435 | `e2 = d - e1 (e1 . d)`, whose norm is the sine of the angle between `e1` and the cell direction `d`, is used as a unit vector, as the comment at 424 calls it | total weight 2, total momentum `(1, 0, 0)`, `pa = 1`, cell direction `(0.6, 0.8, 0)`: the merged momenta have squared norm 0.73 instead of 1, so the packet's energy is not kept | `e2` divided by its norm | not executed | VranicSpec.SurvivorsAsWrittenOffShell | VranicSpec.SurvivorsOnShell |
