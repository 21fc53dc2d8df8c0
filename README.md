# neutron, modelled in Dafny

Neutron is a small OpenGL solar-system toy. A handful of planets pull on each
other with a simplified gravity. They bounce off each other when they touch,
and they are switched off when they touch the sun. A particle generator
sprinkles short-lived particles, and the `T` key freezes time. The repository
ships its own small engine, `nge`, whose physics module integrates rigid
spheres and answers their collisions with an elastic impulse. It also ships an
older code base under `src/neutron/`, with an earlier space-object class, an
earlier particle generator and two UV-sphere mesh generators.

This project models that core in Dafny and proves properties of it:

- the engine's bodies and simulation (`NgePhysics`);
- the game's frame logic: gravity, collisions, movement, the pause state
  machine and the rotation pass (`NeutronGame`);
- the planets of the current game (`NeutronImport`);
- the space objects of the older code base: radius-less integer objects with
  an object list (`SpaceObjectRegistry`), and floating-point objects and
  planets with a sphere mesh (`LegacyImport`);
- the strict-`>` "biggest mass" rule both of those share (`Heaviest`);
- both particle generators (`NeutronParticles`, `LegacyParticles`) and their
  shared cursor search (`ParticlePool`);
- the two sphere generators (`SphereMesh` and `SphereAppend`) over a common
  shape (`SphereShape`, `MeshGrid`), and `makeTangents` (`SphereTangents`).

Floats and doubles are modelled as `real`. Square roots are avoided:
distances are compared through their squares, and the engine's response is
written without the square root and proved equal to the unit-normal formula.
What needs a transcendental function takes it as a parameter: the cosine,
sine and pi of the sphere generators, `normalize` and the angle in
`makeTangents`, and `std::sqrt` in the game's collision strength. `rand()`
values are parameters too (`Draw`), and so is the order of the game's
pointer-keyed map.

## Model

| member | source | states |
|---|---|---|
| NgePhysics.Body.Integrate | nge/nge_physics.hh:58-67 | the new location is the old one plus the NEW velocity times the step; the force is cleared; mass and radius are kept |
| NgePhysics.Body.ComputeContactNormal | nge/nge_physics.hh:82-86 | given the distance, the normal is a unit vector whose projection on the offset to the other body is that distance |
| NgePhysics.Body.ApplyImpulse | nge/nge_physics.hh:99-105 | an impulse changes the two velocities and nothing else |
| NgePhysics.Body.PerformCollisionResponse | nge/nge_physics.hh:89-106 | bodies moving apart along the offset are returned unchanged, whatever their masses; otherwise the response is the impulse along the offset; there is no response exactly when the centres coincide or approaching bodies have inverse masses summing to zero, the cases where the source writes NaN or infinite velocities |
| NgePhysics.NewBody | nge/nge_physics.hh:51-53 | a new body is at rest, has no force, and its inverse mass times the mass is 1 |
| NgePhysics.IntegrateIsSemiImplicit | nge/nge_physics.hh:58-67 | one step moves the body by v*dt + a*dt*dt with a = force*invMass (semi-implicit Euler) |
| NgePhysics.IntegrateAtRest | nge/nge_physics.hh:58-67 | a body at rest with no force is a fixed point of Integrate |
| NgePhysics.IsCollidingWithMatchesLength | nge/nge_physics.hh:69-73 | the squared test agrees with the source's comparison of the radii sum with the distance |
| NgePhysics.IsCollidingWithSymmetric | nge/nge_physics.hh:69-73 | collision is symmetric |
| NgePhysics.ResponseUsesContactNormal | nge/nge_physics.hh:82-106 | the square-root-free response equals the source's impulse along ComputeContactNormal, for any positive length whose square is the squared distance |
| NgePhysics.NormalImpulseMatches | nge/nge_physics.hh:99-105 | the impulse scale along the unit normal, seen along the offset, is the square-root-free coefficient |
| NgePhysics.SeparatingBodiesUnchanged | nge/nge_physics.hh:96-97 | bodies at distinct centres moving apart along the normal are left alone, even when their inverse masses sum to zero |
| NgePhysics.ResponseImpulseIsElastic | nge/nge_physics.hh:88-105 | the response's impulse meets the condition for an elastic exchange |
| NgePhysics.CoefficientTimesDivisor | nge/nge_physics.hh:99-100 | the impulse coefficient times the inverse-mass sum and the squared distance gives back -(1 + e) times the relative velocity along the offset |
| NgePhysics.ResponseNegatesNormalVelocity | nge/nge_physics.hh:88-105 | with restitution 1, an approaching pair's relative velocity along the offset is negated |
| NgePhysics.ImpulseConservesMomentum | nge/nge_physics.hh:99-105 | any impulse exchanged between two bodies conserves the mass-weighted momentum |
| NgePhysics.ImpulseSpeeds | nge/nge_physics.hh:99-105 | the squared speeds after an impulse, expanded in the impulse |
| NgePhysics.ElasticImpulseConservesEnergy | nge/nge_physics.hh:99-105 | an impulse meeting the elastic condition conserves kinetic energy |
| NgePhysics.ResponseConservesMomentum | nge/nge_physics.hh:89-106 | the collision response conserves momentum |
| NgePhysics.ResponseConservesEnergy | nge/nge_physics.hh:88-106 | "no loss of energy": the collision response conserves kinetic energy |
| NgePhysics.RespondAll | nge/nge_physics.hh:143-151 | the response phase keeps the number of stored pairs |
| NgePhysics.IntegrateAll | nge/nge_physics.hh:134-141 | integration keeps the number of bodies |
| NgePhysics.Scan | nge/nge_physics.hh:119-130 | the nested broad-phase loops, up to a given (body_a, body_b), record index pairs that name stored bodies |
| NgePhysics.OverlapIndices | nge/nge_physics.hh:115-131 | a whole pass records index pairs that name stored bodies |
| NgePhysics.Pairs | nge/nge_physics.hh:127-128 | one copied body pair per recorded index pair, the k-th holding the two bodies its k-th index pair names |
| NgePhysics.ScanSound | nge/nge_physics.hh:119-130 | every pair recorded so far lies before the loops' position, names two different bodies, and those bodies collide |
| NgePhysics.ScanComplete | nge/nge_physics.hh:119-130 | every colliding pair of different bodies the loops have passed is recorded |
| NgePhysics.ScanMembers | nge/nge_physics.hh:119-130 | both directions: a pair is recorded so far exactly when it has been passed and names two different colliding bodies |
| NgePhysics.BroadPhaseRecordsBothOrders | nge/nge_physics.hh:115-131 | the broad phase records (i, j) exactly for distinct colliding bodies, and then also (j, i) |
| NgePhysics.ScanSorted | nge/nge_physics.hh:119-130 | the recorded pairs come in strictly increasing lexicographic order |
| NgePhysics.ScanBefore | nge/nge_physics.hh:119-130 | every pair the loops have recorded before position (i, j) precedes (i, j) lexicographically |
| NgePhysics.CellShape | nge/nge_physics.hh:121-129 | one inner iteration records at most one pair, and only its own (i, j) |
| NgePhysics.BroadPhaseNoDuplicates | nge/nge_physics.hh:115-131 | no ordered pair is recorded twice in one pass |
| NgePhysics.ScanStepPairs | nge/nge_physics.hh:123-128 | one inner step appends the copies of its pair when the two bodies differ and collide, and nothing otherwise |
| NgePhysics.PairsAppend | nge/nge_physics.hh:127-128 | one more index pair appends the copies of its two bodies |
| NgePhysics.Simulation.constructor | nge/nge_physics.hh:111-112 | a new simulation has no bodies and no pairs |
| NgePhysics.Simulation.UpdatePotentialCollisions | nge/nge_physics.hh:115-131 | appends exactly the broad-phase pairs of the current bodies and changes no body |
| NgePhysics.Simulation.UpdateRow | nge/nge_physics.hh:121-130 | the inner loop for body_a = bodies[i] takes the list from the pairs recorded before row i to those recorded after it |
| NgePhysics.Simulation.VisitPair | nge/nge_physics.hh:123-128 | one inner step skips the body itself and appends a copy of a colliding pair, extending the recorded pairs by one position |
| NgePhysics.Simulation.UpdateDynamics | nge/nge_physics.hh:134-141 | every body is replaced by its integrated self; the pairs are unchanged |
| NgePhysics.Simulation.PerformCollisionResponse | nge/nge_physics.hh:143-151 | the response acts on the stored copies; the bodies are unchanged |
| NgePhysics.Simulation.Reset | nge/nge_physics.hh:154-158 | both lists are emptied |
| NgePhysics.Simulation.AddSphericalBody | nge/nge_physics.hh:160-165 | the returned id is the old count and names the appended new body |
| NgePhysics.Simulation.Tick | nge/nge_physics.hh:167-172 | pairs come from the pre-integration bodies, then bodies are integrated, then the copies respond |
| NgePhysics.Simulation.GetBodyLocation | nge/nge_physics.hh:174 | the location of the body with that id |
| NgePhysics.ResetRestartsIds | nge/nge_physics.hh:154-165 | after Reset, any two added bodies get ids 0 and 1 in insertion order, the first id reads back its location, the body list is exactly the two new bodies and no pairs are recorded |
| NeutronGame.PushOnIgnoresVelocities | neutron/game.hh:213-223 | the push between two planets reads only their masses and positions |
| NeutronGame.GravityPass | neutron/game.hh:207-225 | the gravity loop keeps the flags and the number of planets, and every planet keeps its position, mass, radius and every other field except its velocity |
| NeutronGame.PushRule | neutron/game.hh:213-223 | no push from a planet that is not heavier or is inactive; otherwise each axis moves by +pull or -pull toward the heavier planet's coordinate, with pull > 0 |
| NeutronGame.PullDivisorPositive | neutron/game.hh:215-220 | the squared (possibly hacked) distance the pull divides by is positive |
| NeutronGame.UnpulledVelocity | neutron/game.hh:210-224 | with no applicable pull, a planet's velocity is kept through the inner loop |
| NeutronGame.UnpulledPlanets | neutron/game.hh:207-225 | the heaviest planet and every inactive planet leave the gravity pass unchanged |
| NeutronGame.SamePlacesGravityDefined | neutron/game.hh:207-225 | in-place velocity updates keep the gravity pass well defined |
| NeutronGame.RadicandPositions | neutron/game.hh:215 | the distance depends on positions only |
| NeutronGame.PushIgnoresVelocities | neutron/game.hh:207-225 | pushes read no velocity, so updating planets in place matches updating a copy |
| NeutronGame.PulledVelocityIgnoresVelocities | neutron/game.hh:210-224 | the inner gravity loop's result depends on no other planet's velocity |
| NeutronGame.EarthMoonHackPairs | neutron/game.hh:217-218 | among the configured planets, the wrapped 32-bit mass product equals EARTH_MOON_MASS exactly for the earth-moon pair |
| NeutronGame.TouchingMeansCloser | neutron/game.hh:236-237 | the squared touch test agrees with distance < sum of radii |
| NeutronGame.KickOpposesMotion | neutron/game.hh:257-262 | a kick of non-negative strength moves every velocity component against its sign |
| NeutronGame.Collide | neutron/game.hh:230-266 | one pair keeps masses, radii and rotations, and never switches a planet back on |
| NeutronGame.SameFrameMassive | neutron/game.hh:248-262 | keeping the masses keeps them non-zero |
| NeutronGame.CollideRow | neutron/game.hh:232-268 | the inner collision loop keeps the frame and never switches a planet back on |
| NeutronGame.CollideRowStep | neutron/game.hh:232-266 | one more inner iteration applies the pair (i, j) to the row so far, which keeps its masses and size |
| NeutronGame.CollideRows | neutron/game.hh:228-269 | the collision loops keep the frame and never switch a planet back on |
| NeutronGame.MovePass | neutron/game.hh:272-273 | every planet, active or not, moves by its velocity |
| NeutronGame.InactiveRowSkipped | neutron/game.hh:230-231 | a row whose outer planet is inactive changes nothing |
| NeutronGame.CollideOutcome | neutron/game.hh:234-266 | skip, sun contact switching the other planet off, or a kick of both followed by two moves |
| NeutronGame.CollideKeepsSun | neutron/game.hh:240-243 | the only sun keeps its flag through one pair |
| NeutronGame.SameFrameOnlySun | neutron/game.hh:240-243 | worlds with the same masses have the same only sun |
| NeutronGame.CollideRowKeepsSun | neutron/game.hh:232-268 | the only sun keeps its flag through a row |
| NeutronGame.CollideRowsKeepSun | neutron/game.hh:228-269 | the only sun keeps its flag through the collision pass |
| NeutronGame.StepFlags | neutron/game.hh:197-274 | a step never switches a planet back on, and the only sun is never switched off |
| NeutronGame.KeyPressRules | neutron/game.hh:58-76 | T toggles time exactly when the debounce has run out and then rearms it to 0.2; Escape asks to quit; quitting is permanent; other keys change no pause state |
| NeutronGame.DebounceBlocksToggle | neutron/game.hh:71-75 | while the frame times since a toggle sum to less than the timeout, T does nothing |
| NeutronGame.SumNonNegative | neutron/game.hh:150-151 | non-negative frame times sum to a non-negative total |
| NeutronGame.ShadeWorld | neutron/game.hh:176-184 | the rotation pass keeps the flags and the number of planets |
| NeutronGame.ShadeWorldRules | neutron/game.hh:176-184 | a stopped frame (time 0) changes nothing, only rotations change, and inactive planets are untouched |
| NeutronGame.Configured | neutron/game.hh:126-139 | the constructed world holds five planets |
| NeutronGame.ConfiguredWorldFacts | neutron/game.hh:126-139 | in any map order: non-zero masses, all active, exactly one sun, and no pair hits distance zero |
| NeutronGame.SlotsIndex | neutron/game.hh:135-139 | in the map, each of the five planets is the key of its own entry number in the map order |
| NeutronGame.MakePlanets | neutron/game.hh:126-130 | five distinct fresh planets holding the constructor's masses, radii, positions, velocities and types, in declaration order |
| NeutronGame.PullBy | neutron/game.hh:213-223 | one inner gravity iteration adds the push to the planet's velocity and nothing more |
| NeutronGame.PullStrength | neutron/game.hh:215-221 | the strength is mass times G over the squared distance, divided by 10000 for the earth-moon pair, times the frame time |
| NeutronGame.KickApart | neutron/game.hh:248-265 | both planets get the kick of the collision's strength, then both move |
| NeutronGame.KickBy | neutron/game.hh:257-262 | one planet's velocity is kicked against its signs |
| NeutronGame.Game.States | neutron/game.hh:40 | the planets' states, entry by entry |
| NeutronGame.Game.constructor | neutron/game.hh:113-140 | the five planets, all active, not stopped, not quitting, timeout 0 |
| NeutronGame.Game.ProcessKeyPress | neutron/game.hh:58-76 | the pause state follows KeyPress; the planets are unchanged |
| NeutronGame.Game.PullPlanet | neutron/game.hh:210-224 | the inner gravity loop leaves planet i with PulledVelocity |
| NeutronGame.Game.PullStep | neutron/game.hh:212-223 | one inner gravity iteration takes planet i one planet further along PulledVelocity, reading planet j's start-of-pass mass and position; no other planet changes |
| NeutronGame.Game.ApplyGravity | neutron/game.hh:207-225 | the gravity loop computes GravityPass |
| NeutronGame.Game.PullPlanetInPass | neutron/game.hh:208-224 | one outer gravity iteration gives planet i its GravityPass velocity, computed from the start-of-pass positions; no other planet changes |
| NeutronGame.Game.CollidePair | neutron/game.hh:234-266 | one collision iteration computes Collide |
| NeutronGame.Game.CollideInRow | neutron/game.hh:232-267 | one inner collision iteration takes the world from CollideRow up to j to CollideRow up to j + 1 |
| NeutronGame.Game.CollideActiveRow | neutron/game.hh:232-268 | the inner collision loop for an active planet computes CollideRow |
| NeutronGame.Game.CollideOuter | neutron/game.hh:230-268 | the inner collision loop computes CollideRow |
| NeutronGame.Game.HandleCollisions | neutron/game.hh:228-269 | the collision loops compute CollideRows |
| NeutronGame.Game.MoveAll | neutron/game.hh:272-273 | the move loop computes MovePass |
| NeutronGame.Game.Step | neutron/game.hh:197-274 | nothing while stopped; otherwise StepWorld (gravity, collisions, movement) |
| NeutronGame.Game.ShadePlanets | neutron/game.hh:176-184 | the rotation loop computes ShadeWorld |
| NeutronGame.Game.Tick | neutron/game.hh:142-195 | after Escape nothing but the frame time changes; otherwise the timeout counts down, Step runs, the planets spin (not while stopped), and the particles update exactly when time runs and the frame time is non-zero, staying untouched otherwise |
| NeutronGame.Game.RunFrame | neutron/game.hh:150-189 | the timeout counts down, Step runs, the planets spin with 0 while stopped, and the particles respawn and decay with the frame time when it is non-zero and are untouched when it is 0 |
| NeutronGame.Game.AdvanceWorld | neutron/game.hh:150-184 | the planets' part of a frame: the timer follows FrameTimer, and the world is StepWorld (or unchanged while stopped) shaded with the frame time, 0 while stopped |
| NeutronImport.TexturesLayout | neutron/import.cpp:143-173 | each type's three textures lie in its own folder under textures/planets, are distinct, and differ between types |
| NeutronImport.TexturesInFolder | neutron/import.cpp:147-173 | every file of a type lies in that type's folder under textures/planets, the normal and specular maps being norm.png and spec.png |
| NeutronImport.TexturesDistinct | neutron/import.cpp:171-173 | a type's colour, normal and specular files are three different paths |
| NeutronImport.TexturesDiffer | neutron/import.cpp:147-173 | two different types never share a colour or normal map file |
| NeutronImport.RadicandProperties | neutron/import.cpp:124-133 | the radicand is the squared distance: non-negative, symmetric, zero to itself, so the fabs changes nothing |
| NeutronImport.RadicandIsSquaredDistance | neutron/import.cpp:126-132 | the radicand is the squared distance between the positions |
| NeutronImport.RadicandNonNegative | neutron/import.cpp:126-132 | the radicand is non-negative |
| NeutronImport.FabsOfNonNegative | neutron/import.cpp:127 | fabs of a non-negative value is that value |
| NeutronImport.SpinAllRotation | neutron/import.cpp:203-204 | over a run of frames the rotation grows by half the velocity once per non-zero frame time |
| NeutronImport.Planet.constructor | neutron/import.cpp:136-141 | the arguments are stored unchanged, rotation zero, textures of the type |
| NeutronImport.Planet.MakePlanet | neutron/import.cpp:143-180 | only the textures change, to those of the type |
| NeutronImport.Planet.Tick | neutron/import.cpp:116-121 | one step along the velocity; the time is ignored |
| NeutronImport.Planet.SetShaderVariables | neutron/import.cpp:183-209 | rotation grows by half the velocity when the time is non-zero; nothing else changes |
| NeutronImport.DrawParticles | neutron/import.cpp:107-112 | with a zero frame time the pool is untouched; otherwise an update with four new particles and the default offset |
| ParticlePool.Cursor.constructor | neutron/particle_generator.cpp:95 | the cursor starts at 0 |
| ParticlePool.FindDead | neutron/particle_generator.cpp:99-104 | the first dead slot of a range, or none when all are alive |
| ParticlePool.FirstUnusedOrder | neutron/particle_generator.cpp:96-115 | the first dead slot at or after the cursor; else the first before it; else slot 0 |
| ParticlePool.FirstUnusedInRange | neutron/particle_generator.cpp:96-115 | the slot is in range for a non-empty pool, and dead if any slot is dead |
| ParticlePool.CountDead | neutron/particle_generator.cpp:96-115 | the number of dead slots is at most the pool size |
| ParticlePool.CountDeadPositive | neutron/particle_generator.cpp:96-115 | a pool with a dead slot counts one |
| ParticlePool.CountDeadRevive | neutron/particle_generator.cpp:22-27 | bringing a dead slot to life removes exactly one from the count |
| ParticlePool.FirstUnusedWhenCounted | neutron/particle_generator.cpp:96-115 | a pool that counts a dead slot hands out a dead slot |
| ParticlePool.CountDeadNone | neutron/particle_generator.cpp:96-115 | with every slot alive the count is 0 |
| ParticlePool.Lives | neutron/particle_generator.cpp:96-115 | the lives of the pool, slot by slot, the view both generators' slot search reads |
| NeutronParticles.RespawnRanges | neutron/particle_generator.cpp:117-125 | full life, colour kept, each coordinate in [offset, offset + 9.9] in tenths, each speed in [-5, 4.5] in halves |
| NeutronParticles.Decayed | neutron/particle_generator.cpp:28-36 | ageing keeps the pool size |
| NeutronParticles.DecayedParticles | neutron/particle_generator.cpp:28-36 | life drops by exactly delta; a live particle moves by velocity*delta; a dead one stays put |
| NeutronParticles.RespawnAll | neutron/particle_generator.cpp:24-27 | one in-range slot per draw, the pool size kept |
| ParticlePool.LivesUpdate | neutron/particle_generator.cpp:26 | replacing one particle replaces exactly its life |
| NeutronParticles.RespawnsUseDistinctDeadSlots | neutron/particle_generator.cpp:24-27 | with enough dead particles, one update respawns into pairwise distinct dead slots |
| NeutronParticles.SlotStep | neutron/particle_generator.cpp:24-27 | the slots stay distinct and dead when one dead slot is revived first |
| NeutronParticles.AllAliveOverwritesSlotZero | neutron/particle_generator.cpp:113-114 | with every particle alive the first respawn overwrites live slot 0 |
| ParticlePool.FreshPoolIsDead | neutron/particle_generator.h:22-24 | a pool of fresh particles is all dead |
| NeutronParticles.Generator.constructor | neutron/particle_generator.cpp:89-91 | `amount` fresh particles sharing the given cursor |
| NeutronParticles.Generator.FirstUnusedParticle | neutron/particle_generator.cpp:96-115 | returns FirstUnused and moves the cursor to it; in range for a non-empty pool |
| NeutronParticles.Generator.RespawnParticle | neutron/particle_generator.cpp:117-125 | only slot k changes, to its respawn |
| NeutronParticles.Generator.Update | neutron/particle_generator.cpp:22-37 | the pool is RespawnAll followed by Decayed, the cursor is where RespawnAll leaves it |
| NeutronParticles.Generator.RespawnDraws | neutron/particle_generator.cpp:24-27 | the respawn loop leaves the pool and the cursor that RespawnAll computes from the old pool, the old cursor and the draws |
| NeutronParticles.Generator.DecayAll | neutron/particle_generator.cpp:28-36 | the decay loop leaves Decayed of the old pool |
| LegacyParticles.RespawnRanges | src/neutron/particle_generator.cpp:121-129 | full life and opacity, one grey level in [0.5, 1.49], x within 5 units of the offset, y and z at the offset, fixed upward speed 0.01, x and z speeds in [-10, 9.9] |
| LegacyParticles.Decayed | src/neutron/particle_generator.cpp:31-40 | ageing keeps the pool size |
| LegacyParticles.DecayedParticles | src/neutron/particle_generator.cpp:31-40 | life drops by exactly delta and velocity is kept; a live particle moves and fades, a dead one stays |
| LegacyParticles.RespawnAll | src/neutron/particle_generator.cpp:25-29 | one in-range slot per draw, the pool size kept |
| LegacyParticles.RespawnAllCount | src/neutron/particle_generator.cpp:25-29 | exactly one respawn per draw, the first one into FirstUnused of the old pool, and every slot handed out ends at full life |
| LegacyParticles.RespawnKeepsFullLife | src/neutron/particle_generator.cpp:25-29 | a slot at full life stays at full life through later respawns |
| LegacyParticles.Generator.constructor | src/neutron/particle_generator.cpp:93-96 | `amount` fresh particles sharing the given cursor |
| LegacyParticles.Generator.FirstUnusedParticle | src/neutron/particle_generator.cpp:100-119 | returns FirstUnused and moves the cursor to it; in range for a non-empty pool |
| LegacyParticles.Generator.RespawnParticle | src/neutron/particle_generator.cpp:121-129 | only slot k changes, to its respawn |
| LegacyParticles.Generator.Update | src/neutron/particle_generator.cpp:21-41 | the pool is RespawnAll followed by Decayed, the cursor is where RespawnAll leaves it |
| LegacyParticles.Generator.RespawnDraws | src/neutron/particle_generator.cpp:25-29 | the respawn loop leaves the pool and the cursor that RespawnAll computes from the old pool, the old cursor and the draws |
| LegacyParticles.Generator.DecayAll | src/neutron/particle_generator.cpp:31-40 | the decay loop leaves Decayed of the old pool |
| Heaviest.HeaviestIndex | src/neutron/spaceObject.h:33-34 | the position the strict-`>` tracking ends at: maximal, and strictly heavier than all before it |
| Heaviest.HeaviestAppend | src/neutron/spaceObject.h:33-34 | a new object takes over exactly when strictly heavier |
| Heaviest.HeaviestUnique | src/neutron/spaceObject.h:33-34 | that position is the only maximal one with every earlier mass strictly smaller |
| SpaceObjectRegistry.RadicandProperties | src/neutron/spaceObject.h:52-59 | the integer radicand is non-negative, symmetric and zero to itself |
| SpaceObjectRegistry.RemoveFirstProperties | src/neutron/spaceObject.h:38-42 | removing an object listed once drops exactly that entry |
| SpaceObjectRegistry.RemoveFirstSplit | src/neutron/spaceObject.h:38-42 | the entries around the removed one keep their order |
| SpaceObjectRegistry.Registry.constructor | src/neutron/spaceObject.h:27-28 | empty list, null biggest |
| SpaceObjectRegistry.Registry.Destroy | src/neutron/spaceObject.h:38-42 | the list loses the object's one entry; biggest is not updated |
| SpaceObjectRegistry.Masses | src/neutron/spaceObject.h:33 | the masses of a list, entry by entry |
| SpaceObjectRegistry.MassesAppend | src/neutron/spaceObject.h:32-34 | appending an object appends its mass |
| SpaceObjectRegistry.BiggestIsHeaviest | src/neutron/spaceObject.h:33-34 | after a construction biggest is set, at least as heavy as all, strictly heavier than all before it |
| SpaceObjectRegistry.SpaceObject.constructor | src/neutron/spaceObject.h:30-35 | stores everything but the radius, is appended to the list, takes over biggest when there is none or it is strictly heavier |
| SpaceObjectRegistry.SpaceObject.Tick | src/neutron/spaceObject.h:45-49 | one integer step along the velocity |
| LegacyImport.Tracker.constructor | src/neutron/import.cpp:101 | biggest starts null |
| LegacyImport.Masses | src/neutron/import.cpp:106 | the masses of a list, entry by entry |
| LegacyImport.MassesAppend | src/neutron/import.cpp:105-106 | appending an object appends its mass |
| LegacyImport.BiggestIsHeaviest | src/neutron/import.cpp:105-106 | after a construction biggest is set, built, at least as heavy as all, strictly heavier than all before it |
| LegacyImport.SpaceObject.constructor | src/neutron/import.cpp:103-107 | stores its arguments, takes over biggest when there is none or it is strictly heavier |
| LegacyImport.SpaceObject.Tick | src/neutron/import.cpp:111-115 | one step along the velocity |
| LegacyImport.RadicandIsSquaredDistance | src/neutron/import.cpp:118-125 | the radicand is the squared distance |
| LegacyImport.DistanceProperties | src/neutron/import.cpp:118-125 | non-negative, symmetric, zero to itself |
| LegacyImport.Planet.constructor | src/neutron/import.cpp:127-137 | a tracked space object holding its arguments, appended to the built list and taking over biggest when strictly heavier, with a unit-sphere mesh holding exactly the sphere's vertices, normals, texture coordinates and indices |
| SphereShape.OnSphere | src/neutron/planet.h:81-97 | with cos^2 + sin^2 = 1 every vertex lies on the sphere of the radius |
| SphereShape.RatioInUnit | src/neutron/planet.h:108-111 | a count over a count it does not exceed lies in [0, 1] |
| SphereShape.TexCoordInUnit | src/neutron/planet.h:108-111 | every texture coordinate lies in [0, 1] |
| SphereTangents.CornerSameTriangle | src/neutron/planet.h:30-32 | a corner's two partners are the other corners of its triangle |
| SphereTangents.TangentsResult | src/neutron/planet.h:24-61 | the tangent buffer keeps its size |
| SphereTangents.Put | src/neutron/planet.h:28 | writing one vec4 keeps the size |
| SphereTangents.Zeroed | src/neutron/planet.h:28 | the first loop keeps the size |
| SphereTangents.Accumulating | src/neutron/planet.h:29-55 | the second loop keeps the size |
| SphereTangents.Normalized | src/neutron/planet.h:56-59 | the third loop keeps the size |
| SphereTangents.TangentOfLayout | src/neutron/planet.h:57 | a vec4 reads back as the four floats laid out for it |
| SphereTangents.MakeTangents | src/neutron/planet.h:24-61 | the three loops compute TangentsResult |
| SphereTangents.SetTangent | src/neutron/planet.h:58 | only the vertex's four floats change |
| SphereTangents.AccumulateCorner | src/neutron/planet.h:29-55 | one corner takes the buffer one step along the second loop |
| SphereTangents.ZeroStep | src/neutron/planet.h:28 | the first loop one corner further |
| SphereTangents.ZeroedIsStart | src/neutron/planet.h:28 | after the first loop every referenced vertex holds zero |
| SphereTangents.ReadAccumulating | src/neutron/planet.h:29-55 | a referenced vertex reads back its running sum |
| SphereTangents.LanesReadBack | src/neutron/planet.h:29-55 | a buffer whose four floats for a vertex are the lanes of a tangent reads back that tangent |
| SphereTangents.AccumulateStep | src/neutron/planet.h:41-54 | a contributing corner replaces its vertex's vec4 by the new sum |
| SphereTangents.AccumulateSkip | src/neutron/planet.h:38-40 | a corner below the area threshold changes nothing |
| SphereTangents.AccumulatedIsStart | src/neutron/planet.h:56 | the third loop starts from the sums |
| SphereTangents.ReadNormalized | src/neutron/planet.h:56-59 | a referenced vertex reads back its partially normalised tangent |
| SphereTangents.NormalizeStep | src/neutron/planet.h:56-59 | each occurrence of a vertex normalises its direction once more and keeps w |
| SphereTangents.OccursAtCorner | src/neutron/planet.h:56-59 | a corner's vertex occurs among the indices |
| SphereTangents.OccurrencesGrow | src/neutron/planet.h:56-59 | occurrences only grow along the list |
| SphereTangents.FinalNormalized | src/neutron/planet.h:56-59 | with an idempotent normalize, the result is the normalised sum, handedness kept |
| SphereTangents.IterateIdempotent | src/neutron/planet.h:56-59 | repeating an idempotent function is applying it once |
| SphereTangents.Handedness | src/neutron/planet.h:41-44 | w is 0 exactly when no corner contributed, otherwise 1 or -1 |
| SphereMesh.Resized | src/neutron/planet.h:138 | `resize` gives the requested size |
| SphereMesh.BufferSizes | src/neutron/planet.h:81-113 | 3 floats per vertex for positions and normals, 2 for texture coordinates |
| SphereMesh.VerticesSize | src/neutron/planet.h:81-97 | three position floats per vertex |
| SphereMesh.TexCoordsSize | src/neutron/planet.h:81-111 | two texture floats per vertex |
| SphereMesh.IndexRows | src/neutron/planet.h:115-137 | stacks 0 .. i-1 hold 3 indices per quad in the first stack and 6 after it |
| SphereMesh.IndexRowSize | src/neutron/planet.h:121-136 | stack i holds 3 indices per sector for each of its triangles: none of the upper on stack 0, none of the lower on the last |
| SphereMesh.IndexCount | src/neutron/planet.h:115-137 | the list holds 6 * sectors * (stacks - 1) indices, whole triangles |
| SphereMesh.QuadBound | src/neutron/planet.h:121-135 | a quad's corners are vertices of the sphere |
| SphereMesh.IndexBound | src/neutron/planet.h:115-137 | every index names a vertex |
| SphereMesh.VertexLayout | src/neutron/planet.h:81-113 | vertex j of ring i sits at i*(sectors+1)+j of each buffer, holding its position, normal and texture coordinates |
| SphereMesh.VertexLayoutAt | src/neutron/planet.h:81-111 | vertex number v = i*(sectors+1)+j is within the buffers and holds the position, normal and ratios of vertex j of ring i |
| SphereMesh.ThreeFloats | src/neutron/planet.h:95-105 | a vertex of a uniform grid reads back its three floats |
| SphereMesh.TwoFloats | src/neutron/planet.h:108-111 | a vertex of a uniform grid reads back its two texture floats |
| SphereMesh.PositionAt | src/neutron/planet.h:95-97 | the position buffer holds each vertex's position |
| SphereMesh.NormalAt | src/neutron/planet.h:100-105 | the normal buffer holds each vertex's normal |
| SphereMesh.TexCoordAt | src/neutron/planet.h:108-111 | the texture buffer holds each vertex's ratios |
| SphereMesh.OnSphereMesh | src/neutron/planet.h:74-105 | positions lie on the sphere and normals are unit vectors |
| SphereMesh.UnitNormal | src/neutron/planet.h:100-105 | a point on the sphere times 1/radius is a unit vector |
| SphereMesh.TexCoordsInUnit | src/neutron/planet.h:108-111 | every texture coordinate lies in [0, 1] |
| SphereMesh.MeshCovered | src/neutron/planet.h:115-139 | whole triangles whose corners all have attributes and a tangent slot |
| SphereMesh.SphereBuffers.constructor | src/neutron/planet.h:65-66 | empty buffers |
| SphereMesh.SphereBuffers.GenerateSphere | src/neutron/planet.h:65-140 | the buffers are emptied and then hold exactly the sphere's vertices, normals, texture coordinates and triangles, and the tangents of makeTangents in a buffer of one vec4 per vertex |
| SphereMesh.SphereBuffers.AppendVertices | src/neutron/planet.h:81-113 | the vertex loops produce exactly the three attribute buffers |
| SphereMesh.SphereBuffers.AppendRing | src/neutron/planet.h:83-112 | one ring appends its row of each buffer |
| SphereMesh.SphereBuffers.AppendSector | src/neutron/planet.h:88-111 | one inner vertex iteration appends the vertex's position, its normal and its texture ratios, and nothing else |
| SphereMesh.SphereBuffers.AppendVertex | src/neutron/planet.h:95-111 | three position floats, the position times lengthInv, and two texture floats |
| SphereMesh.SphereBuffers.AppendIndices | src/neutron/planet.h:115-137 | the index loops produce exactly the triangle list |
| SphereMesh.SphereBuffers.AppendStrip | src/neutron/planet.h:117-136 | one stack appends its row of triangles |
| SphereMesh.SphereBuffers.AppendQuad | src/neutron/planet.h:118-135 | with k1 = i*(sectors+1)+j and k2 = k1+sectors+1, a quad adds (k1, k2, k1+1) except on stack 0 and (k1+1, k2, k2+1) except on the last stack: exactly its Triangles |
| SphereMesh.TangentsOverflowAsWritten | src/neutron/planet.h:138-139 | sized as written, a two-stack sphere names a vertex whose vec4 lies past the buffer |
| SphereMesh.TangentsFit | src/neutron/planet.h:138-139 | sized at one vec4 per vertex, every vertex's tangent fits |
| SphereMesh.AsWrittenFits | src/neutron/planet.h:138-139 | sized as written, the buffer suffices whenever the index count covers 4 floats per vertex |
| SphereMesh.GameSphereFitsAsWritten | src/neutron/import.cpp:134-135 | the game's 36 x 18 spheres fit even at the size as written |
| SphereAppend.Trigonometry | src/neutron/planet/planet.h:11 | the file's own pi with the given trigonometric functions |
| SphereAppend.OutputVectors.constructor | src/neutron/planet/planet.h:14 | the three vectors passed in |
| SphereAppend.OutputVectors.GenerateSphere | src/neutron/planet/planet.h:13-46 | with a negative count nothing is appended; with positive counts the old contents stay in front, followed by the positions, the same positions as normals, and the texture coordinates |
| SphereAppend.OutputVectors.AppendRings | src/neutron/planet/planet.h:17-45 | for positive counts the outer loop appends every ring of positions, normals and texture coordinates after the old contents |
| SphereAppend.OutputVectors.AppendRing | src/neutron/planet/planet.h:18-44 | one ring appends its row of each vector |
| SphereAppend.OutputVectors.AppendSector | src/neutron/planet/planet.h:23-43 | one inner iteration appends the vertex's position to both the positions and the normals, and its ratios to the texture coordinates |
| SphereAppend.OutputVectors.AppendVertex | src/neutron/planet/planet.h:30-43 | the position, the same floats as the normal, and two texture floats |
| SphereAppend.AppendedBlock | src/neutron/planet/planet.h:18-44 | vertex j of ring i is item i*(sectors+1)+j with its position and ratios; texture coordinates lie in [0, 1] |
| SphereAppend.AppendedSizes | src/neutron/planet/planet.h:18-44 | 3 floats per vertex for positions and normals, 2 for texture coordinates |
| MeshGrid.RowStep | src/neutron/planet.h:88-112 | one more inner iteration appends its cell's values after the row so far |
| MeshGrid.GridStep | src/neutron/planet.h:81-113 | one more outer iteration appends its stack's row after the stacks so far |
| MeshGrid.GridSize | src/neutron/planet.h:81-113 | with w values per cell, the nested loops append w values for each of rows*cols cells |
| MeshGrid.GridIndex | src/neutron/planet.h:81-113 | value c of cell (a, b) lands at (a*cols + b)*w + c: the layout is stack-major |
| SphereAppend.NormalLength | src/neutron/planet/planet.h:35-37 | each pushed normal has length radius: a unit vector only for radius 1 |

## Left out

- Rendering, windowing, shaders, textures on the GPU, the skybox, the camera keys (W/A/S/D), mouse input and `CreateModelFromFile` (file reading): I/O with no logic to prove.
- Floating point: floats and doubles are exact reals, so rounding and the `0.2f` float constant are not modelled. The float `PI` of src/neutron/planet/planet.h is the same decimal as a real.
- Square roots: distances are compared through squares. The game's collision strength needs `std::sqrt` itself, so `Step` and `Tick` take it as a parameter.
- Trigonometry, `normalize` and `acos` are parameters; the sphere lemmas assume only cos^2 + sin^2 = 1, and FinalNormalized only that normalize is idempotent.
- rand() is a parameter: each respawn is given the values it draws.
- The game's `std::map<Planet *, bool>` is ordered by addresses. The model takes the map order as a parameter, and no proved property depends on it.
- Integer overflow is not modelled, except for the product of two masses in the Earth-moon hack, which wraps at 32 bits. That product is undefined behaviour for the sun's mass in C++; it is modelled as a 32-bit wrap.
- NgePhysics.NewBody: requires a non-zero mass. The source stores 1/mass, which is infinite for a zero mass; reals have no infinity.
- NgePhysics.Simulation.AddSphericalBody: requires a non-zero mass, for the same reason as NgePhysics.NewBody.
- NgePhysics.Body.PerformCollisionResponse: returns None where the source writes non-finite velocities. For coincident centres the source normalises a zero vector, and the NaN normal fails the moving-apart test, so NaN reaches both velocities. For approaching bodies whose inverse masses sum to zero it divides by zero. NaN and infinity are not modelled.
- NgePhysics.Simulation.PerformCollisionResponse: a pair with no response (see NgePhysics.Body.PerformCollisionResponse) keeps its copies unchanged. The source writes NaN or infinite velocities into those copies.
- SphereAppend.OutputVectors.GenerateSphere: requires both counts to be positive when neither is negative. With a zero count the source divides by zero and appends NaN or infinite floats, which are not modelled.
- NeutronGame.Game.Step: requires that no two active planets a pull applies to lie at distance zero, and that every mass is non-zero. The source divides by zero there; the configured system meets both conditions (ConfiguredWorldFacts).
- NeutronGame.Game.Tick and NeutronImport.DrawParticles: require the cursor to be within the pool. Every generator keeps it there; with two pools of different sizes sharing the global cursor this could fail.
- NeutronParticles.Generator.Update and LegacyParticles.Generator.Update: require a non-empty pool when particles are requested. With an empty pool the source indexes slot 0 of an empty vector.
- SpaceObjectRegistry.Registry.Destroy: the destructor keeps iterating with an iterator that `erase` has invalidated, which is undefined behaviour. The model removes the object's one entry and requires the object to be listed once. `biggestMass` is left dangling when the heaviest object is destroyed, as in the source.
- SpaceObjectRegistry.SpaceObject.constructor: `radius` is never initialised in src/neutron/spaceObject.h (the initialiser list leaves it out), so the model states nothing about it. The constructor is private in the source.
- LegacyImport: the class header for the space object of src/neutron/import.cpp is not part of this model. The field types come from the constructor's parameters, and mass is treated as never reassigned.
- LegacyImport.Planet.constructor: `makePlanet` calls `generateSphere` with seven arguments, which matches neither generator's signature. The model uses the eight-argument generator of src/neutron/planet.h with radius 1; textures and shaders are left out. The sector and stack counts are parameters (any positive counts) rather than the fixed 36 and 18 of src/neutron/import.cpp:134-137, because literal counts make the verifier unfold the whole mesh definition; GameSphereFitsAsWritten covers the 36 x 18 case separately.
- SphereMesh.SphereBuffers.GenerateSphere: requires positive counts and a non-zero radius (the source divides by them). It sizes the tangent buffer at one vec4 per vertex, the corrected size (see Findings). Unsigned index wrap-around is not modelled.
- SphereTangents.MakeTangents: `inconsistentUvs` is computed and never used, so it is left out. The model writes the new `w` and the added direction in one vec4 write; the source's two writes have the same effect.
- NeutronImport.Planet.MakePlanet: the `default` branch of the type switch cannot be reached with a valid `Type`, so it is covered only through `Earth`.
- NgePhysics.Simulation.Tick: the default argument of 1/30 s is the constant `DefaultTimeStep`, not a default parameter. The time step passed to the response phase is unused, in the source and in the model. `potential_collisions` is never cleared between ticks, so the copies of earlier ticks respond again, as in the source.

## Findings

| source | as written | input that shows it | evidently intended | confidence | as-written member | corrected member |
|---|---|---|---|---|---|---|
| src/neutron/planet.h:138-139 | `tangents.resize(indices.size())` allocates one float per index, while `makeTangents` writes one vec4 (4 floats) per vertex | 1 sector, 2 stacks: 6 indices, so 6 floats, but index 3 writes floats 12-15; generally any sector count with 2 stacks | 4 floats per vertex: 4 * (stacks + 1) * (sectors + 1) | not executed | SphereMesh.TangentsOverflowAsWritten | SphereMesh.TangentsFit |
