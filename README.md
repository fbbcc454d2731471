# Three small C++ programs, modelled and verified in Dafny

The repository holds three independent programs. This project models the
logic of each one that can be separated from graphics, networking and
console I/O, and proves what that logic promises.

* **N-body solar system** (`NBodySimulation/main.cpp`), module `NBody` in
  `nbody.dfy`. It covers:
  * `Vec3` arithmetic and `norm`;
  * the O(N²) pairwise acceleration pass, which updates accelerations in
    place on an `array<Body>`;
  * the velocity-Verlet step with its persistent `oldAcc` buffer, a field of
    class `Integrator`;
  * the momentum (barycenter) correction;
  * the circular-orbit planet factory;
  * the initial Sun-and-eight-planets system and the five-sub-step frame.

  Each in-place method is proved equal to a function on the body sequence:
  `WithAccelerations`, `VerletStep`, `Recentered`, `Steps`. The physical
  laws are lemmas about those functions:
  * Newton's third law for the whole system (Σ mₖ·aₖ = 0);
  * momentum conservation by one exact Verlet step;
  * zero momentum after the correction;
  * the correction is idempotent;
  * every step leaves the accelerations consistent with the new positions.
* **Munch**, a two-player arcade game (`Munch/main.cpp`), module `Munch` in
  `munch.dfy`. It covers:
  * the circle-overlap test;
  * `Player::handleInput` and `Player::move`, as methods of class `Player`;
  * the rules pulled out of `main`, as methods of class `Game`: the Space
    restart, the frame step cap, the spawn cap, the player-collision
    winner, the swap-with-back particle collection sweep, the score
    threshold and the score-display refresh flag.

  The sweep is proved against a reference definition (`Claimed`): the
  particles each player is owed and the ones nobody touches. Properties
  proved about it:
  * no surviving particle touches a player;
  * each score rises by its share;
  * the survivors are a sub-multiset of the originals;
  * the total score gain equals the number of particles removed.
* **HOARD**, a console idle game (`HOARD/main.cpp`), module `Hoard` in
  `hoard.dfy`. It covers:
  * the player record, as class `Player` with `State()` as its value;
  * `invest`, `unlockMenu`, `loadGame` with the fallback in `main`, and one
    tick of `idleGain`;
  * `sanitizeName`, in place on an `array<char>`;
  * the name-acceptance loop;
  * the ranking and top-10 selection of `showLeaderboard`.

  Every method that changes the player record is proved equal to a function
  on `Account` values, and the rules are lemmas about those functions. The
  leaderboard sort works in place on an array and is proved to leave it
  sorted and a permutation of its old contents.

`realmath.dfy` (module `RealMath`) holds `std::min` and the square-root
abstraction shared by all three programs.

Modelling choices:
* Every `double` and `float` is a `real`.
* `std::sqrt` is a parameter `sqrt: real -> real`. Programs use it through
  `RealMath.Root`, its absolute value, so it is non-negative whatever the
  oracle. Lemmas that need it to be exact require `IsSqrt(sqrt)`.
* G is the literal 39.47841760435743. This is `4 * M_PI * M_PI` as a double,
  written to 16 significant digits.
* Inputs that the programs read from the environment are method
  parameters: random rolls, key states, the frame clock, the two clock
  readings of `loadGame`, the window size, typed names and menu choices,
  the save file's contents, the downloaded leaderboard.

The code differs from a natural reading of its intent in two places:
* `enforceBarycenter` divides by the total mass without checking it. The
  model makes a non-zero total mass a precondition, and proves the initial
  system's mass is at least 1.
* `invest` refuses only amounts above the units, so a negative amount is
  accepted and adds units. The model keeps this behaviour, exhibits it, and
  proves a corrected guard sound (see "## Findings").

The set-up computes accelerations before the correction. This order is
harmless: accelerations depend only on positions, and the correction
changes only velocities (`RecenterKeepsConsistent`).

## Model

| member | source | states |
|---|---|---|
| RealMath.Root | NBodySimulation/main.cpp:41-43 | the square root used by `norm` and `makePlanet` is never negative |
| RealMath.RootExact | NBodySimulation/main.cpp:41-43 | with an exact oracle, it is the number whose square is the argument |
| RealMath.RootUnique | NBodySimulation/main.cpp:130-133 | with an exact oracle, the root is the only non-negative number whose square is the argument |
| RealMath.RootLeIff | Munch/main.cpp:61-67 | a root is at most a bound exactly when the argument is at most the bound's square; this is why the collision test can compare squares |
| RealMath.Min | HOARD/main.cpp:52 | `std::min` is at most both arguments and is one of them |
| NBody.Div | NBodySimulation/main.cpp:38-40 | division by a non-zero scalar is undone by scaling back |
| NBody.Norm | NBodySimulation/main.cpp:41-43 | `norm(v) >= 0` |
| NBody.NormExact | NBodySimulation/main.cpp:41-43 | with an exact oracle, `norm(v)²` is the sum of the squared components |
| NBody.NormSymmetric | NBodySimulation/main.cpp:41-43 | `norm(b - a) == norm(a - b)` |
| NBody.AddSubCancel | NBodySimulation/main.cpp:26-31 | `(a + b) - b == a` |
| NBody.ScaleZero | NBodySimulation/main.cpp:32-37 | scaling the zero vector by any factor gives the zero vector |
| NBody.ScaleAdd | NBodySimulation/main.cpp:26-37 | scaling distributes over a sum: (a + b)·c == a·c + b·c |
| NBody.ScaleSub | NBodySimulation/main.cpp:29-37 | scaling distributes over a difference: (v - c)·m == v·m - c·m |
| NBody.ScaleSplit | NBodySimulation/main.cpp:32-37 | scaling by a sum of factors: c·(t + m) == c·t + c·m |
| NBody.Separation | NBodySimulation/main.cpp:66 | the regularised distance is at least EPS, which is positive |
| NBody.InvCube | NBodySimulation/main.cpp:67 | the inverse cube is defined, positive, and the inverse of dist³, so the pass never divides by zero |
| NBody.Force | NBodySimulation/main.cpp:64-71 | the force per unit mass on a body at p from one at q is a positive multiple of q - p, pointing from p to q, and is zero when the two coincide |
| NBody.ForceAntisymmetric | NBodySimulation/main.cpp:64-71 | the force per unit mass from j on i is minus that from i on j |
| NBody.ActionReaction | NBodySimulation/main.cpp:71-78 | the mass-weighted accelerations a pair gives each other cancel |
| NBody.NetAccel | NBodySimulation/main.cpp:57-81 | a lone body feels no acceleration, and in a two-body system each body's acceleration is exactly the pull of the other |
| NBody.WithAccelerations | NBodySimulation/main.cpp:57-81 | recomputing accelerations keeps the body count, masses, positions and velocities |
| NBody.NetAccelFrame | NBodySimulation/main.cpp:62-79 | each net acceleration depends only on masses and positions |
| NBody.WithAccelerationsConsistent | NBodySimulation/main.cpp:57-81 | after the pass every acceleration is the sum over j ≠ i of m_j·G·(p_j - p_i)/(‖p_j - p_i‖ + EPS)³ for the current positions |
| NBody.FewBodiesFeelNothing | NBodySimulation/main.cpp:57-81 | with 0 or 1 bodies every acceleration ends at zero |
| NBody.NewtonThirdLaw | NBodySimulation/main.cpp:71-78 | after the pass Σₖ mₖ·aₖ = 0 for any system |
| NBody.StagePair | NBodySimulation/main.cpp:71-78 | visiting pair (i, j) adds m_j·F to body i and subtracts m_i·F from body j, with the same F |
| NBody.PairForce | NBodySimulation/main.cpp:64-71 | the loop's separation, distance, inverse cube and force compute the force law |
| NBody.VisitPair | NBodySimulation/main.cpp:73-78 | one inner iteration moves the partial sums from pair (i, j) to pair (i, j+1) |
| NBody.ResetAccelerations | NBodySimulation/main.cpp:58-60 | the reset loop zeroes every acceleration and changes nothing else |
| NBody.VisitRow | NBodySimulation/main.cpp:63-79 | one outer iteration adds every pair (i, j > i) to the partial sums |
| NBody.ComputeAccelerations | NBodySimulation/main.cpp:57-81 | the in-place pass leaves the array equal to `WithAccelerations` of its old contents |
| NBody.Accelerations | NBodySimulation/main.cpp:92 | the buffer entries are the accelerations held on entry, index by index |
| NBody.Drift | NBodySimulation/main.cpp:91-98 | the position update keeps the body count |
| NBody.Kick | NBodySimulation/main.cpp:104-108 | the velocity update keeps the body count |
| NBody.VerletStep | NBodySimulation/main.cpp:86-109 | a step keeps the body count and every mass |
| NBody.VerletStepEffect | NBodySimulation/main.cpp:86-109 | a step gives each body p + v·dt + a_old·(0.5·dt²) and v + (a_old + a_new)·(0.5·dt), keeps masses and count, and leaves accelerations consistent with the new positions |
| NBody.VerletConservesMomentum | NBodySimulation/main.cpp:86-109 | with consistent accelerations on entry, one exact step keeps Σ mᵢ·vᵢ |
| NBody.Integrator.constructor | NBodySimulation/main.cpp:87 | the static buffer starts empty |
| NBody.Integrator.Resized | NBodySimulation/main.cpp:88 | `resize` gives length n and keeps the entries it does not cut |
| NBody.Integrator.Step | NBodySimulation/main.cpp:86-109 | the in-place step leaves the array equal to `VerletStep` of its old contents, and the buffer holding the accelerations from entry |
| NBody.StepsConsistent | NBodySimulation/main.cpp:224-225 | any positive number of steps keeps the count and ends with consistent accelerations |
| NBody.Steps | NBodySimulation/main.cpp:224-225 | any number of steps keeps the body count and every mass |
| NBody.Frame | NBodySimulation/main.cpp:224-225 | a rendered frame is exactly five Verlet steps |
| NBody.Shifted | NBodySimulation/main.cpp:156-157 | subtracting the correction keeps the body count |
| NBody.TotalMomentum | NBodySimulation/main.cpp:149-152 | Σ mᵢ·vᵢ is zero when every body is at rest |
| NBody.Correction | NBodySimulation/main.cpp:149-154 | the velocity correction is the vector that, times the total mass, gives the total momentum |
| NBody.Recentered | NBodySimulation/main.cpp:144-158 | the correction keeps the body count and every mass, position and acceleration |
| NBody.ShiftedSums | NBodySimulation/main.cpp:144-158 | subtracting c from every velocity keeps the total mass and lowers the total momentum by c times the total mass |
| NBody.RecenteredMomentumZero | NBodySimulation/main.cpp:144-158 | after the correction the total momentum is zero and the total mass is unchanged |
| NBody.RecenterIdempotent | NBodySimulation/main.cpp:144-158 | applying the correction twice equals applying it once |
| NBody.RecenterKeepsConsistent | NBodySimulation/main.cpp:156-157 | the correction changes only velocities, so consistent accelerations stay consistent |
| NBody.EnforceBarycenter | NBodySimulation/main.cpp:144-158 | the two in-place loops leave the array equal to `Recentered` of its old contents, given a non-zero total mass |
| NBody.MakePlanet | NBodySimulation/main.cpp:124-133 | a planet is at (r, 0, 0) with velocity (0, v, 0), v ≥ 0, and the given mass |
| NBody.CircularOrbit | NBodySimulation/main.cpp:130-133 | with an exact root, v² = G/r, so v²/r equals the Sun's pull G/r² |
| NBody.OrbitSpeedUnique | NBodySimulation/main.cpp:130-133 | with an exact root, a planet's speed is exactly the circular-orbit speed: the only non-negative u with u² = G/r |
| NBody.InitialBodies | NBodySimulation/main.cpp:189-208 | the initial system has the Sun and eight planets |
| NBody.InitialMassPositive | NBodySimulation/main.cpp:189-208 | the initial total mass is at least one solar mass, so the correction's division is safe |
| NBody.Setup | NBodySimulation/main.cpp:187-211 | the set-up leaves the corrected system with accelerations computed first |
| NBody.SetupReady | NBodySimulation/main.cpp:210-211 | after the set-up the momentum is zero and the accelerations are consistent, as the first step needs |
| Munch.CheckCollision | Munch/main.cpp:61-67 | the test holds exactly when the squared centre distance is at most (ra + rb)², and always for two discs at the same centre |
| Munch.VelocityFor | Munch/main.cpp:34-40 | each velocity component is +speed for the positive key minus speed for the negative key, so a lone key gives ±speed and opposite keys cancel |
| Munch.Moved | Munch/main.cpp:42-48 | a move ends with the whole disc inside the window |
| Munch.MovedFree | Munch/main.cpp:42-48 | a move whose plain step p + v·dt stays inside the window is that plain step, unclamped |
| Munch.CollisionSymmetric | Munch/main.cpp:61-67 | swapping (a, ra) with (b, rb) does not change the test |
| Munch.CollisionIsDistance | Munch/main.cpp:61-67 | for a non-negative radius sum, the test holds exactly when the centre distance is at most ra + rb |
| Munch.Clamp | Munch/main.cpp:45-46 | `std::clamp` lands in [lo, hi] and leaves a value already inside unchanged |
| Munch.ClampNearest | Munch/main.cpp:45-46 | the clamped value is the point of [lo, hi] nearest the input |
| Munch.AxisVelocity | Munch/main.cpp:34-40 | each velocity component is 0, +speed or -speed, and opposite keys cancel to 0 |
| Munch.MovedStill | Munch/main.cpp:42-48 | an in-bounds player with zero velocity does not move |
| Munch.Player.constructor | Munch/main.cpp:25-32 | a player starts at its start position, radius 15, score 0, at rest |
| Munch.Player.HandleInput | Munch/main.cpp:34-40 | the velocity is reset and then set from the four keys; position and score are unchanged |
| Munch.Player.Move | Munch/main.cpp:42-48 | the new position is the clamped move, inside the window; velocity and score are unchanged |
| Munch.Claim | Munch/main.cpp:171-178 | a particle goes to Blue when Blue touches it, even if Yellow does too; to Yellow only when Blue does not; to nobody when neither does |
| Munch.SiftPartition | Munch/main.cpp:166-189 | the Nobody, Blue and Yellow shares partition the particles as multisets and in number |
| Munch.SiftNobody | Munch/main.cpp:166-189 | a particle in the Nobody share is an original one that touches neither player |
| Munch.SweptClear | Munch/main.cpp:166-189 | a list with the elements of the Nobody share has no particle touching either player |
| Munch.SweepAccounting | Munch/main.cpp:171-188 | a list with the elements of the Nobody share is a sub-multiset of the originals, and the Blue and Yellow shares number what it lacks |
| Munch.SwapPop | Munch/main.cpp:183-184 | `particles[i] = back(); pop_back()` shortens the list by one |
| Munch.SweepRemove | Munch/main.cpp:180-185 | removing a touched particle keeps the sweep's accounting, crediting its claimant |
| Munch.SweepKeep | Munch/main.cpp:186-188 | stepping over an untouched particle keeps the sweep's accounting |
| Munch.Game.Credit | Munch/main.cpp:171-178 | the two tests collect a particle exactly when someone claims it, and add one to the claimant's score only |
| Munch.Game.SweepStep | Munch/main.cpp:167-188 | one iteration either removes particle i and stays at i, or advances past it; the accounting holds afterwards |
| Munch.Game.CollectParticles | Munch/main.cpp:166-189 | survivors are exactly the Nobody share, as a multiset; each score rises by its share; the total gain equals the number removed; no survivor touches a player; the flag is set exactly when something was collected |
| Munch.CollisionOutcome | Munch/main.cpp:152-163 | on a player collision Blue wins when p1 > p2, Yellow when p2 > p1, otherwise it is a draw |
| Munch.CollisionOutcomeMirror | Munch/main.cpp:152-163 | exchanging the scores exchanges the winner |
| Munch.ThresholdOutcome | Munch/main.cpp:191-201 | at the threshold Blue wins when p1 ≥ 100, otherwise Yellow |
| Munch.Game.constructor | Munch/main.cpp:102-118 | Blue starts at (100, 400), Yellow at (1100, 400), scores 0, no particles, not over |
| Munch.Game.KeyPressed | Munch/main.cpp:124-133 | only Space during a finished game restarts: scores 0, start positions, no particles, flag set, game on; otherwise nothing changes |
| Munch.Game.Spawn | Munch/main.cpp:140-141 | the particle list becomes `Spawned` of the old one: at most one particle is added, only below 50 and on a roll under 0.01 |
| Munch.Spawned | Munch/main.cpp:140-141 | the list after the spawn step is the old list, followed by one new particle at the spawn point exactly when fewer than 50 exist and the roll is under 0.01 |
| Munch.Game.Frame | Munch/main.cpp:120-218 | a finished game with no Space press is frozen: particles, positions, velocities, scores, banner and refresh flag are kept. Otherwise the frame plays with step min(elapsed, 0.1) from a starting state: the start positions, zero scores and no particles after a Space restart, or the state on entry. Velocities come from the keys and positions are the clamped moves. From the starting particles plus the one spawned, the survivors are exactly the ones neither player touches (as a multiset), and each score rises by the particles it claims, Blue first. The game ends exactly on a collision or the threshold, and the banner follows the two rules, with the collision winner judged on the starting scores |
| Munch.Game.Update | Munch/main.cpp:139-218 | velocities come from the keys and positions are the clamped moves. From the particles on entry plus the one spawned when allowed, the survivors are exactly the ones neither moved player touches (as a multiset), and each score rises by the particles it claims, Blue first. No particle is left touching, the game ends exactly on a collision or the threshold, and the banner follows the two rules |
| Munch.Game.Resolve | Munch/main.cpp:148-217 | after the moves: the survivors are exactly the particles neither player touches (as a multiset), and each score rises by the particles it claims, Blue first. Game over exactly on a disc collision or a score ≥ 100; a threshold banner overrides the collision banner, which is judged on the scores before the sweep; the refresh flag ends cleared |
| Hoard.Efficiency | HOARD/main.cpp:52 | for idleBonus ≥ 0 the offline efficiency lies in [0.10, 1.10] |
| Hoard.OfflineGain | HOARD/main.cpp:53 | no time offline, or a zero rate, earns nothing |
| Hoard.OfflineGainBounds | HOARD/main.cpp:51-54 | the offline gain is between 0.1 and 1.1 times rate·elapsed |
| Hoard.TickMultiplier | HOARD/main.cpp:61 | for idleBonus ≥ 0 the tick multiplier lies in [1, 2] |
| Hoard.BaseIncrease | HOARD/main.cpp:74-75 | the rate increase bought with a non-negative amount is non-negative |
| Hoard.RateIncrease | HOARD/main.cpp:74-83 | for a non-negative amount the increase is non-negative; a non-zero increase is doubled exactly when the roll is below min(chance, 0.05) |
| Hoard.Invested | HOARD/main.cpp:66-84 | as written: a shortfall changes nothing; otherwise units drop by the amount and the rate rises by the increase; nothing else changes |
| Hoard.InvestedChecked | HOARD/main.cpp:66-84 | corrected: non-positive or unaffordable amounts change nothing; the rest behave as written |
| Hoard.InvestEffect | HOARD/main.cpp:72-83 | an accepted investment lowers units by exactly the amount, keeps them ≥ 0, and raises the rate by the formula, doubled exactly on a lucky roll |
| Hoard.NegativeInvestmentMints | HOARD/main.cpp:67-72 | as written, a negative amount passes the guard and raises the units |
| Hoard.NegativeInvestmentExample | HOARD/main.cpp:66-84 | as written, a new player investing -500 ends with 500 units and rate 1.5 |
| Hoard.InvestCheckedSound | HOARD/main.cpp:66-84 | with the corrected guard, units never rise, the rate never drops, and a healthy record stays healthy |
| Hoard.Unlocked | HOARD/main.cpp:156-165 | an upgrade never touches name, rate or save time |
| Hoard.UnlockEffect | HOARD/main.cpp:156-165 | choice 1 is applied exactly when the idle bonus is below 1.0 and 5000 units are affordable, and choice 2 exactly when the luck chance is below 0.05 and 8000 units are affordable; an applied choice moves units and its own field by the constants; any other case changes nothing; units never go negative |
| Hoard.UpgradeCaps | HOARD/main.cpp:156-165 | the idle bonus never passes 1.05 and the luck chance never passes 0.0505 |
| Hoard.Loaded | HOARD/main.cpp:43-56 | a load takes the name, rate and both upgrades from the save, and stamps the save time with the second of the two clock readings |
| Hoard.LoadedEffect | HOARD/main.cpp:51-54 | loading a healthy past save never loses units and gives a healthy record |
| Hoard.Ticked | HOARD/main.cpp:61-62 | a tick changes only the units |
| Hoard.TickEffect | HOARD/main.cpp:58-64 | a tick adds between one and two times the rate and keeps the record healthy |
| Hoard.Player.constructor | HOARD/main.cpp:20-27 | a new record has no name, 0 units, rate 1 and no upgrades |
| Hoard.Player.Invest | HOARD/main.cpp:66-84 | the in-place `invest` produces `Invested` of the old record |
| Hoard.Player.InvestChecked | HOARD/main.cpp:66-84 | the corrected invest produces `InvestedChecked` of the old record |
| Hoard.Player.UnlockMenu | HOARD/main.cpp:143-166 | the in-place purchase produces `Unlocked` of the old record |
| Hoard.Player.LoadGame | HOARD/main.cpp:43-56 | succeeds exactly when a save exists, and then yields `Loaded` for the two clock readings; otherwise nothing changes |
| Hoard.Player.Resume | HOARD/main.cpp:203-206 | without a save the record gets 0 units and rate 1 |
| Hoard.Player.IdleGain | HOARD/main.cpp:58-64 | one pass of the idle loop produces `Ticked` of the old record |
| Hoard.Sanitized | HOARD/main.cpp:168-171 | length is kept and each character is mapped on its own |
| Hoard.SanitizedProperties | HOARD/main.cpp:168-171 | no space is left, the other characters stay at their index, spaces become '_', and a second pass changes nothing |
| Hoard.SanitizeName | HOARD/main.cpp:168-171 | the in-place rewrite yields `Sanitized` of the old buffer |
| Hoard.NameAccepted | HOARD/main.cpp:191-198 | a name is accepted exactly when it is absent from the board or, with a save present, is the saved name: absent names and the returning player's own name pass, and any other name on the board is refused |
| Hoard.ChooseName | HOARD/main.cpp:189-201 | the first typed name whose sanitized form is absent from the board, or equals the saved name while a save exists, is chosen; all earlier ones were refused |
| Hoard.Descending | HOARD/main.cpp:130-133 | in a list ordered by `a.units > b.units`, each row has at least the units of the next, and the first row has the most |
| Hoard.SortByUnits | HOARD/main.cpp:130-133 | the rows end sorted non-increasing by units, as a permutation |
| Hoard.InsertLast | HOARD/main.cpp:130-133 | one insertion extends the sorted prefix by a row and keeps the multiset |
| Hoard.ShowLeaderboard | HOARD/main.cpp:124-141 | the ranking is a permutation sorted by units, and the shown rows are its first min(n, 10) |
| Hoard.ShownDominate | HOARD/main.cpp:135-140 | every shown row has at least the units of every row not shown |

## Left out

- Rendering and I/O: SFML windows, events, drawing, trails, `toScreen`, fonts, sounds and text layout, plus all console printing and reading.
- Floating point: IEEE rounding, overflow, NaN and infinity are not modelled. All laws are exact laws over the reals, and conservation after many steps is not claimed.
- `std::sqrt`: modelled as a parameter, not a fixed function. Exactness is assumed only by the lemmas that require `IsSqrt`.
- NBody.MakePlanet: requires a non-zero radius, because G / radius must be defined over the reals. The program divides without a check, and all of its radii are positive.
- NBody.MakePlanet: a planet's acceleration starts at zero, while the program leaves it uninitialised. The pass at NBodySimulation/main.cpp:210 overwrites it before any use.
- NBody.EnforceBarycenter: requires a non-zero total mass. The program divides by it unguarded and raises no error.
- NBody: mass validation at construction is not modelled, because the program has none.
- Munch.Game.Frame: handles one key event per frame. The program may poll several; only a Space press during a finished game has an effect.
- Munch.Player.Move: requires 2r ≤ the window width and height, which is `std::clamp`'s own precondition.
- Munch.Game.KeyPressed: the restart keeps the last banner outcome and the players' velocities, as the program does.
- Munch.Game.Resolve: the win sound, banner colours and text are not modelled; only the winner they announce is.
- Hoard.Player.Invest: requires amount ≠ -1000, and so do Hoard.RateIncrease, Hoard.BaseIncrease, Hoard.Invested, Hoard.InvestEffect and Hoard.NegativeInvestmentMints. There the program divides by zero and the rate becomes infinite in IEEE arithmetic, which reals cannot express.
- Hoard.BaseIncrease: its ensures gives the sign only for amount ≥ 0. The value for amounts between -1000 and 0 is shown only by the -500 example in NegativeInvestmentExample.
- Hoard: the idle thread's one-second sleep loop and its unsynchronised sharing of the record are not modelled; only one tick is.
- Hoard: curl networking, JSON parsing and save-file parsing are not modelled. The leaderboard and save contents are inputs: the save is `Option<SaveRecord>`, where None means no file. The name on file is an input too.
- Hoard.ChooseName: the endless prompt loop is modelled over a finite sequence of typed names. It returns None when every one of them is refused.
- Hoard.ChooseName: a typed name is any string, although `cin >>` reads a token without spaces.
- Hoard.ShowLeaderboard: `std::sort` is modelled by an insertion sort whose contract is what `std::sort` promises. The order of rows with equal units, and the JSON iteration order of the input, are not pinned down.

## Findings

| source | as written | input that shows it | evidently intended | confidence | as-written member | corrected member |
|---|---|---|---|---|---|---|
| HOARD/main.cpp:66-84 | `invest` refuses only amounts above the units, so a negative amount is accepted and adds units | a new player (0 units, rate 1) investing -500 ends with 500 units and rate 1.5 | amounts ≤ 0 are refused | not executed | Hoard.NegativeInvestmentExample | Hoard.InvestCheckedSound |
