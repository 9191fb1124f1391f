# Tower defense simulation core in Dafny

This project models the game logic of a Unity tower-defense game written in C#. Creeps
walk from spawn points to a base. Turrets placed by the player shoot them, either with
instant hits or with projectiles. Killing a creep pays coins. A creep that reaches the base
damages it. Waves run one after another until the last wave is done (the match is won) or
the base health reaches zero (the match is lost).

The model follows the structure of the game's own classes. Each is listed with its Dafny
module:

- **Common**: positions, quaternions and the optional value used for null references.
- **GameData**: the designer-authored templates `CreepData`, `TurretData`, `WaveData` and
  `GameConfig`, with their asset defaults and the wave count `GetTotalCreepCount`.
- **CreepHealth**: `CreepModel`, the health and speed state of one creep. Beside it are
  functions for a sequence of hits, used to prove that death fires at most once.
- **Pooling**: `GameObject` and the `ObjectPooler`, a FIFO queue of spare objects per
  prefab name that grows on demand.
- **Match**: `GameManager`, `EconomySystem`, `BaseDefense`, `WaveManager` and
  `CreepController`. They share one module because the classes refer to each other in a
  cycle.
  - The `SpawnWave` / `WaitForWaveCompletion` coroutine is the `Routine` value. `Resume`
    advances it by one step.
  - Creep movement and the slow effect are advanced by the step methods `MoveTick` and
    `SlowTick`.
  - The delayed wave starts of the GameManager are counted as pending. The methods
    `FirstWaveDelayElapsed` and `NextWaveDelayElapsed` take one off the count.
- **Combat**: `Turret` and `Projectile`. This covers target selection, fire timing,
  instant hits and projectile hits, with their damage, slow, death and reward effects on
  the creep struck.
- **Placement**: `TurretPlacementSystem`. This covers the selected turret type, placement
  mode, the minimum-distance rule and purchase-then-place.

Three behaviours that follow from the game's order of effects are kept as the game has
them:

- A base that falls after the last wave's final spawn does not keep the match lost. The
  completion poll ends once the match is not Playing, and `OnWaveCompleted` then sets
  GameWon over GameLost (see `GameManager.CountedWave`).
- A creep that reaches the base during `Initialize` has already damaged the base, paid its
  reward and been deactivated. `SpawnCreep` subscribes to it and lists it only afterwards,
  so it stays in `activeCreeps` and its wave does not complete while the match is Playing
  (see `WaveManager.SpawnedFrom`).
- A creep that reaches the base keeps its health and is only deactivated. A turret's
  `UpdateTargeting` checks only health and distance, so the turret keeps that creep as its
  target until its next targeting pass. An instant hit that kills it in that window runs
  `HandleDeath` a second time and pays a second reward (see `Combat.Live` and
  `Turret.InstantHit`).

Classes whose fields the game updates in place are Dafny classes. Their methods carry
field-granular `modifies` clauses and state the new state in their `ensures`.

The engine's services are parameters of the model:

- distances are a caller-supplied `Metric`;
- `Random.Range` is a `roll` in its range;
- `Shuffle` is a caller-supplied permutation;
- scene queries (`FindObjectsOfType`, `Physics.OverlapSphere`) are sequences;
- `Time.time` is `now`;
- the pooled instance a spawn hands out, with its components, is a parameter `leased`.

## Model

| member | source | states |
|---|---|---|
| Common.Up | Assets/Scripts/Entities/Turret.cs:59-61 | the direction a child's local `Vector3.up` offset takes in the world: the y axis turned by the parent's rotation, which is the y axis itself for an unrotated parent |
| Common.FloorAtZero | Assets/Scripts/Entities/CreepModel.cs:27 | `Mathf.Max(0, x)`: never negative, and equal to `x` unless `x` is negative |
| GameData.NewCreepData | Assets/Scripts/Data/CreepData.cs:7-16 | a new creep template has damage 1, health 3, speed 2 and a coin cap of 10 |
| GameData.NewTurretData | Assets/Scripts/Data/TurretData.cs:7-23 | a new turret template costs 5, deals 1 damage, has range 5, fires once a second, has projectile speed 10, carries a disabled half-speed slow of 2 seconds, and has no projectile prefab |
| GameData.NewGameConfig | Assets/Scripts/Data/GameConfig.cs:7-19 | the configuration defaults: base health 10, 20 starting coins, turret cost 5, 1 coin per kill, 5 s between waves, 3 s before the first wave, 3 s popups |
| GameData.NewSpawnInfo | Assets/Scripts/Data/WaveData.cs:13-18 | a batch carries its template and its count, with no delay before it |
| GameData.NewWaveData | Assets/Scripts/Data/WaveData.cs:8-10 | a new wave has one second between spawns and no batches, so its total is 0 |
| GameData.GetRandomCoinReward | Assets/Scripts/Data/CreepData.cs:14-22 | the reward lies in the closed range 1..maxCoinReward, because the upper end of `Random.Range` is exclusive |
| GameData.CoinRewardRangeNonEmpty | Assets/Scripts/Data/CreepData.cs:14-22 | a reward can always be drawn, and both 1 and maxCoinReward are possible |
| GameData.SumCountsAppend | Assets/Scripts/Data/WaveData.cs:20-28 | appending a batch raises the wave total by exactly its count |
| GameData.SumCountsConcat | Assets/Scripts/Data/WaveData.cs:20-28 | the total of two batch lists is the sum of their totals |
| GameData.SumCountsBoundsBatch | Assets/Scripts/Data/WaveData.cs:20-28 | with no negative count, every batch's count lies between 0 and the wave total |
| GameData.SumCountsNonNegative | Assets/Scripts/Data/WaveData.cs:20-28 | with no negative count, the wave total is never negative |
| GameData.GetTotalCreepCount | Assets/Scripts/Data/WaveData.cs:20-28 | the loop returns the sum of all batch counts |
| CreepHealth.DeadIgnoresHits | Assets/Scripts/Entities/CreepModel.cs:23-32 | once health is at or below zero, no later hit changes it and none fires death |
| CreepHealth.DeathFiresAtMostOnce | Assets/Scripts/Entities/CreepModel.cs:23-32 | over any sequence of hits, OnDeath fires at most once, and it fires exactly when a creep that started alive ends at zero health |
| CreepHealth.HitsKeepHealthInRange | Assets/Scripts/Entities/CreepModel.cs:23-32 | health that starts non-negative never goes below zero, and non-negative hits never raise it |
| CreepHealth.CreepModel.constructor | Assets/Scripts/Entities/CreepModel.cs:15-21 | a new model has the template's health, speed and damage, and no events fired |
| CreepHealth.CreepModel.IsAlive | Assets/Scripts/Entities/CreepModel.cs:10 | alive exactly when health is above zero |
| CreepHealth.CreepModel.TakeDamage | Assets/Scripts/Entities/CreepModel.cs:23-32 | a dead model ignores the hit; a live one loses health (floored at zero) and fires OnDamaged; OnDeath fires exactly on the killing hit; the "fired at most once, only when dead" invariant is kept |
| CreepHealth.CreepModel.ApplySlow | Assets/Scripts/Entities/CreepModel.cs:34 | the slowed speed is the template speed times the multiplier, whatever the current speed |
| CreepHealth.CreepModel.ResetSpeed | Assets/Scripts/Entities/CreepModel.cs:35 | the speed returns to the template speed |
| Pooling.GameObject.constructor | Assets/Scripts/Utils/ObjectPooler.cs:30-31 | an instantiated copy records the prefab it was made from (its `name` field) and starts inactive |
| Pooling.GameObject.SetActive | Assets/Scripts/Utils/ObjectPooler.cs:31 | the active flag takes the given value |
| Pooling.RegisteredCount | Assets/Scripts/Utils/ObjectPooler.cs:24-36 | the registrations that complete are a prefix with distinct names; if it stops short, the next name repeats an earlier one (where `Dictionary.Add` throws) |
| Pooling.RegisteredFrom | Assets/Scripts/Utils/ObjectPooler.cs:24-36 | continuing the registration from a distinct prefix stops exactly at the first repeated name |
| Pooling.DisjointAdd | Assets/Scripts/Utils/ObjectPooler.cs:35 | adding a new name with a fresh queue keeps every object in at most one queue slot |
| Pooling.ObjectPooler.Awake | Assets/Scripts/Utils/ObjectPooler.cs:18-37 | the registered names are those of the completed registrations; each queue holds `max(0, size)` fresh, inactive copies of its prefab; no object is in two slots |
| Pooling.ObjectPooler.Registrations | Assets/Scripts/Utils/ObjectPooler.cs:24-36 | registering pools with distinct names gives one queue per name, with `max(0, size)` fresh, inactive copies each, and no object in two slots |
| Pooling.ObjectPooler.AddSpares | Assets/Scripts/Utils/ObjectPooler.cs:26-35 | one registration adds a queue of fresh, inactive copies under a new name and keeps the other queues and the no-two-slots invariant |
| Pooling.ObjectPooler.MakeSpares | Assets/Scripts/Utils/ObjectPooler.cs:26-33 | `max(0, size)` distinct, fresh, inactive copies of the prefab |
| Pooling.ObjectPooler.SpawnFromPool | Assets/Scripts/Utils/ObjectPooler.cs:39-63 | an unknown name gives null and changes nothing; otherwise the front spare is dequeued (or a new copy is made when the queue is empty), activated and placed; no object ever sits in two slots |
| Pooling.ObjectPooler.ReturnToPool | Assets/Scripts/Utils/ObjectPooler.cs:65-68 | the object is deactivated and appended to its name's queue; an unknown name leaves the queues as they were; returning an object not already queued keeps the no-two-slots invariant |
| Match.CoinsNeverNegative | Assets/Scripts/Core/GameManager.cs:137-152 | no sequence of spends and non-negative additions takes a non-negative balance below zero |
| Match.EnterKeepsCount | Assets/Scripts/Systems/WaveManager.cs:96-130 | entering batch `b` reaches a running step that still owes exactly the creeps of batch `b` onwards |
| Match.CreepsFromIsTotal | Assets/Scripts/Systems/WaveManager.cs:96-130 | with no negative count, the creeps the routine spawns are the wave's GetTotalCreepCount |
| Match.RemoveFirstTakesOneCopy | Assets/Scripts/Systems/WaveManager.cs:193 | `List.Remove` takes out exactly one occurrence when there is one (the length drops by one) and otherwise leaves the list as it was |
| Match.StepAccounting | Assets/Scripts/Systems/WaveManager.cs:96-142 | each resumption keeps the routine well formed; a delay spawns nothing; a spawn step while Playing owes one creep fewer; the poll stops only when no creep is left or the match is not Playing |
| Match.GameManager.constructor | Assets/Scripts/Core/GameManager.cs:11-22 | a new manager has no coins, no base health, wave 0, the main menu state and nothing pending |
| Match.GameManager.StartNewGame | Assets/Scripts/Core/GameManager.cs:64-82 | starting coins and base health are loaded; wave 0; Playing; the wave manager is reset and unsubscribed from its creeps; one first-wave start is scheduled |
| Match.GameManager.FirstWaveDelayElapsed | Assets/Scripts/Core/GameManager.cs:84-88 | after the delay the next wave starts, whatever the match state |
| Match.GameManager.RestartGame | Assets/Scripts/Core/GameManager.cs:90-94 | every given scene object is deactivated, then a new game is started |
| Match.GameManager.ClearGameObjects | Assets/Scripts/Core/GameManager.cs:96-121 | every creep, turret and projectile object the scene search returns is inactive afterwards |
| Match.GameManager.ResetGameState | Assets/Scripts/Core/GameManager.cs:123-129 | coins, base health and wave are zero, and the state is the main menu |
| Match.GameManager.ChangeGameState | Assets/Scripts/Core/GameManager.cs:131-135 | any state may follow any other |
| Match.GameManager.SpendCoins | Assets/Scripts/Core/GameManager.cs:137-146 | it succeeds exactly when the balance covers the amount, and then deducts it; otherwise the balance is unchanged |
| Match.GameManager.AddCoins | Assets/Scripts/Core/GameManager.cs:148-152 | the balance rises by the amount |
| Match.GameManager.DamageBase | Assets/Scripts/Core/GameManager.cs:154-163 | base health drops by the damage, floored at zero; at zero the match is lost from whatever state it was in |
| Match.GameManager.OnWaveCompleted | Assets/Scripts/Core/GameManager.cs:165-178 | one more wave is counted; once the count reaches the number of waves the match is won, and otherwise the next wave is scheduled |
| Match.GameManager.NextWaveDelayElapsed | Assets/Scripts/Core/GameManager.cs:180-187 | after the delay the next wave starts only while Playing; otherwise the wave manager is untouched |
| Match.EconomySystem.constructor | Assets/Scripts/Systems/EconomySystem.cs:21-24 | the economy fronts the given GameManager |
| Match.EconomySystem.CanAfford | Assets/Scripts/Systems/EconomySystem.cs:26-29 | affordable exactly when the balance is at least the cost |
| Match.EconomySystem.TryPurchase | Assets/Scripts/Systems/EconomySystem.cs:31-38 | the purchase succeeds exactly when it was affordable, and then it deducts the cost; otherwise nothing is spent |
| Match.EconomySystem.RewardCoins | Assets/Scripts/Systems/EconomySystem.cs:40-43 | the balance rises by the reward |
| Match.EconomySystem.GetCurrentCoins | Assets/Scripts/Systems/EconomySystem.cs:45-48 | the manager's current balance |
| Match.BaseDefense.constructor | Assets/Scripts/Systems/BaseDefense.cs:17-30 | with a GameManager, health starts full at the configured maximum; without one, both stay 0 |
| Match.BaseDefense.InitializeBase | Assets/Scripts/Systems/BaseDefense.cs:32-39 | with a GameManager, the maximum is loaded and health set to it; without one, nothing changes |
| Match.BaseDefense.HealthPercentage | Assets/Scripts/Systems/BaseDefense.cs:15 | the health fraction, 0 when the maximum is not positive, and within 0..1 while health is within 0..max |
| Match.BaseDefense.TakeDamage | Assets/Scripts/Systems/BaseDefense.cs:41-47 | the base's own health drops, floored at zero, and the same damage is applied to the GameManager, which may end the match |
| Match.BaseDefense.IsCreepAtBase | Assets/Scripts/Systems/BaseDefense.cs:49-55 | arrived exactly when the base object exists and the creep is within the radius, bound included |
| Match.BaseDefense.GetBasePosition | Assets/Scripts/Systems/BaseDefense.cs:57-60 | the base object's position, or the origin when it is missing |
| Match.BaseDefense.ResetHealth | Assets/Scripts/Systems/BaseDefense.cs:62-65 | health returns to the maximum |
| Match.WaveManager.constructor | Assets/Scripts/Systems/WaveManager.cs:8-18 | no wave running, no active creep, wave index 0, spawn rotation at its start |
| Match.WaveManager.Start | Assets/Scripts/Systems/WaveManager.cs:29-33 | the GameManager is linked and the rotation becomes the given permutation of the spawn points |
| Match.WaveManager.StartNextWave | Assets/Scripts/Systems/WaveManager.cs:87-101 | ignored while a wave runs or when none is left; otherwise the current wave is in progress, its counters reset, its total counted, and its routine at the step SpawnWave takes next (a delay, a spawn or the poll) |
| Match.WaveManager.SpawnCreep | Assets/Scripts/Systems/WaveManager.cs:163-189 | with no spawn points nothing happens. Otherwise the next point of the rotation is used (reshuffled and restarted once it is used up) and the creep is initialised there, which runs its first arrival test. Only then is it subscribed to and listed, so a creep spawned within reach of the base damages it, pays its reward, and stays listed. The rotation stays a permutation of the spawn points |
| Match.WaveManager.PlaceNext | Assets/Scripts/Systems/WaveManager.cs:170-180 | the next point of the rotation, reshuffled and restarted once used up; the object is active there and unrotated |
| Match.WaveManager.StartAndEnlist | Assets/Scripts/Systems/WaveManager.cs:183-185 | the creep is initialised before it is subscribed and listed; a death fired inside Initialize reaches only the subscriber the creep had before |
| Match.WaveManager.Resume | Assets/Scripts/Systems/WaveManager.cs:96-142 | one coroutine step: a spawn step while Playing runs SpawnCreep once (one creep placed when there are spawn points, none otherwise) and counts one creep either way; outside Playing it abandons the routine with the wave still marked in progress; the poll completes the wave once no creep is active or the match is not Playing; the spawned count plus the creeps still owed always equals the wave's total |
| Match.WaveManager.SpawnStep | Assets/Scripts/Systems/WaveManager.cs:114-124 | a spawn step while Playing runs SpawnCreep once for the current batch (one creep placed when there are spawn points, none otherwise), then counts one creep either way and moves the routine on |
| Match.WaveManager.CountSpawn | Assets/Scripts/Systems/WaveManager.cs:119 | the spawned count rises by one and the routine moves on, keeping the count plus what is still owed at the wave's total |
| Match.WaveManager.QuietStep | Assets/Scripts/Systems/WaveManager.cs:106-142 | a step that spawns nothing: a delay ends, a spawn step outside Playing abandons the routine, or the poll completes the wave; no creep or spawn point changes |
| Match.WaveManager.CompleteCurrentWave | Assets/Scripts/Systems/WaveManager.cs:144-161 | the wave is over, the index moves on, the GameManager counts the wave; the result says whether all waves are done |
| Match.WaveManager.OnCreepDeath | Assets/Scripts/Systems/WaveManager.cs:191-195 | the creep's first listing is removed and the manager unsubscribes from its death |
| Match.WaveManager.Unsubscribe | Assets/Scripts/Systems/WaveManager.cs:201-207 | every listed creep subscribed to this manager is unsubscribed, and no other subscription changes |
| Match.WaveManager.ResetWaves | Assets/Scripts/Systems/WaveManager.cs:197-214 | the routine stops, every active creep is unsubscribed and forgotten, and the counters return to the first wave; the spawn index is kept |
| Match.WaveManager.GetCurrentWave | Assets/Scripts/Systems/WaveManager.cs:216 | the current wave while one is left, otherwise none |
| Match.WaveManager.GetWave | Assets/Scripts/Systems/WaveManager.cs:218-223 | the wave at an index inside the list, otherwise none |
| Match.CreepController.constructor | Assets/Scripts/Entities/CreepController.cs:7-28 | no model, not moving, not slowed, not arrived, nobody subscribed |
| Match.CreepController.IsAlive | Assets/Scripts/Entities/CreepController.cs:18 | alive exactly when the model's health is above zero |
| Match.CreepController.Initialize | Assets/Scripts/Entities/CreepController.cs:30-61 | a fresh model at the template's values, and the first loop iteration of the movement routine already run. A live creep placed within reach of the base arrives at once: the base is damaged, the reward paid, the object deactivated and the death passed to the current subscriber. Otherwise the object is active and walking to the base, and nothing else changes. `reachedBase` is not reset |
| Match.CreepController.HandleDeath | Assets/Scripts/Entities/CreepController.cs:104-116 | movement and slow stop, the object is deactivated, the drawn reward is paid when there is an economy, and the subscribed manager drops the creep and unsubscribes |
| Match.CreepController.CheckIfReachedBase | Assets/Scripts/Entities/CreepController.cs:63-77 | at the base, the creep marks itself arrived, damages the base by its damage and is handled as dead (with the reward); elsewhere nothing changes |
| Match.CreepController.MoveTick | Assets/Scripts/Entities/CreepController.cs:47-61 | a stopped or inactive routine does nothing; a dead or arrived creep ends the loop; otherwise the creep moves and the arrival test runs |
| Match.CreepController.TakeDamage | Assets/Scripts/Entities/CreepController.cs:79 | the model takes the hit; exactly on the killing hit the death handler runs; otherwise nothing else changes |
| Match.CreepController.ApplySlow | Assets/Scripts/Entities/CreepController.cs:81-88 | any running slow is cancelled; an active creep starts the new one, so the latest slow sets the speed and the time left; on an inactive creep the running slow is cancelled and the speed is left as it is, since the cancelled slow's reset never runs |
| Match.CreepController.SlowTick | Assets/Scripts/Entities/CreepController.cs:90-100 | the running slow's time goes down; when it is used up the template speed returns and the slow ends; without a running slow nothing changes |
| Combat.InRangeConcat | Assets/Scripts/Entities/Turret.cs:93-107 | the range filter keeps the input order and distributes over concatenation |
| Combat.InRangeMembers | Assets/Scripts/Entities/Turret.cs:93-107 | a creep is in range exactly when it is one of the candidates, alive and within range (bound included) |
| Combat.ClosestIsUnique | Assets/Scripts/Entities/Turret.cs:109-133 | ties go to the first candidate, so at most one candidate is the selected target |
| Combat.FirstShotAfterSeed | Assets/Scripts/Entities/Turret.cs:72 | seeding the last fire time with `-fireRate` allows a shot at time `now` exactly when `now + fireRate` reaches the interval `1 / fireRate`; for rates of at least one shot per second it holds at every time from 0 on, and for slower rates only from `1 / fireRate - fireRate` on |
| Combat.SlowTurretWaitsAfterSeed | Assets/Scripts/Entities/Turret.cs:72 | a turret firing less than once per second cannot fire at any time `now` from 0 up to, but not including, `1 / fireRate - fireRate` |
| Combat.Strike | Assets/Scripts/Entities/Turret.cs:187-199 | the hit is taken first (running the death handler on a kill), then the slow, which starts only on a creep still active |
| Combat.FirstLive | Assets/Scripts/Entities/Projectile.cs:93-105 | the index of the first overlap that is a live creep, all earlier ones being null or dead; none when no overlap is a live creep |
| Combat.Victim | Assets/Scripts/Entities/Projectile.cs:93-105 | the creep a projectile hit strikes: the first live one, or null when there is none |
| Combat.FindVictim | Assets/Scripts/Entities/Projectile.cs:93-105 | the search loop returns exactly that creep |
| Combat.Projectile.constructor | Assets/Scripts/Entities/Projectile.cs:6-19 | no data, no target, not hit, no self-disable scheduled |
| Combat.Projectile.Initialize | Assets/Scripts/Entities/Projectile.cs:37-60 | the payload is copied when there is data; the self-disable is scheduled; the aim is the target's position, or ten units straight ahead without a target; the hit latch is not reset |
| Combat.Projectile.LifeTimeElapsed | Assets/Scripts/Entities/Projectile.cs:41-62 | the scheduled disable runs and the projectile is inactive |
| Combat.Projectile.HitTarget | Assets/Scripts/Entities/Projectile.cs:88-110 | the first call sets the latch, strikes the first live overlapping creep with the projectile's damage and slow, and disables the projectile; a second call changes nothing; no other creep is touched |
| Combat.Projectile.MoveTowardsTarget | Assets/Scripts/Entities/Projectile.cs:64-86 | the aim follows a live target and is kept otherwise; strictly inside the hit radius the first hit happens; otherwise nothing else changes |
| Combat.Projectile.Update | Assets/Scripts/Entities/Projectile.cs:31-35 | after a hit, or while inactive, nothing changes; otherwise it moves toward the target |
| Combat.Projectile.OnTriggerEnter | Assets/Scripts/Entities/Projectile.cs:112-121 | only a live creep touching a projectile that has not hit sets off the hit; any other contact changes nothing |
| Combat.Turret.constructor | Assets/Scripts/Entities/Turret.cs:8-29 | no target, no creep in range, last fire time 0; data and fire point as the prefab has them |
| Combat.Turret.HasTarget | Assets/Scripts/Entities/Turret.cs:22 | true exactly when a target is set |
| Combat.Turret.Range | Assets/Scripts/Entities/Turret.cs:23 | the template's range, or 0 without data |
| Combat.Turret.InitializeTurret | Assets/Scripts/Entities/Turret.cs:52-73 | without data nothing changes; with data a fire point exists and the last fire time is `-fireRate`; a fire point made here sits half a unit along the turret's up axis and is unrotated |
| Combat.Turret.Initialize | Assets/Scripts/Entities/Turret.cs:44-48 | the data is set, then the turret is initialised as above |
| Combat.Turret.FindCreepsInRange | Assets/Scripts/Entities/Turret.cs:93-107 | the creeps in range are exactly the live scene creeps within range, in scene order; without data it runs when no scene creep is alive (the range is read only for live creeps) |
| Combat.Turret.SelectBestTarget | Assets/Scripts/Entities/Turret.cs:109-133 | the target is the first live creep in range strictly nearest to the base; none when no live candidate is nearer than float.MaxValue |
| Combat.Turret.UpdateTargeting | Assets/Scripts/Entities/Turret.cs:135-143 | a target that has died or left the range is dropped; one still alive and in range is kept; without data it runs when there is no live target (the range is read only for one) |
| Combat.Turret.InstantHit | Assets/Scripts/Entities/Turret.cs:187-199 | the target takes the turret's damage, then its slow when it has one |
| Combat.Turret.Fire | Assets/Scripts/Entities/Turret.cs:171-185 | nothing without a target or fire point; with a projectile prefab a projectile is placed at the fire point and launched at the target, which is untouched; otherwise the target is hit on the spot |
| Combat.Turret.TryFire | Assets/Scripts/Entities/Turret.cs:159-169 | with a target and data, and once `1 / fireRate` seconds have passed since the last shot, it fires and records `now`; otherwise nothing changes |
| Placement.PlacingKeepsSpread | Assets/Scripts/Systems/TurretPlacementSystem.cs:200-255 | appending a position clear of every placed turret keeps all placed turrets at least the minimum distance apart |
| Placement.TurretPlacementSystem.constructor | Assets/Scripts/Systems/TurretPlacementSystem.cs:12-57 | nothing selected, not in placement mode, nothing placed |
| Placement.TurretPlacementSystem.SelectTurretType | Assets/Scripts/Systems/TurretPlacementSystem.cs:99-106 | a missing type changes nothing; otherwise it is selected and placement mode is on; placement mode never runs without a selection |
| Placement.TurretPlacementSystem.EnterPlacementMode | Assets/Scripts/Systems/TurretPlacementSystem.cs:108-112 | placement mode is on |
| Placement.TurretPlacementSystem.ExitPlacementMode | Assets/Scripts/Systems/TurretPlacementSystem.cs:114-126 | placement mode is off and nothing is selected |
| Placement.TurretPlacementSystem.CanPlaceTurretAt | Assets/Scripts/Systems/TurretPlacementSystem.cs:225-255 | allowed exactly when no placed turret, no base (when there is one) and no spawn point (when there is a wave manager) is strictly nearer than the minimum distance |
| Placement.TurretPlacementSystem.TryPlaceTurret | Assets/Scripts/Systems/TurretPlacementSystem.cs:200-223 | a refused position or too few coins changes nothing; otherwise the cost is paid, the turret stands active at the position, initialised with the selected type, and the position is recorded; the spacing of placed turrets is kept |
| Placement.TurretPlacementSystem.ClearAllTurrets | Assets/Scripts/Systems/TurretPlacementSystem.cs:259-269 | the placed list is empty and every scene turret is inactive; only the turret objects' `active` flags change, so their positions and rotations stay |
| Placement.TurretPlacementSystem.GetAvailableTurrets | Assets/Scripts/Systems/TurretPlacementSystem.cs:271 | a copy with the same entries in the same order |

## Left out

- Presentation: CreepView, GameUI, materials, gizmos, `Turret.UpdateRange` and the editor prefab creator. None of it affects the simulation state.
- `Turret.RotateTowardsTarget` and the `LookRotation` in `Projectile.MoveTowardsTarget`: only orientations change. The turret turns about the vertical axis, which carries its fire point along but keeps the point's offset for an upright turret. The fire point's rotation is copied to the projectile, but `Fire` always launches at a target, so that rotation never decides the aim.
- Physical motion: `Rigidbody.MovePosition` in `Projectile.MoveTowardsTarget` lands in the next physics step, after the distance test. The model therefore tests the current position and does not move the projectile. Creep motion in `MoveTick` is the position the physics step produces, given as a parameter. Speed and `deltaTime` are not modelled.
- Input: `HandleInput`, `HandlePlacementMode`, `CreatePreviewTurret`, `UpdatePreviewTurret`, `IsPointerOverUI`, the camera raycast and the keyboard. The position a click picks is the parameter of `TryPlaceTurret`.
- `Shuffle` is the caller's permutation, and `Random.Range` is a roll in its range. Their distributions are not modelled.
- `WaveManager.FindSpawnPoints`, the `FindObjectsOfType` searches and `GetComponent`: their results are parameters. A pooled instance whose component is missing is not modelled.
- `WaveManager.SpawnCreep`, `Turret.Fire` and `TryPlaceTurret`: a null that `SpawnFromPool` returns for an unregistered prefab is not modelled. These spawn sites do not dequeue from the model's `ObjectPooler`; the caller leases the component. In the game, such a null throws at `GetComponent`. In `SpawnCreep` that ends the spawn routine before the creep is counted, so the wave stays in progress. In `TryPlaceTurret` it comes after `TryPurchase`, so the cost is lost.
- Timing: coroutine frames and time are steps (`Resume`, `MoveTick`, `SlowTick`, `LifeTimeElapsed`, the two delay methods). Zero-time continuations of the spawn routine are separate `Resume` steps. Their frame timing is not kept, and the waits between spawns are not timed.
- `Turret.TargetingLoop`, `Turret.Start`, `Turret.Update`, `StartTargeting`, `OnDestroy` and `GameManager.Start`: the engine lifecycle is left to the caller, which invokes the modelled steps in that order.
- Events with UI-only subscribers: `OnWaveStarted`, `OnAllWavesCompleted`, `OnTurretPlaced`, `OnCoinsChanged`, `OnBaseHealthChanged`, `OnGameStateChanged`, and `GameWon`/`GameLost` logging. The wave completion and death callbacks, which change state, are modelled.
- `GameManager.HandleGameStateChanged` (the `Time.timeScale` switch) is never subscribed to any event, so it never runs and `timeScale` never changes. Only the UI's handler of the same name is subscribed.
- `activeCreeps.RemoveAll(creep => creep == null)` in `WaitForWaveCompletion`: it never removes anything, because no script destroys a creep (the only `Destroy` calls remove the placement preview and duplicate singletons), and in the model a listed creep is never null.
- Debug logging.
- Delegate multicasting: a creep's `OnDeath` holds at most one subscriber, the WaveManager that spawned it.
- Floating point: floats are exact reals, so rounding, NaN and infinity are not modelled. A fire rate of 0, whose interval is infinite in C#, is modelled as never ready.
- Combat.Spared: it covers only the `active` flag of a struck creep's object, not its position.
- Combat.Turret.InitializeTurret: the fire point offset assumes an unscaled turret. A fresh fire point is a child of the turret, but the model fixes its pose when it is made and does not move it with the turret afterwards.
- Match.WaveManager.StartNextWave: `StartCoroutine(SpawnWave(...))` runs the routine until its first wait within the call. That can spawn the first creeps when the first batch has no delay, or complete a wave that has nothing to spawn. The model leaves these steps, in the same order, to the caller's following `Resume` calls. Between the two calls the match state may change, which the game does not allow.
- Projectile self-disable: `Invoke(nameof(DisableGameObject), lifeTime)` is the `pendingDisable` counter. `LifeTimeElapsed` runs it whether or not the projectile was reused in between, as `Invoke` does.
- Combat.Projectile.HitTarget: it requires the victim's object to differ from the projectile's. A projectile that is its own victim cannot occur in the scene, and the model does not cover it.
