/** The match: the game state machine and coin balance (GameManager), the economy wrapper
    around it (EconomySystem), the base (BaseDefense), the wave scheduler (WaveManager) and
    the creeps it spawns (CreepController). The five classes call each other in a cycle, so
    they share one module. */
module Match {
  import opened Common
  import opened GameData
  import opened CreepHealth
  import opened Pooling

  datatype GameState = MainMenu | Playing | Paused | GameWon | GameLost

  // ---------------------------------------------------------------------------------
  // Coins

  /** The balance after SpendCoins(amount): lowered by `amount` when it covers it. */
  function AfterSpend(coins: int, amount: int): int
  {
    if coins >= amount then coins - amount else coins
  }

  datatype CoinOp = Spend(amount: int) | Add(amount: int)

  function AfterCoinOps(coins: int, ops: seq<CoinOp>): int
    decreases |ops|
  {
    if ops == [] then coins
    else
      var next := match ops[0]
        case Spend(a) => AfterSpend(coins, a)
        case Add(a) => coins + a;
      AfterCoinOps(next, ops[1..])
  }

  /** Spending can never take the balance below zero, whatever the amount; only adding a
      negative amount could. */
  lemma {:induction false} CoinsNeverNegative(coins: int, ops: seq<CoinOp>)
    requires coins >= 0
    requires forall k :: 0 <= k < |ops| && ops[k].Add? ==> ops[k].amount >= 0
    ensures AfterCoinOps(coins, ops) >= 0
    decreases |ops|
  {
    if ops != [] {
      var next := match ops[0]
        case Spend(a) => AfterSpend(coins, a)
        case Add(a) => coins + a;
      assert next >= 0;
      assert forall k :: 0 <= k < |ops[1..]| ==> ops[1..][k] == ops[k + 1];
      CoinsNeverNegative(next, ops[1..]);
    }
  }

  // ---------------------------------------------------------------------------------
  // The spawn routine of a wave (WaveManager.SpawnWave and WaitForWaveCompletion)

  /** Where the SpawnWave coroutine stands between two steps: not running; waiting out
      the delay before batch `batch`; about to check and spawn creep `index` of batch
      `batch`; or polling for the active creeps to drain. Only the delay, the wait after a
      spawn and the poll's wait are waits in the game; the model makes each step a Resume. */
  datatype Routine = Stopped | Delaying(batch: nat) | Spawning(batch: nat, index: nat) | Draining

  /** The routine's next step on reaching batch `b`: batches with no delay and no creeps
      are passed through, and after the last batch it polls. */
  function Enter(batches: seq<CreepSpawnInfo>, b: nat): Routine
    decreases |batches| - b
  {
    if b >= |batches| then Draining
    else if batches[b].delayBeforeSpawn > 0.0 then Delaying(b)
    else if batches[b].count <= 0 then Enter(batches, b + 1)
    else Spawning(b, 0)
  }

  predicate RoutineFits(batches: seq<CreepSpawnInfo>, r: Routine)
  {
    match r
    case Stopped => true
    case Delaying(b) => b < |batches|
    case Spawning(b, i) => b < |batches| && i < batches[b].count
    case Draining => true
  }

  /** The creeps batch `b` and the ones after it will spawn (a negative count spawns none). */
  function CreepsFrom(batches: seq<CreepSpawnInfo>, b: nat): nat
    decreases |batches| - b
  {
    if b >= |batches| then 0 else FloorAtZero(batches[b].count) + CreepsFrom(batches, b + 1)
  }

  /** The creeps the routine has yet to spawn from where it stands. */
  function Pending(batches: seq<CreepSpawnInfo>, r: Routine): int
  {
    match r
    case Stopped => 0
    case Delaying(b) => CreepsFrom(batches, b)
    case Spawning(b, i) => (if b < |batches| then batches[b].count - i else 0) + CreepsFrom(batches, b + 1)
    case Draining => 0
  }

  /** Entering batch `b` lands on a running step that still owes exactly the creeps of
      batch `b` onwards. */
  lemma {:induction false} EnterKeepsCount(batches: seq<CreepSpawnInfo>, b: nat)
    ensures Enter(batches, b) != Stopped
    ensures RoutineFits(batches, Enter(batches, b))
    ensures Pending(batches, Enter(batches, b)) == CreepsFrom(batches, b)
    decreases |batches| - b
  {
    if b < |batches| && batches[b].delayBeforeSpawn <= 0.0 && batches[b].count <= 0 {
      EnterKeepsCount(batches, b + 1);
    }
  }

  /** With no negative count, the creeps a wave spawns are its GetTotalCreepCount. */
  lemma {:induction false} CreepsFromIsTotal(batches: seq<CreepSpawnInfo>, b: nat)
    requires forall j :: 0 <= j < |batches| ==> batches[j].count >= 0
    requires b <= |batches|
    ensures CreepsFrom(batches, b) == SumCounts(batches[b..])
    decreases |batches| - b
  {
    if b == |batches| {
      assert batches[b..] == [];
    } else {
      CreepsFromIsTotal(batches, b + 1);
      assert batches[b..] == [batches[b]] + batches[b + 1..];
      SumCountsConcat([batches[b]], batches[b + 1..]);
      assert [batches[b]] == [] + [batches[b]];
      SumCountsAppend([], batches[b]);
    }
  }

  // ---------------------------------------------------------------------------------
  // The active-creep list

  /** List.Remove: drops the first occurrence of `x`, if there is one. */
  function RemoveFirst<T(==)>(s: seq<T>, x: T): seq<T>
    decreases |s|
  {
    if s == [] then [] else if s[0] == x then s[1..] else [s[0]] + RemoveFirst(s[1..], x)
  }

  /** Removing takes out exactly one copy of `x` when there is one and nothing otherwise,
      keeping the order of the rest. */
  lemma {:induction false} RemoveFirstTakesOneCopy<T>(s: seq<T>, x: T)
    ensures multiset(RemoveFirst(s, x)) == multiset(s) - multiset{x}
    ensures x in s ==> |RemoveFirst(s, x)| == |s| - 1
    ensures x !in s ==> RemoveFirst(s, x) == s
    decreases |s|
  {
    if s != [] {
      assert s == [s[0]] + s[1..];
      assert multiset(s) == multiset{s[0]} + multiset(s[1..]);
      if s[0] != x {
        var rest := RemoveFirst(s[1..], x);
        RemoveFirstTakesOneCopy(s[1..], x);
        assert RemoveFirst(s, x) == [s[0]] + rest;
        assert multiset(RemoveFirst(s, x)) == multiset{s[0]} + multiset(rest);
        assert x in s <==> x in s[1..];
      }
    }
  }

  // ---------------------------------------------------------------------------------
  // GameManager

  /** GameManager: coins, base health, completed-wave count and the match state. The two
      delayed wave starts it schedules (StartFirstWave, StartNextWaveAfterDelay) are
      counted as pending; the step methods FirstWaveDelayElapsed and NextWaveDelayElapsed
      stand for their delays running out. */
  class GameManager {
    const gameConfig: GameConfig
    const waveManager: WaveManager
    var currentCoins: int
    var baseHealth: int
    var currentWave: int
    var currentGameState: GameState
    var pendingFirstWave: nat
    var pendingNextWave: nat

    /** Awake: the systems are found in the scene; every counter starts at its default. */
    constructor (gameConfig: GameConfig, waveManager: WaveManager)
      ensures this.gameConfig == gameConfig && this.waveManager == waveManager
      ensures currentCoins == 0 && baseHealth == 0 && currentWave == 0
      ensures currentGameState == MainMenu && pendingFirstWave == 0 && pendingNextWave == 0
    {
      this.gameConfig := gameConfig;
      this.waveManager := waveManager;
      currentCoins, baseHealth, currentWave := 0, 0, 0;
      currentGameState := MainMenu;
      pendingFirstWave, pendingNextWave := 0, 0;
    }

    /** Resets the counters, enters Playing, resets the wave manager, loads the starting
        values and schedules the first wave. */
    method StartNewGame()
      requires waveManager.Valid()
      modifies this, waveManager, waveManager.ActiveSet()`onDeath
      ensures waveManager.Valid()
      ensures currentCoins == gameConfig.startingCoins && baseHealth == gameConfig.baseMaxHealth
      ensures currentWave == 0 && currentGameState == Playing
      ensures pendingFirstWave == old(pendingFirstWave) + 1 && pendingNextWave == old(pendingNextWave)
      ensures waveManager.IsReset()
      ensures forall c :: c in old(waveManager.ActiveSet()) ==>
        c.onDeath == if old(c.onDeath) == waveManager then null else old(c.onDeath)
    {
      ResetGameState();
      ChangeGameState(Playing);
      waveManager.ResetWaves();
      currentCoins := gameConfig.startingCoins;
      baseHealth := gameConfig.baseMaxHealth;
      currentWave := 0;
      pendingFirstWave := pendingFirstWave + 1;
    }

    /** StartFirstWave after its delay: starts the next wave without looking at the state. */
    method FirstWaveDelayElapsed()
      requires pendingFirstWave > 0 && waveManager.Valid()
      modifies this`pendingFirstWave, waveManager
      ensures pendingFirstWave == old(pendingFirstWave) - 1
      ensures waveManager.Valid()
      ensures waveManager.StartedNextWave()
    {
      pendingFirstWave := pendingFirstWave - 1;
      waveManager.StartNextWave();
    }

    /** RestartGame: deactivates every creep, turret and projectile object, then starts anew. */
    method RestartGame(sceneObjects: seq<GameObject>)
      requires waveManager.Valid()
      modifies this, waveManager, waveManager.ActiveSet()`onDeath, (set o | o in sceneObjects)`active
      ensures waveManager.Valid()
      ensures forall o :: o in sceneObjects ==> !o.active
      ensures currentCoins == gameConfig.startingCoins && baseHealth == gameConfig.baseMaxHealth
      ensures currentWave == 0 && currentGameState == Playing
      ensures pendingFirstWave == old(pendingFirstWave) + 1 && pendingNextWave == old(pendingNextWave)
      ensures waveManager.IsReset()
    {
      ClearGameObjects(sceneObjects);
      StartNewGame();
    }

    static method ClearGameObjects(sceneObjects: seq<GameObject>)
      modifies (set o | o in sceneObjects)`active
      ensures forall o :: o in sceneObjects ==> !o.active
    {
      var i := 0;
      while i < |sceneObjects|
        invariant 0 <= i <= |sceneObjects|
        invariant forall j :: 0 <= j < i ==> !sceneObjects[j].active
      {
        sceneObjects[i].SetActive(false);
        i := i + 1;
      }
    }

    method ResetGameState()
      modifies this`currentCoins, this`baseHealth, this`currentWave, this`currentGameState
      ensures currentCoins == 0 && baseHealth == 0 && currentWave == 0 && currentGameState == MainMenu
    {
      currentCoins, baseHealth, currentWave := 0, 0, 0;
      currentGameState := MainMenu;
    }

    /** Any state may follow any other: there is no transition guard. */
    method ChangeGameState(newState: GameState)
      modifies this`currentGameState
      ensures currentGameState == newState
    {
      currentGameState := newState;
    }

    method SpendCoins(amount: int) returns (spent: bool)
      modifies this`currentCoins
      ensures spent <==> old(currentCoins) >= amount
      ensures currentCoins == AfterSpend(old(currentCoins), amount)
      ensures spent ==> currentCoins == old(currentCoins) - amount
      ensures !spent ==> currentCoins == old(currentCoins)
    {
      spent := false;
      if currentCoins >= amount {
        currentCoins := currentCoins - amount;
        spent := true;
      }
    }

    method AddCoins(amount: int)
      modifies this`currentCoins
      ensures currentCoins == old(currentCoins) + amount
    {
      currentCoins := currentCoins + amount;
    }

    /** Base health falls by `damage`, floored at zero; at zero the match is lost, whatever
        state it was in. */
    method DamageBase(damage: int)
      modifies this`baseHealth, this`currentGameState
      ensures baseHealth == FloorAtZero(old(baseHealth) - damage)
      ensures currentGameState == if baseHealth <= 0 then GameLost else old(currentGameState)
    {
      baseHealth := FloorAtZero(baseHealth - damage);
      if baseHealth <= 0 {
        ChangeGameState(GameLost);
      }
    }

    /** What OnWaveCompleted leaves: one more wave counted; the match is won once every
        wave is done and otherwise the next wave's start is scheduled. */
    twostate predicate CountedWave()
      reads this
    {
      && currentWave == old(currentWave) + 1
      && (currentWave >= |waveManager.waves| ==>
            currentGameState == GameWon && pendingNextWave == old(pendingNextWave))
      && (currentWave < |waveManager.waves| ==>
            currentGameState == old(currentGameState) && pendingNextWave == old(pendingNextWave) + 1)
      && currentCoins == old(currentCoins) && baseHealth == old(baseHealth)
      && pendingFirstWave == old(pendingFirstWave)
    }

    /** One more wave done: the match is won once every wave is done, otherwise the next
        wave is scheduled. */
    method OnWaveCompleted()
      modifies this`currentWave, this`currentGameState, this`pendingNextWave
      ensures CountedWave()
    {
      currentWave := currentWave + 1;
      if currentWave >= |waveManager.waves| {
        ChangeGameState(GameWon);
      } else {
        pendingNextWave := pendingNextWave + 1;
      }
    }

    /** StartNextWaveAfterDelay after its delay: starts the next wave only while Playing. */
    method NextWaveDelayElapsed()
      requires pendingNextWave > 0 && waveManager.Valid()
      modifies this`pendingNextWave, waveManager
      ensures pendingNextWave == old(pendingNextWave) - 1
      ensures waveManager.Valid()
      ensures currentGameState == Playing ==>
        waveManager.StartedNextWave()
      ensures currentGameState != Playing ==> unchanged(waveManager)
    {
      pendingNextWave := pendingNextWave - 1;
      if currentGameState == Playing {
        waveManager.StartNextWave();
      }
    }
  }

  // ---------------------------------------------------------------------------------
  // EconomySystem

  /** EconomySystem: the purchase and reward front of the GameManager's coin balance. */
  class EconomySystem {
    const gameManager: GameManager

    constructor (gameManager: GameManager)
      ensures this.gameManager == gameManager
    {
      this.gameManager := gameManager;
    }

    function CanAfford(cost: int): (affordable: bool)
      reads gameManager
      ensures affordable <==> gameManager.currentCoins >= cost
    {
      gameManager.currentCoins >= cost
    }

    /** Spends `cost` when the balance covers it; otherwise nothing changes. */
    method TryPurchase(cost: int) returns (purchased: bool)
      modifies gameManager`currentCoins
      ensures purchased <==> old(CanAfford(cost))
      ensures purchased ==> gameManager.currentCoins == old(gameManager.currentCoins) - cost
      ensures !purchased ==> gameManager.currentCoins == old(gameManager.currentCoins)
    {
      purchased := false;
      if CanAfford(cost) {
        purchased := gameManager.SpendCoins(cost);
      }
    }

    method RewardCoins(amount: int)
      modifies gameManager`currentCoins
      ensures gameManager.currentCoins == old(gameManager.currentCoins) + amount
    {
      gameManager.AddCoins(amount);
    }

    function GetCurrentCoins(): (coins: int)
      reads gameManager
      ensures coins == gameManager.currentCoins
    {
      gameManager.currentCoins
    }
  }

  // ---------------------------------------------------------------------------------
  // BaseDefense

  /** BaseDefense: the base's own health counter, kept beside the GameManager's, and the
      arrival test for creeps. `position` is where the BaseDefense object stands and
      `baseTransform` the tagged base object, which may be missing. */
  class BaseDefense {
    const position: Vec3
    const baseTransform: Option<Vec3>
    const baseRadius: real
    const gameManager: GameManager?
    var maxHealth: int
    var currentHealth: int

    /** Start: InitializeBase reads the configured maximum when a GameManager exists. */
    constructor (position: Vec3, baseTransform: Option<Vec3>, baseRadius: real, gameManager: GameManager?)
      ensures this.position == position && this.baseTransform == baseTransform
      ensures this.baseRadius == baseRadius && this.gameManager == gameManager
      ensures gameManager != null ==>
        maxHealth == gameManager.gameConfig.baseMaxHealth && currentHealth == maxHealth
      ensures gameManager == null ==> maxHealth == 0 && currentHealth == 0
    {
      this.position := position;
      this.baseTransform := baseTransform;
      this.baseRadius := baseRadius;
      this.gameManager := gameManager;
      maxHealth, currentHealth := 0, 0;
      new;
      InitializeBase();
    }

    function Managers(): set<GameManager>
    {
      if gameManager != null then {gameManager} else {}
    }

    method InitializeBase()
      modifies this`maxHealth, this`currentHealth
      ensures gameManager != null ==>
        maxHealth == gameManager.gameConfig.baseMaxHealth && currentHealth == maxHealth
      ensures gameManager == null ==> maxHealth == old(maxHealth) && currentHealth == old(currentHealth)
    {
      if gameManager != null {
        maxHealth := gameManager.gameConfig.baseMaxHealth;
        currentHealth := maxHealth;
      }
    }

    /** The fraction of health left, 0 when the maximum is not positive. */
    function HealthPercentage(): (fraction: real)
      reads this
      ensures maxHealth <= 0 ==> fraction == 0.0
      ensures maxHealth > 0 ==> fraction * maxHealth as real == currentHealth as real
      ensures 0 <= currentHealth <= maxHealth ==> 0.0 <= fraction <= 1.0
    {
      if maxHealth > 0 then currentHealth as real / maxHealth as real else 0.0
    }

    /** The GameManager's base health and state, 0 and MainMenu when there is none. */
    function ManagerHealth(): int
      reads Managers()
    {
      if gameManager != null then gameManager.baseHealth else 0
    }

    function ManagerState(): GameState
      reads Managers()
    {
      if gameManager != null then gameManager.currentGameState else MainMenu
    }

    /** What TakeDamage leaves, against the health and state recorded before it: the
        base's own health lowered by `damage` (floored at zero), and the same damage passed
        on to the GameManager, which may end the match. */
    predicate DamagedFrom(health: int, managerHealth: int, managerState: GameState, damage: int)
      reads this, Managers()
    {
      && currentHealth == FloorAtZero(health - damage)
      && (gameManager != null ==>
            && gameManager.baseHealth == FloorAtZero(managerHealth - damage)
            && gameManager.currentGameState ==
                 if gameManager.baseHealth <= 0 then GameLost else managerState)
    }

    twostate predicate Damaged(damage: int)
      reads this, Managers()
    {
      DamagedFrom(old(currentHealth), old(ManagerHealth()), old(ManagerState()), damage)
    }

    method TakeDamage(damage: int)
      modifies this`currentHealth, Managers()`baseHealth, Managers()`currentGameState
      ensures Damaged(damage)
    {
      currentHealth := FloorAtZero(currentHealth - damage);
      if gameManager != null {
        gameManager.DamageBase(damage);
      }
    }

    /** A creep has arrived when it is within `baseRadius` of the base, bound included;
        never when the base object is missing. */
    function IsCreepAtBase(creepPosition: Vec3, dist: Metric): (atBase: bool)
      ensures atBase <==> baseTransform.Some? && dist(creepPosition, baseTransform.value) <= baseRadius
    {
      match baseTransform
      case None => false
      case Some(p) => dist(creepPosition, p) <= baseRadius
    }

    function GetBasePosition(): (p: Vec3)
      ensures baseTransform.None? ==> p == Origin
      ensures baseTransform.Some? ==> p == baseTransform.value
    {
      match baseTransform
      case None => Origin
      case Some(q) => q
    }

    method ResetHealth()
      modifies this`currentHealth
      ensures currentHealth == maxHealth
    {
      currentHealth := maxHealth;
    }
  }

  // ---------------------------------------------------------------------------------
  // WaveManager

  /** One resumption of the spawn routine, given whether the match is Playing and whether
      creeps are still active. An abort (not Playing before a spawn) and a finished drain
      both stop it. */
  function Step(batches: seq<CreepSpawnInfo>, r: Routine, playing: bool, creepsLeft: bool): Routine
  {
    match r
    case Stopped => Stopped
    case Delaying(b) =>
      if b < |batches| && batches[b].count > 0 then Spawning(b, 0) else Enter(batches, b + 1)
    case Spawning(b, i) =>
      if !playing then Stopped
      else if b < |batches| && i + 1 < batches[b].count then Spawning(b, i + 1)
      else Enter(batches, b + 1)
    case Draining => if creepsLeft && playing then Draining else Stopped
  }

  /** Each resumption keeps the routine well formed; a delay spawns nothing, a spawn step
      while Playing owes exactly one creep fewer, and a drain ends only when no creep is
      left or the match is not Playing. */
  lemma StepAccounting(batches: seq<CreepSpawnInfo>, r: Routine, playing: bool, creepsLeft: bool)
    requires RoutineFits(batches, r)
    ensures RoutineFits(batches, Step(batches, r, playing, creepsLeft))
    ensures r.Delaying? ==>
      && Step(batches, r, playing, creepsLeft) != Stopped
      && Pending(batches, Step(batches, r, playing, creepsLeft)) == Pending(batches, r)
    ensures r.Spawning? && playing ==>
      && Step(batches, r, playing, creepsLeft) != Stopped
      && Pending(batches, Step(batches, r, playing, creepsLeft)) == Pending(batches, r) - 1
    ensures r.Draining? && Step(batches, r, playing, creepsLeft) == Stopped ==> !creepsLeft || !playing
  {
    match r
    case Stopped =>
    case Delaying(b) =>
      if batches[b].count <= 0 {
        EnterKeepsCount(batches, b + 1);
      }
    case Spawning(b, i) =>
      if playing && i + 1 >= batches[b].count {
        EnterKeepsCount(batches, b + 1);
      }
    case Draining =>
  }

  /** WaveManager: the wave list, the spawn routine's position, the creeps it has spawned
      and not yet seen die, and the rotating spawn point. `spawningWave` is the wave the
      running SpawnWave coroutine was started with. */
  class WaveManager {
    const waves: seq<WaveData>
    const spawnPoints: seq<Vec3>
    var gameManager: GameManager?
    var currentWaveIndex: int
    var waveInProgress: bool
    var activeCreeps: seq<CreepController>
    var creepsSpawnedInCurrentWave: int
    var totalCreepsInCurrentWave: int
    var shuffledSpawnPoints: seq<Vec3>
    var currentSpawnIndex: int
    var routine: Routine
    var spawningWave: WaveData

    ghost function ActiveSet(): set<CreepController>
      reads this
    {
      set c | c in activeCreeps
    }

    /** The shuffled list is a permutation of the spawn points and the index stays inside
        it; while the routine runs it belongs to the current wave and every creep of that
        wave has been spawned or is still owed. */
    ghost predicate Valid()
      reads this
    {
      && 0 <= currentWaveIndex <= |waves|
      && 0 <= currentSpawnIndex <= |shuffledSpawnPoints|
      && multiset(shuffledSpawnPoints) == multiset(spawnPoints)
      && 0 <= creepsSpawnedInCurrentWave
      && RoutineFits(spawningWave.creepsToSpawn, routine)
      && (routine != Stopped ==>
            && waveInProgress
            && currentWaveIndex < |waves|
            && spawningWave == waves[currentWaveIndex]
            && creepsSpawnedInCurrentWave + Pending(spawningWave.creepsToSpawn, routine)
               == CreepsFrom(spawningWave.creepsToSpawn, 0))
      && (waveInProgress ==>
            && totalCreepsInCurrentWave == SumCounts(spawningWave.creepsToSpawn)
            && creepsSpawnedInCurrentWave <= CreepsFrom(spawningWave.creepsToSpawn, 0))
    }

    /** The field initialisers; the spawn points come from the scene search of Start. */
    constructor (waves: seq<WaveData>, spawnPoints: seq<Vec3>)
      ensures Valid()
      ensures this.waves == waves && this.spawnPoints == spawnPoints && gameManager == null
      ensures currentWaveIndex == 0 && !waveInProgress && activeCreeps == []
      ensures creepsSpawnedInCurrentWave == 0 && totalCreepsInCurrentWave == 0
      ensures shuffledSpawnPoints == spawnPoints && currentSpawnIndex == 0 && routine == Stopped
    {
      this.waves := waves;
      this.spawnPoints := spawnPoints;
      gameManager := null;
      currentWaveIndex := 0;
      waveInProgress := false;
      activeCreeps := [];
      creepsSpawnedInCurrentWave, totalCreepsInCurrentWave := 0, 0;
      shuffledSpawnPoints := spawnPoints;
      currentSpawnIndex := 0;
      routine := Stopped;
      spawningWave := WaveData(0, 1.0, []);
    }

    /** Start: links the GameManager and shuffles a copy of the spawn points (the shuffle
        is the caller's permutation `shuffled`). */
    method Start(gameManager: GameManager, shuffled: seq<Vec3>)
      requires Valid() && multiset(shuffled) == multiset(spawnPoints)
      modifies this`gameManager, this`shuffledSpawnPoints
      ensures Valid() && this.gameManager == gameManager && shuffledSpawnPoints == shuffled
    {
      this.gameManager := gameManager;
      assert |shuffled| == |multiset(spawnPoints)| == |old(shuffledSpawnPoints)|;
      shuffledSpawnPoints := shuffled;
    }

    function Managers(): set<GameManager>
      reads this
    {
      if gameManager != null then {gameManager} else {}
    }

    /** What ResetWaves leaves: no routine, no active creep, back at the first wave with
        nothing counted; the spawn rotation, the linked GameManager and the last started
        wave are kept. */
    twostate predicate IsReset()
      reads this
    {
      && routine == Stopped && activeCreeps == [] && currentWaveIndex == 0 && !waveInProgress
      && creepsSpawnedInCurrentWave == 0 && totalCreepsInCurrentWave == 0
      && currentSpawnIndex == old(currentSpawnIndex) && shuffledSpawnPoints == old(shuffledSpawnPoints)
      && gameManager == old(gameManager) && spawningWave == old(spawningWave)
    }

    /** What StartNextWave leaves: nothing when a wave is already running or none is left;
        otherwise the current wave is in progress with its counters reset, its total counted,
        and its routine at the step SpawnWave takes next (a delay, a spawn, or the poll). */
    twostate predicate StartedNextWave()
      reads this
    {
      && currentWaveIndex == old(currentWaveIndex) && activeCreeps == old(activeCreeps)
      && currentSpawnIndex == old(currentSpawnIndex) && shuffledSpawnPoints == old(shuffledSpawnPoints)
      && gameManager == old(gameManager)
      && if old(waveInProgress) || currentWaveIndex >= |waves| then
           && waveInProgress == old(waveInProgress)
           && creepsSpawnedInCurrentWave == old(creepsSpawnedInCurrentWave)
           && totalCreepsInCurrentWave == old(totalCreepsInCurrentWave)
           && routine == old(routine) && spawningWave == old(spawningWave)
         else
           && waveInProgress && creepsSpawnedInCurrentWave == 0
           && 0 <= currentWaveIndex && spawningWave == waves[currentWaveIndex]
           && totalCreepsInCurrentWave == SumCounts(spawningWave.creepsToSpawn)
           && routine == Enter(spawningWave.creepsToSpawn, 0)
    }

    /** StartNextWave together with the prologue of SpawnWave (the flag, the counters, the
        total). The steps StartCoroutine also runs before the routine's first wait (a spawn
        when the first batch has no delay, the completion of a wave with nothing to spawn)
        are the caller's following Resume calls. */
    method StartNextWave()
      requires Valid()
      modifies this
      ensures Valid() && StartedNextWave()
    {
      if waveInProgress || currentWaveIndex >= |waves| {
        return;
      }
      var wave := waves[currentWaveIndex];
      waveInProgress := true;
      creepsSpawnedInCurrentWave := 0;
      totalCreepsInCurrentWave := GetTotalCreepCount(wave);
      spawningWave := wave;
      EnterKeepsCount(wave.creepsToSpawn, 0);
      routine := Enter(wave.creepsToSpawn, 0);
    }

    /** What SpawnCreep reads before it starts: the spawn point rotation, the list of
        active creeps, what an arrival of `leased` can change, and the subscriber `leased`
        already had with that subscriber's list. */
    function SpawnState(leased: CreepController): SpawnSnapshot
      reads this`currentSpawnIndex, this`shuffledSpawnPoints, this`activeCreeps, leased`onDeath
      reads leased.Listeners()`activeCreeps, leased`reachedBase, leased`slowActive
      reads leased.baseDefense, leased.baseDefense.Managers(), leased.Payers()
    {
      SpawnSnapshot(currentSpawnIndex, shuffledSpawnPoints, activeCreeps, leased.StartState(), leased.onDeath,
                    if leased.onDeath != null then leased.onDeath.activeCreeps else [])
    }

    /** SpawnCreep with at least one spawn point, against the state `before` recorded on
        entry: it takes the next shuffled point (reshuffling and starting over once the list
        is used up), places `leased` there unrotated and initialises it, which already runs
        its first arrival test, and only then subscribes to its death and lists it as
        active. A creep that arrives inside Initialize has fired its death before this
        manager subscribed, so it stays listed; that death reached the subscriber it had
        before, if any. */
    ghost predicate SpawnedFrom(before: SpawnSnapshot, data: CreepData, leased: CreepController,
                                reshuffled: seq<Vec3>, dist: Metric, roll: int)
      requires IsRoll(data, roll)
      reads this`activeCreeps, this`shuffledSpawnPoints, this`currentSpawnIndex
      reads leased`model, leased`targetPosition, leased`reachedBase, leased`moving, leased`slowActive
      reads leased`onDeath, leased.gameObject, leased.model, leased.baseDefense, leased.baseDefense.Managers()
      reads leased.Payers(), before.listener
    {
      var wrapped := before.index >= |before.shuffled|;
      var arrives := leased.ArrivesAtOnce(data, before.creep.reached, leased.gameObject.position, dist);
      && shuffledSpawnPoints == (if wrapped then reshuffled else before.shuffled)
      && currentSpawnIndex == (if wrapped then 1 else before.index + 1)
      && 0 < currentSpawnIndex <= |shuffledSpawnPoints|
      && leased.gameObject.position == shuffledSpawnPoints[currentSpawnIndex - 1]
      && leased.gameObject.rotation == Identity
      && leased.StartedFrom(before.creep, data, dist, roll)
      && leased.onDeath == this
      && activeCreeps == (if arrives && before.listener == this then RemoveFirst(before.queue, leased)
                          else before.queue) + [leased]
      && (before.listener != null && before.listener != this ==>
            before.listener.activeCreeps ==
            if arrives then RemoveFirst(before.listenerQueue, leased) else before.listenerQueue)
    }

    /** What SpawnCreep does: nothing without spawn points, SpawnedFrom the state before
        otherwise, with a model of its own; `listener` is the subscriber `leased` had. */
    twostate predicate SpawnedCreep(data: CreepData, leased: CreepController, reshuffled: seq<Vec3>,
                                    dist: Metric, roll: int, listener: WaveManager?)
      requires IsRoll(data, roll) && listener == old(leased.onDeath)
      reads this`activeCreeps, this`shuffledSpawnPoints, this`currentSpawnIndex
      reads leased, leased.gameObject, leased.model, leased.baseDefense, leased.baseDefense.Managers()
      reads leased.Payers(), listener
    {
      if |spawnPoints| == 0 then
        && activeCreeps == old(activeCreeps) && shuffledSpawnPoints == old(shuffledSpawnPoints)
        && currentSpawnIndex == old(currentSpawnIndex) && unchanged(leased, leased.gameObject)
        && unchanged(leased.baseDefense) && unchanged(leased.baseDefense.Managers(), leased.Payers())
        && (listener != null ==> listener.activeCreeps == old(listener.activeCreeps))
      else
        SpawnedFrom(old(SpawnState(leased)), data, leased, reshuffled, dist, roll) && fresh(leased.model)
    }

    /** SpawnCreep; the pooled object and its CreepController are `leased`, `reshuffled`
        is the order Shuffle would pick, and `roll` the reward drawn if the creep arrives
        at once. */
    method SpawnCreep(data: CreepData, leased: CreepController, reshuffled: seq<Vec3>, dist: Metric, roll: int)
      requires Valid() && multiset(reshuffled) == multiset(shuffledSpawnPoints)
      requires IsRoll(data, roll)
      modifies this`activeCreeps, this`shuffledSpawnPoints, this`currentSpawnIndex
      modifies leased`model, leased`targetPosition, leased`reachedBase, leased`moving, leased`slowActive
      modifies leased`onDeath, leased.gameObject
      modifies leased.baseDefense`currentHealth, leased.baseDefense.Managers()`baseHealth
      modifies leased.baseDefense.Managers()`currentGameState, leased.Payers()`currentCoins
      modifies leased.Listeners()`activeCreeps
      ensures Valid()
      ensures SpawnedCreep(data, leased, reshuffled, dist, roll, old(leased.onDeath))
    {
      if |spawnPoints| == 0 {
        return;
      }
      ghost var before := SpawnState(leased);
      PlaceNext(leased.gameObject, reshuffled);
      assert SpawnState(leased).creep == before.creep;
      StartAndEnlist(data, leased, dist, roll);
      assert SpawnedFrom(before, data, leased, reshuffled, dist, roll);
    }

    /** The rest of SpawnCreep once the object is placed: the creep initialised (which may
        see it arrive at once), then subscribed to and listed. */
    method StartAndEnlist(data: CreepData, leased: CreepController, dist: Metric, roll: int)
      requires Valid() && IsRoll(data, roll)
      modifies this`activeCreeps
      modifies leased`model, leased`targetPosition, leased`reachedBase, leased`moving, leased`slowActive
      modifies leased`onDeath, leased.gameObject`active, leased.gameObject`position
      modifies leased.baseDefense`currentHealth, leased.baseDefense.Managers()`baseHealth
      modifies leased.baseDefense.Managers()`currentGameState, leased.Payers()`currentCoins
      modifies leased.Listeners()`activeCreeps
      ensures Valid()
      ensures leased.StartedFrom(old(leased.StartState()), data, dist, roll) && fresh(leased.model)
      ensures leased.gameObject.position == old(leased.gameObject.position) && leased.onDeath == this
      ensures var arrives := leased.ArrivesAtOnce(data, old(leased.reachedBase), leased.gameObject.position, dist);
        && activeCreeps == (if arrives && old(leased.onDeath) == this then RemoveFirst(old(activeCreeps), leased)
                            else old(activeCreeps)) + [leased]
        && (old(leased.onDeath) != null && old(leased.onDeath) != this ==>
              old(leased.onDeath).activeCreeps ==
              if arrives then RemoveFirst(old(leased.onDeath.activeCreeps), leased)
              else old(leased.onDeath.activeCreeps))
    {
      leased.Initialize(data, dist, roll);
      Enlist(leased);
    }

    /** The spawn point step of SpawnCreep: the next point of the shuffled list, which is
        replaced by `reshuffled` once used up, with the object activated there unrotated. */
    method PlaceNext(go: GameObject, reshuffled: seq<Vec3>)
      requires Valid() && |spawnPoints| > 0 && multiset(reshuffled) == multiset(shuffledSpawnPoints)
      modifies this`shuffledSpawnPoints, this`currentSpawnIndex, go
      ensures Valid()
      ensures var wrapped := old(currentSpawnIndex) >= |old(shuffledSpawnPoints)|;
        && shuffledSpawnPoints == (if wrapped then reshuffled else old(shuffledSpawnPoints))
        && currentSpawnIndex == (if wrapped then 1 else old(currentSpawnIndex) + 1)
      ensures 0 < currentSpawnIndex <= |shuffledSpawnPoints|
      ensures go.position == shuffledSpawnPoints[currentSpawnIndex - 1] && go.rotation == Identity && go.active
    {
      if currentSpawnIndex >= |shuffledSpawnPoints| {
        shuffledSpawnPoints := reshuffled;
        currentSpawnIndex := 0;
      }
      assert |shuffledSpawnPoints| == |multiset(spawnPoints)| == |spawnPoints|;
      var point := shuffledSpawnPoints[currentSpawnIndex];
      currentSpawnIndex := currentSpawnIndex + 1;
      go.SetActive(true);
      go.position, go.rotation := point, Identity;
    }

    /** The subscription and listing that end SpawnCreep. */
    method Enlist(creep: CreepController)
      requires Valid()
      modifies this`activeCreeps, creep`onDeath
      ensures Valid()
      ensures creep.onDeath == this && activeCreeps == old(activeCreeps) + [creep]
    {
      creep.onDeath := this;
      activeCreeps := activeCreeps + [creep];
    }

    /** One resumption of the SpawnWave / WaitForWaveCompletion coroutine. While Playing,
        a spawn step runs SpawnCreep once (placing a creep only when there are spawn
        points) and counts one creep either way; a spawn step outside Playing abandons the routine
        and leaves the wave marked in progress; the poll completes the wave as soon as
        no creep is active or the match is not Playing. */
    method Resume(leased: CreepController, reshuffled: seq<Vec3>, dist: Metric, roll: int)
      requires Valid() && gameManager != null
      requires multiset(reshuffled) == multiset(shuffledSpawnPoints)
      requires routine.Spawning? && routine.batch < |spawningWave.creepsToSpawn| ==>
        IsRoll(spawningWave.creepsToSpawn[routine.batch].creepData, roll)
      modifies this, leased`model, leased`targetPosition, leased`reachedBase, leased`moving, leased`slowActive
      modifies leased`onDeath, leased.gameObject
      modifies leased.baseDefense`currentHealth, leased.baseDefense.Managers()`baseHealth
      modifies leased.baseDefense.Managers()`currentGameState, leased.Payers()`currentCoins
      modifies leased.Listeners()`activeCreeps
      modifies Managers()`currentWave, Managers()`currentGameState, Managers()`pendingNextWave
      ensures Valid()
      ensures gameManager == old(gameManager) && spawningWave == old(spawningWave)
      ensures totalCreepsInCurrentWave == old(totalCreepsInCurrentWave)
      ensures routine == Step(spawningWave.creepsToSpawn, old(routine),
        old(gameManager.currentGameState) == Playing, |old(activeCreeps)| > 0)
      ensures old(routine).Spawning? && old(gameManager.currentGameState) == Playing ==>
        && creepsSpawnedInCurrentWave == old(creepsSpawnedInCurrentWave) + 1
        && SpawnedCreep(spawningWave.creepsToSpawn[old(routine).batch].creepData, leased, reshuffled,
                        dist, roll, old(leased.onDeath))
      ensures !(old(routine).Spawning? && old(gameManager.currentGameState) == Playing) ==>
        && creepsSpawnedInCurrentWave == old(creepsSpawnedInCurrentWave)
        && activeCreeps == old(activeCreeps) && shuffledSpawnPoints == old(shuffledSpawnPoints)
        && currentSpawnIndex == old(currentSpawnIndex) && unchanged(leased, leased.gameObject)
        && unchanged(leased.baseDefense) && unchanged(old(leased.Listeners())`activeCreeps)
        && unchanged(leased.baseDefense.Managers()`baseHealth, leased.Payers()`currentCoins)
        && (!(old(routine).Draining? && routine == Stopped) ==> unchanged(gameManager))
      ensures old(routine).Draining? && routine == Stopped ==>
        && !waveInProgress && currentWaveIndex == old(currentWaveIndex) + 1
        && gameManager.CountedWave()
      ensures !(old(routine).Draining? && routine == Stopped) ==>
        && waveInProgress == old(waveInProgress) && currentWaveIndex == old(currentWaveIndex)
        && gameManager.currentWave == old(gameManager.currentWave)
        && gameManager.pendingNextWave == old(gameManager.pendingNextWave)
        && gameManager.pendingFirstWave == old(gameManager.pendingFirstWave)
    {
      if routine.Spawning? && gameManager.currentGameState == Playing {
        SpawnStep(leased, reshuffled, dist, roll);
      } else {
        QuietStep();
      }
    }

    /** A resumption that spawns nothing: a delay ends, a spawn step outside Playing
        abandons the routine, or the poll completes the wave once no creep is active or
        the match is not Playing. */
    method QuietStep()
      requires Valid() && gameManager != null
      requires !(routine.Spawning? && gameManager.currentGameState == Playing)
      modifies this`routine, this`waveInProgress, this`currentWaveIndex
      modifies Managers()`currentWave, Managers()`currentGameState, Managers()`pendingNextWave
      ensures Valid()
      ensures gameManager == old(gameManager) && spawningWave == old(spawningWave)
      ensures totalCreepsInCurrentWave == old(totalCreepsInCurrentWave)
      ensures creepsSpawnedInCurrentWave == old(creepsSpawnedInCurrentWave)
      ensures activeCreeps == old(activeCreeps) && shuffledSpawnPoints == old(shuffledSpawnPoints)
      ensures currentSpawnIndex == old(currentSpawnIndex)
      ensures routine == Step(spawningWave.creepsToSpawn, old(routine),
        old(gameManager.currentGameState) == Playing, |activeCreeps| > 0)
      ensures old(routine).Draining? && routine == Stopped ==>
        && !waveInProgress && currentWaveIndex == old(currentWaveIndex) + 1
        && gameManager.CountedWave()
      ensures !(old(routine).Draining? && routine == Stopped) ==>
        && waveInProgress == old(waveInProgress) && currentWaveIndex == old(currentWaveIndex)
        && unchanged(gameManager)
    {
      var batches := spawningWave.creepsToSpawn;
      var playing := gameManager.currentGameState == Playing;
      var creepsLeft := |activeCreeps| > 0;
      StepAccounting(batches, routine, playing, creepsLeft);
      var next := Step(batches, routine, playing, creepsLeft);
      match routine
      case Stopped =>
      case Delaying(b) =>
        routine := next;
      case Spawning(b, i) =>
        routine := next;
      case Draining =>
        if next == Stopped {
          var _ := CompleteCurrentWave();
        }
        routine := next;
    }

    /** A spawn step while Playing: SpawnCreep runs once for the routine's batch, placing a
        creep only when there are spawn points; one creep is counted either way and the
        routine moves on. */
    method SpawnStep(leased: CreepController, reshuffled: seq<Vec3>, dist: Metric, roll: int)
      requires Valid() && gameManager != null && gameManager.currentGameState == Playing
      requires multiset(reshuffled) == multiset(shuffledSpawnPoints)
      requires routine.Spawning? && routine.batch < |spawningWave.creepsToSpawn|
      requires IsRoll(spawningWave.creepsToSpawn[routine.batch].creepData, roll)
      modifies this`activeCreeps, this`shuffledSpawnPoints, this`currentSpawnIndex
      modifies this`creepsSpawnedInCurrentWave, this`routine
      modifies leased`model, leased`targetPosition, leased`reachedBase, leased`moving, leased`slowActive
      modifies leased`onDeath, leased.gameObject
      modifies leased.baseDefense`currentHealth, leased.baseDefense.Managers()`baseHealth
      modifies leased.baseDefense.Managers()`currentGameState, leased.Payers()`currentCoins
      modifies leased.Listeners()`activeCreeps
      ensures Valid()
      ensures gameManager == old(gameManager) && spawningWave == old(spawningWave)
      ensures totalCreepsInCurrentWave == old(totalCreepsInCurrentWave)
      ensures waveInProgress == old(waveInProgress) && currentWaveIndex == old(currentWaveIndex)
      ensures routine == Step(spawningWave.creepsToSpawn, old(routine), true, |old(activeCreeps)| > 0)
      ensures creepsSpawnedInCurrentWave == old(creepsSpawnedInCurrentWave) + 1
      ensures SpawnedCreep(spawningWave.creepsToSpawn[old(routine).batch].creepData, leased, reshuffled,
                           dist, roll, old(leased.onDeath))
    {
      var creepsLeft := |activeCreeps| > 0;
      SpawnCreep(spawningWave.creepsToSpawn[routine.batch].creepData, leased, reshuffled, dist, roll);
      CountSpawn(creepsLeft);
    }

    /** The counting half of a spawn step: one more creep of the wave spawned, and the
        routine moved on. */
    method CountSpawn(creepsLeft: bool)
      requires Valid() && routine.Spawning?
      modifies this`creepsSpawnedInCurrentWave, this`routine
      ensures Valid()
      ensures routine == Step(spawningWave.creepsToSpawn, old(routine), true, creepsLeft)
      ensures creepsSpawnedInCurrentWave == old(creepsSpawnedInCurrentWave) + 1
    {
      StepAccounting(spawningWave.creepsToSpawn, routine, true, creepsLeft);
      creepsSpawnedInCurrentWave := creepsSpawnedInCurrentWave + 1;
      routine := Step(spawningWave.creepsToSpawn, routine, true, creepsLeft);
    }

    /** Ends the current wave, moves to the next and tells the GameManager, which either
        declares the match won or schedules the next wave. */
    method CompleteCurrentWave() returns (allComplete: bool)
      modifies this`waveInProgress, this`currentWaveIndex
      modifies Managers()`currentWave, Managers()`currentGameState, Managers()`pendingNextWave
      ensures !waveInProgress && currentWaveIndex == old(currentWaveIndex) + 1
      ensures allComplete <==> currentWaveIndex >= |waves|
      ensures gameManager != null ==> gameManager.CountedWave()
    {
      waveInProgress := false;
      currentWaveIndex := currentWaveIndex + 1;
      allComplete := currentWaveIndex >= |waves|;
      if gameManager != null {
        gameManager.OnWaveCompleted();
      }
    }

    /** The death callback: forgets the first listing of `creep` and unsubscribes. */
    method OnCreepDeath(creep: CreepController)
      modifies this`activeCreeps, creep`onDeath
      ensures activeCreeps == RemoveFirst(old(activeCreeps), creep)
      ensures creep.onDeath == if old(creep.onDeath) == this then null else old(creep.onDeath)
      ensures old(Valid()) ==> Valid()
    {
      activeCreeps := RemoveFirst(activeCreeps, creep);
      if creep.onDeath == this {
        creep.onDeath := null;
      }
    }

    /** Unsubscribes this manager from every listed creep's death. */
    method Unsubscribe(creeps: seq<CreepController>)
      modifies (set c | c in creeps)`onDeath
      ensures forall c :: c in creeps ==> c.onDeath == if old(c.onDeath) == this then null else old(c.onDeath)
    {
      var i := 0;
      while i < |creeps|
        invariant 0 <= i <= |creeps|
        invariant forall c :: c in creeps ==>
          c.onDeath == if old(c.onDeath) == this && c in creeps[..i] then null else old(c.onDeath)
      {
        if creeps[i].onDeath == this {
          creeps[i].onDeath := null;
        }
        assert creeps[..i + 1] == creeps[..i] + [creeps[i]];
        i := i + 1;
      }
      assert creeps[..i] == creeps;
    }

    /** ResetWaves: stops the routine, unsubscribes from and forgets every active creep
        and goes back to the first wave. */
    method ResetWaves()
      modifies this, ActiveSet()`onDeath
      ensures IsReset()
      ensures forall c :: c in old(ActiveSet()) ==>
        c.onDeath == if old(c.onDeath) == this then null else old(c.onDeath)
      ensures old(Valid()) ==> Valid()
    {
      routine := Stopped;
      Unsubscribe(activeCreeps);
      activeCreeps := [];
      currentWaveIndex := 0;
      waveInProgress := false;
      creepsSpawnedInCurrentWave := 0;
      totalCreepsInCurrentWave := 0;
    }

    function GetCurrentWave(): (w: Option<WaveData>)
      requires 0 <= currentWaveIndex
      reads this
      ensures w.Some? <==> currentWaveIndex < |waves|
      ensures w.Some? ==> w.value == waves[currentWaveIndex]
    {
      if currentWaveIndex < |waves| then Some(waves[currentWaveIndex]) else None
    }

    function GetWave(index: int): (w: Option<WaveData>)
      ensures w.Some? <==> 0 <= index < |waves|
      ensures w.Some? ==> w.value == waves[index]
    {
      if 0 <= index < |waves| then Some(waves[index]) else None
    }
  }

  // ---------------------------------------------------------------------------------
  // CreepController

  /** What a hit or a death can change about a creep, read in one state: its model and
      the model's health and speed, its movement, subscriber, activity and slow, the
      coins of its economy's manager and the list of the given subscriber. */
  datatype CreepSnapshot = CreepSnapshot(model: CreepModel?, health: int, speed: real,
                                         moving: bool, onDeath: WaveManager?, active: bool,
                                         slowActive: bool, slowRemaining: real,
                                         coins: int, queue: seq<CreepController>)

  /** What an arrival during Initialize can change, read in one state: the creep's
      arrival mark and slow, the health of the base and of its manager, the match state
      and the coins of its economy's manager. */
  datatype StartSnapshot = StartSnapshot(reached: bool, slowActive: bool, baseHealth: int, managerHealth: int,
                                         managerState: GameState, coins: int)

  /** What SpawnCreep reads before it starts; see WaveManager.SpawnState. */
  datatype SpawnSnapshot = SpawnSnapshot(index: int, shuffled: seq<Vec3>, queue: seq<CreepController>,
                                         creep: StartSnapshot, listener: WaveManager?,
                                         listenerQueue: seq<CreepController>)

  /** CreepController: drives one pooled creep. Its movement coroutine is the `moving`
      flag advanced by MoveTick, its slow coroutine the `slowActive` timer advanced by
      SlowTick, and its OnDeath delegate the single subscriber `onDeath`. */
  class CreepController {
    const gameObject: GameObject
    const baseDefense: BaseDefense
    const economy: EconomySystem?
    var model: CreepModel?
    var targetPosition: Vec3
    var reachedBase: bool
    var moving: bool
    var slowActive: bool
    var slowRemaining: real
    var onDeath: WaveManager?

    /** Awake finds the BaseDefense in the scene. `economy` stands for the value
        `EconomySystem.Instance` has whenever HandleDeath runs. */
    constructor (gameObject: GameObject, baseDefense: BaseDefense, economy: EconomySystem?)
      ensures this.gameObject == gameObject && this.baseDefense == baseDefense && this.economy == economy
      ensures model == null && !reachedBase && !moving && !slowActive && onDeath == null
    {
      this.gameObject := gameObject;
      this.baseDefense := baseDefense;
      this.economy := economy;
      model := null;
      targetPosition := Origin;
      reachedBase, moving, slowActive := false, false, false;
      slowRemaining := 0.0;
      onDeath := null;
    }

    ghost predicate Ready()
      reads this, model
    {
      model != null && model.Valid()
    }

    function IsAlive(): (alive: bool)
      requires model != null
      reads this, model
      ensures alive <==> model.currentHealth > 0
    {
      model.IsAlive()
    }

    function Listeners(): set<WaveManager>
      reads this`onDeath
    {
      if onDeath != null then {onDeath} else {}
    }

    function Payers(): set<GameManager>
    {
      if economy != null then {economy.gameManager} else {}
    }

    /** The state Initialize gives before its movement routine starts: a fresh model at
        the template's values, aimed at the BaseDefense object. */
    ghost predicate FreshModel(data: CreepData)
      reads this`model, this`targetPosition, model
    {
      && model != null && model.data == data && model.Valid()
      && model.currentHealth == data.maxHealth && model.currentDamage == data.damage
      && model.currentMoveSpeed == data.moveSpeed && model.deathEvents == 0
      && targetPosition == baseDefense.position
    }

    /** Whether the first iteration of MoveToBaseRoutine, which StartCoroutine runs inside
        Initialize, finds the creep at the base: it runs only for a live creep that is not
        marked arrived (`reached`), and tests where the creep stands. */
    predicate ArrivesAtOnce(data: CreepData, reached: bool, position: Vec3, dist: Metric)
    {
      data.maxHealth > 0 && !reached && baseDefense.IsCreepAtBase(position, dist)
    }

    /** What an arrival inside Initialize can change, read in one state. */
    function StartState(): StartSnapshot
      reads this`reachedBase, this`slowActive, baseDefense, baseDefense.Managers(), Payers()
    {
      StartSnapshot(reachedBase, slowActive, baseDefense.currentHealth, baseDefense.ManagerHealth(),
                    baseDefense.ManagerState(), if economy != null then economy.gameManager.currentCoins else 0)
    }

    /** Initialize against the state `before` recorded, apart from the death notification:
        the fresh model, and the first iteration of the movement routine already run. A
        creep placed within reach of the base arrives there and then (the base is damaged,
        the reward paid, the creep stopped and deactivated); otherwise the object is active
        and the creep walks, unless it is dead from the start or still marked arrived
        (`reachedBase` is not reset), and nothing else has changed. */
    ghost predicate StartedFrom(before: StartSnapshot, data: CreepData, dist: Metric, roll: int)
      requires IsRoll(data, roll)
      reads this`model, this`targetPosition, this`reachedBase, this`moving, this`slowActive
      reads gameObject, model, baseDefense, baseDefense.Managers(), Payers()
    {
      && FreshModel(data)
      && if ArrivesAtOnce(data, before.reached, gameObject.position, dist) then
           && reachedBase && !moving && !slowActive && !gameObject.active
           && baseDefense.DamagedFrom(before.baseHealth, before.managerHealth, before.managerState, data.damage)
           && (economy != null ==> economy.gameManager.currentCoins == before.coins + GetRandomCoinReward(data, roll))
         else
           && moving == (data.maxHealth > 0 && !before.reached) && gameObject.active
           && reachedBase == before.reached && slowActive == before.slowActive
           && baseDefense.currentHealth == before.baseHealth
           && baseDefense.ManagerHealth() == before.managerHealth && baseDefense.ManagerState() == before.managerState
           && (economy != null ==> economy.gameManager.currentCoins == before.coins)
    }

    method Initialize(data: CreepData, dist: Metric, roll: int)
      requires IsRoll(data, roll)
      modifies this`model, this`targetPosition, this`reachedBase, this`moving, this`slowActive, this`onDeath
      modifies gameObject`active, gameObject`position
      modifies baseDefense`currentHealth, baseDefense.Managers()`baseHealth, baseDefense.Managers()`currentGameState
      modifies Payers()`currentCoins, Listeners()`activeCreeps
      ensures StartedFrom(old(StartState()), data, dist, roll) && fresh(model)
      ensures gameObject.position == old(gameObject.position)
      ensures ArrivesAtOnce(data, old(reachedBase), gameObject.position, dist) ==>
        && onDeath == null
        && (old(onDeath) != null ==>
              old(onDeath).activeCreeps == RemoveFirst(old(onDeath.activeCreeps), this))
      ensures !ArrivesAtOnce(data, old(reachedBase), gameObject.position, dist) ==>
        onDeath == old(onDeath) && unchanged(old(Listeners())`activeCreeps)
    {
      model := new CreepModel(data);
      gameObject.SetActive(true);
      targetPosition := baseDefense.position;
      moving := true;
      MoveTick(gameObject.position, dist, roll);
    }

    /** What HandleDeath leaves: movement and slow stopped, the object inactive, the
        reward paid when there is an economy, and the creep gone from the list of the
        manager that was subscribed, which has unsubscribed. */
    twostate predicate DeathHandled(listener: WaveManager?, reward: int)
      reads this, gameObject`active, model, Payers(), listener
    {
      DeathHandledFrom(old(Snapshot(listener)), listener, reward)
    }

    function Snapshot(listener: WaveManager?): CreepSnapshot
      reads this, gameObject`active, model, Payers(), listener
    {
      CreepSnapshot(model, if model != null then model.currentHealth else 0,
                    if model != null then model.currentMoveSpeed else 0.0,
                    moving, onDeath, gameObject.active, slowActive, slowRemaining,
                    if economy != null then economy.gameManager.currentCoins else 0,
                    if listener != null then listener.activeCreeps else [])
    }

    /** DeathHandled against the state `before` recorded. */
    predicate DeathHandledFrom(before: CreepSnapshot, listener: WaveManager?, reward: int)
      reads this, gameObject`active, Payers(), listener
    {
      && !moving && !slowActive && !gameObject.active && onDeath == null
      && (economy != null ==> economy.gameManager.currentCoins == before.coins + reward)
      && (listener != null ==> listener.activeCreeps == RemoveFirst(before.queue, this))
    }

    /** HandleDeath; deactivating the object also ends its slow coroutine. */
    method HandleDeath(roll: int)
      requires model != null && IsRoll(model.data, roll)
      modifies this`moving, this`slowActive, this`onDeath, gameObject`active
      modifies Payers()`currentCoins, Listeners()`activeCreeps
      ensures DeathHandled(old(onDeath), GetRandomCoinReward(model.data, roll))
    {
      moving := false;
      if economy != null {
        economy.RewardCoins(GetRandomCoinReward(model.data, roll));
      }
      if onDeath != null {
        onDeath.OnCreepDeath(this);
      }
      gameObject.SetActive(false);
      slowActive := false;
    }

    /** What a hit followed by a requested slow leaves (Turret.InstantHit and
        Projectile.HitTarget): the model takes the damage; a killing hit runs the death
        handler, after which the slow finds the creep inactive and starts nothing;
        otherwise the slow, when asked for, is applied as ApplySlow does. */
    twostate predicate Struck(listener: WaveManager?, damage: int, reward: int,
                              slow: bool, multiplier: real, duration: real)
      reads this, gameObject`active, model, Payers(), listener
    {
      StruckFrom(old(Snapshot(listener)), listener, damage, reward, slow, multiplier, duration)
    }

    /** Struck against the state `before` recorded. */
    ghost predicate StruckFrom(before: CreepSnapshot, listener: WaveManager?, damage: int, reward: int,
                         slow: bool, multiplier: real, duration: real)
      reads this, gameObject`active, model, Payers(), listener
    {
      && model != null && model == before.model && model.Valid()
      && model.currentHealth == AfterDamage(before.health, damage)
      && if Kills(before.health, damage) then
           DeathHandledFrom(before, listener, reward) && model.currentMoveSpeed == before.speed
         else
           && moving == before.moving && onDeath == before.onDeath && gameObject.active == before.active
           && (economy != null ==> economy.gameManager.currentCoins == before.coins)
           && (listener != null ==> listener.activeCreeps == before.queue)
           && if slow && gameObject.active then
                && slowActive && slowRemaining == duration
                && model.currentMoveSpeed == model.data.moveSpeed * multiplier
              else
                && slowActive == (before.slowActive && !slow) && slowRemaining == before.slowRemaining
                && model.currentMoveSpeed == before.speed
    }

    /** What an arrival does: the base takes the creep's damage and the creep is handled
        as dead (its health is left as it was). */
    twostate predicate Arrived(listener: WaveManager?, damage: int, reward: int)
      reads this, gameObject, model, baseDefense, baseDefense.Managers(), Payers(), listener
    {
      reachedBase && baseDefense.Damaged(damage) && DeathHandled(listener, reward)
    }

    method CheckIfReachedBase(dist: Metric, roll: int)
      requires Ready() && IsRoll(model.data, roll)
      modifies this`reachedBase, this`moving, this`slowActive, this`onDeath, gameObject`active
      modifies baseDefense`currentHealth, baseDefense.Managers()`baseHealth, baseDefense.Managers()`currentGameState
      modifies Payers()`currentCoins, Listeners()`activeCreeps
      ensures baseDefense.IsCreepAtBase(gameObject.position, dist) ==>
        Arrived(old(onDeath), model.currentDamage, GetRandomCoinReward(model.data, roll))
      ensures !baseDefense.IsCreepAtBase(gameObject.position, dist) ==>
        unchanged(this, gameObject, baseDefense) && unchanged(baseDefense.Managers(), Payers(), Listeners())
    {
      if !baseDefense.IsCreepAtBase(gameObject.position, dist) {
        return;
      }
      reachedBase := true;
      moving := false;
      baseDefense.TakeDamage(model.currentDamage);
      HandleDeath(roll);
    }

    /** One iteration of MoveToBaseRoutine: the loop ends once the creep is dead or has
        arrived; otherwise the creep moves to `position` (where the physics step puts it)
        and the arrival test runs. */
    method MoveTick(position: Vec3, dist: Metric, roll: int)
      requires Ready() && IsRoll(model.data, roll)
      modifies this`reachedBase, this`moving, this`slowActive, this`onDeath, gameObject`active, gameObject`position
      modifies baseDefense`currentHealth, baseDefense.Managers()`baseHealth, baseDefense.Managers()`currentGameState
      modifies Payers()`currentCoins, Listeners()`activeCreeps
      ensures !old(moving) || !old(gameObject.active) ==>
        unchanged(this, gameObject, baseDefense) && unchanged(baseDefense.Managers(), Payers(), Listeners())
      ensures old(moving) && old(gameObject.active) && !(IsAlive() && !old(reachedBase)) ==>
        && !moving && reachedBase == old(reachedBase) && slowActive == old(slowActive)
        && onDeath == old(onDeath) && unchanged(gameObject, baseDefense)
        && unchanged(baseDefense.Managers(), Payers(), Listeners())
      ensures old(moving) && old(gameObject.active) && IsAlive() && !old(reachedBase) ==>
        && gameObject.position == position
        && (baseDefense.IsCreepAtBase(position, dist) ==>
              Arrived(old(onDeath), model.currentDamage, GetRandomCoinReward(model.data, roll)))
        && (!baseDefense.IsCreepAtBase(position, dist) ==>
              && moving && !reachedBase && slowActive == old(slowActive) && onDeath == old(onDeath)
              && gameObject.active && unchanged(baseDefense)
              && unchanged(baseDefense.Managers(), Payers(), Listeners()))
    {
      if !moving || !gameObject.active {
        return;
      }
      if !(model.IsAlive() && !reachedBase) {
        moving := false;
        return;
      }
      gameObject.position := position;
      CheckIfReachedBase(dist, roll);
    }

    /** A hit goes to the model; when it kills, HandleDeath runs. */
    method TakeDamage(damage: int, roll: int)
      requires Ready() && IsRoll(model.data, roll)
      modifies model`currentHealth, model`damagedEvents, model`deathEvents
      modifies this`moving, this`slowActive, this`onDeath, gameObject`active
      modifies Payers()`currentCoins, Listeners()`activeCreeps
      ensures Ready() && model == old(model)
      ensures model.currentHealth == AfterDamage(old(model.currentHealth), damage)
      ensures model.deathEvents == old(model.deathEvents) + (if Kills(old(model.currentHealth), damage) then 1 else 0)
      ensures Kills(old(model.currentHealth), damage) ==>
        DeathHandled(old(onDeath), GetRandomCoinReward(model.data, roll))
      ensures !Kills(old(model.currentHealth), damage) ==>
        unchanged(this, gameObject) && unchanged(Payers(), Listeners())
    {
      var died := model.TakeDamage(damage);
      if died {
        HandleDeath(roll);
      }
    }

    /** Cancels any running slow; an active creep starts a new one at once, so the most
        recent slow decides both the speed and the remaining time. */
    method ApplySlow(multiplier: real, duration: real)
      requires model != null
      modifies this`slowActive, this`slowRemaining, model`currentMoveSpeed
      ensures gameObject.active ==>
        slowActive && slowRemaining == duration && model.currentMoveSpeed == model.data.moveSpeed * multiplier
      ensures !gameObject.active ==>
        !slowActive && slowRemaining == old(slowRemaining) && model.currentMoveSpeed == old(model.currentMoveSpeed)
    {
      slowActive := false;
      if gameObject.active {
        model.ApplySlow(multiplier);
        slowActive, slowRemaining := true, duration;
      }
    }

    /** `elapsed` seconds of the running slow pass; when its duration is used up the
        template speed comes back. */
    method SlowTick(elapsed: real)
      requires model != null
      modifies this`slowActive, this`slowRemaining, model`currentMoveSpeed
      ensures !old(slowActive) || !gameObject.active ==>
        slowActive == old(slowActive) && slowRemaining == old(slowRemaining)
        && model.currentMoveSpeed == old(model.currentMoveSpeed)
      ensures old(slowActive) && gameObject.active ==>
        && slowRemaining == old(slowRemaining) - elapsed
        && (slowRemaining <= 0.0 ==> !slowActive && model.currentMoveSpeed == model.data.moveSpeed)
        && (slowRemaining > 0.0 ==> slowActive && model.currentMoveSpeed == old(model.currentMoveSpeed))
    {
      if !slowActive || !gameObject.active {
        return;
      }
      slowRemaining := slowRemaining - elapsed;
      if slowRemaining <= 0.0 {
        model.ResetSpeed();
        slowActive := false;
      }
    }
  }
}
