/** The designer-authored records the simulation reads: creep, turret and wave templates
    and the global game constants. Their fields are never changed at run time. */
module GameData {
  import opened Common

  /** The lower end of a creep's coin reward: a private field fixed at 1. */
  const MinCoinReward := 1

  /** The editor restricts maxCoinReward to the slider range 1..30. */
  type CoinCap = n: int | 1 <= n <= 30 witness 10

  /** A creep template. The prefab is named by the pool key it is spawned under;
      the material is presentation only and is not carried. */
  datatype CreepData = CreepData(
    creepName: string,
    damage: int,
    maxHealth: int,
    moveSpeed: real,
    maxCoinReward: CoinCap,
    prefabName: string)

  /** A template as a freshly created asset has it, before a designer edits it. */
  function NewCreepData(creepName: string, prefabName: string): (d: CreepData)
    ensures d.creepName == creepName && d.prefabName == prefabName
    ensures d.damage == 1 && d.maxHealth == 3 && d.moveSpeed == 2.0 && d.maxCoinReward == 10
  {
    CreepData(creepName, 1, 3, 2.0, 10, prefabName)
  }

  /** Random.Range(min, max + 1) on integers draws from the half-open range
      [min, max + 1); the drawn value is the parameter `roll`. */
  predicate IsRoll(data: CreepData, roll: int)
  {
    MinCoinReward <= roll < data.maxCoinReward + 1
  }

  function GetRandomCoinReward(data: CreepData, roll: int): (reward: int)
    requires IsRoll(data, roll)
    ensures MinCoinReward <= reward <= data.maxCoinReward
  {
    roll
  }

  /** Because maxCoinReward is at least 1, the draw can always be made, and both ends
      of the closed range [1, maxCoinReward] are possible rewards. */
  lemma CoinRewardRangeNonEmpty(data: CreepData)
    ensures exists roll :: IsRoll(data, roll)
    ensures GetRandomCoinReward(data, MinCoinReward) == 1
    ensures GetRandomCoinReward(data, data.maxCoinReward) == data.maxCoinReward
  {
    assert IsRoll(data, MinCoinReward);
  }

  /** A turret template. `projectilePrefab` is None when the turret hits instantly. */
  datatype TurretData = TurretData(
    turretName: string,
    cost: int,
    prefabName: string,
    damage: int,
    range: real,
    fireRate: real,
    projectileSpeed: real,
    hasSlowEffect: bool,
    slowAmount: real,
    slowDuration: real,
    projectilePrefab: Option<string>)

  /** A turret template as a freshly created asset has it: cost 5, one damage, range 5,
      one shot per second, projectile speed 10, a half-speed slow for 2 seconds that is
      switched off, and no projectile prefab. */
  function NewTurretData(turretName: string, prefabName: string): (d: TurretData)
    ensures d.turretName == turretName && d.prefabName == prefabName
    ensures d.cost == 5 && d.damage == 1 && d.range == 5.0 && d.fireRate == 1.0 && d.projectileSpeed == 10.0
    ensures !d.hasSlowEffect && d.slowAmount == 0.5 && d.slowDuration == 2.0 && d.projectilePrefab.None?
  {
    TurretData(turretName, 5, prefabName, 1, 5.0, 1.0, 10.0, false, 0.5, 2.0, None)
  }

  /** The global constants of a match. */
  datatype GameConfig = GameConfig(
    baseMaxHealth: int,
    startingCoins: int,
    turretCost: int,
    coinsPerCreepKill: int,
    timeBetweenWaves: real,
    timeBeforeFirstWave: real,
    popupDisplayTime: real)

  /** The constants of a freshly created configuration asset. */
  function NewGameConfig(): (c: GameConfig)
    ensures c.baseMaxHealth == 10 && c.startingCoins == 20 && c.turretCost == 5 && c.coinsPerCreepKill == 1
    ensures c.timeBetweenWaves == 5.0 && c.timeBeforeFirstWave == 3.0 && c.popupDisplayTime == 3.0
  {
    GameConfig(10, 20, 5, 1, 5.0, 3.0, 3.0)
  }

  /** One batch of a wave: `count` creeps of one template, preceded by a delay. */
  datatype CreepSpawnInfo = CreepSpawnInfo(creepData: CreepData, count: int, delayBeforeSpawn: real)

  /** A wave: its batches in order and the pause between two creeps of one batch. */
  datatype WaveData = WaveData(waveNumber: int, timeBetweenSpawns: real, creepsToSpawn: seq<CreepSpawnInfo>)

  /** A batch as the inspector creates it: no delay before it. */
  function NewSpawnInfo(creepData: CreepData, count: int): (info: CreepSpawnInfo)
    ensures info.creepData == creepData && info.count == count && info.delayBeforeSpawn == 0.0
  {
    CreepSpawnInfo(creepData, count, 0.0)
  }

  /** A wave as a freshly created asset has it: one second between spawns, no batches. */
  function NewWaveData(waveNumber: int): (w: WaveData)
    ensures w.waveNumber == waveNumber && w.timeBetweenSpawns == 1.0 && w.creepsToSpawn == []
    ensures SumCounts(w.creepsToSpawn) == 0
  {
    WaveData(waveNumber, 1.0, [])
  }

  /** The sum of the batch counts: the total of all but the last batch, plus the last
      batch's count, so that a loop adding the counts front to back extends it one batch
      at a time. */
  function SumCounts(batches: seq<CreepSpawnInfo>): int
  {
    if batches == [] then 0 else SumCounts(batches[..|batches| - 1]) + batches[|batches| - 1].count
  }

  /** Appending a batch raises the total by exactly that batch's count. */
  lemma SumCountsAppend(batches: seq<CreepSpawnInfo>, b: CreepSpawnInfo)
    ensures SumCounts(batches + [b]) == SumCounts(batches) + b.count
  {
    assert (batches + [b])[..|batches|] == batches;
  }

  /** The total of two lists of batches is the sum of their totals. */
  lemma {:induction false} SumCountsConcat(a: seq<CreepSpawnInfo>, b: seq<CreepSpawnInfo>)
    ensures SumCounts(a + b) == SumCounts(a) + SumCounts(b)
    decreases |b|
  {
    if b == [] {
      assert a + b == a;
    } else {
      var init, last := b[..|b| - 1], b[|b| - 1];
      assert b == init + [last];
      assert a + b == (a + init) + [last];
      SumCountsAppend(a + init, last);
      SumCountsConcat(a, init);
      SumCountsAppend(init, last);
    }
  }

  /** With no negative count, the total bounds every batch's count and is never negative. */
  lemma {:induction false} SumCountsBoundsBatch(batches: seq<CreepSpawnInfo>, k: nat)
    requires forall j :: 0 <= j < |batches| ==> batches[j].count >= 0
    requires k < |batches|
    ensures 0 <= batches[k].count <= SumCounts(batches)
    decreases |batches|
  {
    var n := |batches| - 1;
    if k < n {
      SumCountsBoundsBatch(batches[..n], k);
    } else {
      SumCountsNonNegative(batches[..n]);
    }
  }

  lemma {:induction false} SumCountsNonNegative(batches: seq<CreepSpawnInfo>)
    requires forall j :: 0 <= j < |batches| ==> batches[j].count >= 0
    ensures SumCounts(batches) >= 0
    decreases |batches|
  {
    if batches != [] {
      SumCountsNonNegative(batches[..|batches| - 1]);
    }
  }

  /** WaveData.GetTotalCreepCount: a loop accumulating the batch counts. */
  method GetTotalCreepCount(wave: WaveData) returns (total: int)
    ensures total == SumCounts(wave.creepsToSpawn)
  {
    var batches := wave.creepsToSpawn;
    total := 0;
    var i := 0;
    while i < |batches|
      invariant 0 <= i <= |batches|
      invariant total == SumCounts(batches[..i])
    {
      assert batches[..i + 1] == batches[..i] + [batches[i]];
      SumCountsAppend(batches[..i], batches[i]);
      total := total + batches[i].count;
      i := i + 1;
    }
    assert batches[..i] == batches;
  }
}
