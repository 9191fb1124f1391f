/** Turret fire control and projectiles. Scene queries become inputs: the creeps
    FindObjectsOfType returns (only active objects are returned), the components
    Physics.OverlapSphere finds, the pooled projectile a shot is given, and the engine
    clock. */
module Combat {
  import opened Common
  import opened GameData
  import opened CreepHealth
  import opened Pooling
  import opened Match

  /** float.MaxValue, where SelectBestTarget's running minimum starts. */
  const FloatMax: real := 340282346638528859811704183484516925440.0

  /** The radius within which a projectile counts as arrived. */
  const HitRadius: real := 0.5

  /** The seconds after which a projectile disables itself. */
  const LifeTime: real := 3.0

  /** CreepController.IsAlive, with an uninitialised creep counted as not alive. */
  predicate Live(c: CreepController)
    reads c, c.model
  {
    c.model != null && c.model.currentHealth > 0
  }

  // ---------------------------------------------------------------------------------
  // Frames of the creeps a shot may touch

  function Controllers(cs: seq<CreepController?>): set<CreepController>
  {
    set c: CreepController | c in cs
  }

  function ModelsOf(cs: set<CreepController>): set<CreepModel>
    reads cs
  {
    set c | c in cs && c.model != null :: c.model
  }

  /** The frames of one creep, empty for a missing one. */
  function CreepOf(c: CreepController?): set<CreepController>
  {
    if c != null then {c} else {}
  }

  function ModelOf(c: CreepController?): set<CreepModel>
    reads c
  {
    if c != null && c.model != null then {c.model} else {}
  }

  function ObjectOf(c: CreepController?): set<GameObject>
  {
    if c != null then {c.gameObject} else {}
  }

  function PayerOf(c: CreepController?): set<GameManager>
  {
    if c != null then c.Payers() else {}
  }

  function ListenerOf(c: CreepController?): set<WaveManager>
    reads c
  {
    if c != null then c.Listeners() else {}
  }

  // ---------------------------------------------------------------------------------
  // Target choice

  /** The test FindCreepsInRange applies to one creep: alive and within range, bound
      included. */
  predicate Within(c: CreepController, origin: Vec3, range: real, dist: Metric)
    reads c, c.model, c.gameObject
  {
    Live(c) && dist(origin, c.gameObject.position) <= range
  }

  /** The creeps of `cs` that pass Within, in their order in `cs`. */
  function InRange(cs: seq<CreepController>, origin: Vec3, range: real, dist: Metric): seq<CreepController>
    reads set c | c in cs, set c | c in cs :: c.model, set c | c in cs :: c.gameObject
    decreases |cs|
  {
    if cs == [] then []
    else
      var last := cs[|cs| - 1];
      assert forall c :: c in cs[..|cs| - 1] ==> c in cs;
      InRange(cs[..|cs| - 1], origin, range, dist) + (if Within(last, origin, range, dist) then [last] else [])
  }

  /** Filtering a concatenation filters each part: the filter keeps the input order. */
  lemma {:induction false} InRangeConcat(a: seq<CreepController>, b: seq<CreepController>,
                                         origin: Vec3, range: real, dist: Metric)
    ensures InRange(a + b, origin, range, dist) == InRange(a, origin, range, dist) + InRange(b, origin, range, dist)
    decreases |b|
  {
    if b == [] {
      assert a + b == a;
    } else {
      var b' := b[..|b| - 1];
      assert (a + b)[..|a + b| - 1] == a + b';
      assert (a + b)[|a + b| - 1] == b[|b| - 1];
      InRangeConcat(a, b', origin, range, dist);
    }
  }

  /** A creep is listed exactly when it is one of `cs` and passes Within. */
  lemma {:induction false} InRangeMembers(cs: seq<CreepController>, origin: Vec3, range: real, dist: Metric)
    ensures |InRange(cs, origin, range, dist)| <= |cs|
    ensures forall c :: c in InRange(cs, origin, range, dist) <==> c in cs && Within(c, origin, range, dist)
    decreases |cs|
  {
    if cs != [] {
      var front := cs[..|cs| - 1];
      InRangeMembers(front, origin, range, dist);
      assert cs == front + [cs[|cs| - 1]];
    }
  }

  /** The distance from creep `cs[k]` to the base. */
  function ToBase(cs: seq<CreepController>, k: int, basePos: Vec3, dist: Metric): real
    requires 0 <= k < |cs|
    reads cs[k], cs[k].gameObject
  {
    dist(cs[k].gameObject.position, basePos)
  }

  /** Candidate `k` is alive, nearer to the base than float.MaxValue, no farther than any
      other live candidate, and strictly nearer than every live candidate before it. */
  predicate IsClosest(cs: seq<CreepController>, k: int, basePos: Vec3, dist: Metric)
    requires 0 <= k < |cs|
    reads set c | c in cs, set c | c in cs :: c.model, set c | c in cs :: c.gameObject
  {
    && Live(cs[k]) && ToBase(cs, k, basePos, dist) < FloatMax
    && (forall j :: 0 <= j < |cs| && Live(cs[j]) ==> ToBase(cs, k, basePos, dist) <= ToBase(cs, j, basePos, dist))
    && (forall j :: 0 <= j < k && Live(cs[j]) ==> ToBase(cs, k, basePos, dist) < ToBase(cs, j, basePos, dist))
  }

  /** The outcome SelectBestTarget promises: no target when no live candidate is nearer
      than float.MaxValue, and otherwise the first live candidate closest to the base. */
  predicate ClosestToBase(cs: seq<CreepController>, basePos: Vec3, dist: Metric, best: CreepController?)
    reads set c | c in cs, set c | c in cs :: c.model, set c | c in cs :: c.gameObject
  {
    if best == null then
      forall j :: 0 <= j < |cs| && Live(cs[j]) ==> ToBase(cs, j, basePos, dist) >= FloatMax
    else
      exists k :: 0 <= k < |cs| && cs[k] == best && IsClosest(cs, k, basePos, dist)
  }

  /** Ties go to the first: at most one candidate position is the closest. */
  lemma ClosestIsUnique(cs: seq<CreepController>, k1: int, k2: int, basePos: Vec3, dist: Metric)
    requires 0 <= k1 < |cs| && 0 <= k2 < |cs|
    requires IsClosest(cs, k1, basePos, dist) && IsClosest(cs, k2, basePos, dist)
    ensures k1 == k2
  {
  }

  /** A positive fire interval 1 / fireRate has passed. With a zero rate the interval is
      infinite and no shot is ever ready. */
  predicate ReadyToFire(elapsed: real, fireRate: real)
  {
    fireRate != 0.0 && elapsed >= 1.0 / fireRate
  }

  /** Seeding `lastFireTime` with -fireRate allows a shot at time `now` exactly when
      now + fireRate reaches the interval, so a slow turret placed early must wait. */
  lemma FirstShotAfterSeed(now: real, fireRate: real)
    requires fireRate > 0.0
    ensures ReadyToFire(now - (-fireRate), fireRate) <==> now + fireRate >= 1.0 / fireRate
    ensures fireRate >= 1.0 && now >= 0.0 ==> ReadyToFire(now - (-fireRate), fireRate)
  {
    if fireRate >= 1.0 {
      assert 1.0 / fireRate <= 1.0;
    }
  }

  /** The first shot is not always immediate: a turret slower than one shot per second
      waits until `1 / fireRate - fireRate`. */
  lemma SlowTurretWaitsAfterSeed(now: real, fireRate: real)
    requires 0.0 < fireRate < 1.0
    requires 0.0 <= now < 1.0 / fireRate - fireRate
    ensures !ReadyToFire(now - (-fireRate), fireRate)
  {
    FirstShotAfterSeed(now, fireRate);
  }

  /** The hit both instant-hit turrets and projectiles deliver: the damage, then the
      slow when the shot carries one. */
  method Strike(creep: CreepController, damage: int, slow: bool, multiplier: real, duration: real, roll: int)
    requires creep.Ready() && IsRoll(creep.model.data, roll)
    modifies creep.model`currentHealth, creep.model`damagedEvents, creep.model`deathEvents
    modifies creep.model`currentMoveSpeed, creep`moving, creep`slowActive, creep`slowRemaining
    modifies creep`onDeath, creep.gameObject`active, creep.Payers()`currentCoins
    modifies creep.Listeners()`activeCreeps
    ensures creep.Struck(old(creep.onDeath), damage, GetRandomCoinReward(creep.model.data, roll),
                         slow, multiplier, duration)
  {
    creep.TakeDamage(damage, roll);
    if slow {
      creep.ApplySlow(multiplier, duration);
    }
  }

  // ---------------------------------------------------------------------------------
  // Projectile

  /** The first live creep among the overlapping components, if any. */
  function FirstLive(cs: seq<CreepController?>): (k: Option<nat>)
    reads Controllers(cs), ModelsOf(Controllers(cs))
    ensures k.Some? ==> k.value < |cs| && cs[k.value] != null && Live(cs[k.value])
    ensures k.Some? ==> forall j :: 0 <= j < k.value ==> cs[j] == null || !Live(cs[j])
    ensures k.None? ==> forall j :: 0 <= j < |cs| ==> cs[j] == null || !Live(cs[j])
    decreases |cs|
  {
    if cs == [] then None
    else if cs[0] != null && Live(cs[0]) then Some(0)
    else
      assert Controllers(cs[1..]) <= Controllers(cs);
      match FirstLive(cs[1..])
      case None => None
      case Some(k) => Some(k + 1)
  }

  /** The creep a hit strikes: the first live one among the overlaps. */
  function Victim(cs: seq<CreepController?>): (v: CreepController?)
    reads Controllers(cs), ModelsOf(Controllers(cs))
    ensures v == null <==> FirstLive(cs).None?
    ensures v != null ==> v == cs[FirstLive(cs).value]
  {
    match FirstLive(cs)
    case None => null
    case Some(k) => cs[k]
  }

  /** The death subscriber of the creep a hit strikes. */
  function VictimListener(cs: seq<CreepController?>): WaveManager?
    reads Controllers(cs), ModelsOf(Controllers(cs))
  {
    var v := Victim(cs);
    if v != null then v.onDeath else null
  }

  /** The search in HitTarget: the first overlapping component that is a live creep. */
  method FindVictim(overlaps: seq<CreepController?>) returns (creep: CreepController?)
    requires forall c :: c in overlaps && c != null ==> c.model != null
    ensures creep == Victim(overlaps)
  {
    var i := 0;
    while i < |overlaps| && !(overlaps[i] != null && overlaps[i].IsAlive())
      invariant 0 <= i <= |overlaps|
      invariant forall j :: 0 <= j < i ==> overlaps[j] == null || !Live(overlaps[j])
    {
      i := i + 1;
    }
    if i < |overlaps| {
      assert FirstLive(overlaps) == Some(i);
      creep := overlaps[i];
    } else {
      assert FirstLive(overlaps).None?;
      creep := null;
    }
  }

  /** Nothing a strike on `v` could change has changed. */
  twostate predicate Spared(v: CreepController?)
    reads CreepOf(v), ModelOf(v), ObjectOf(v)`active, PayerOf(v), ListenerOf(v)
  {
    && unchanged(CreepOf(v)) && unchanged(ModelOf(v))
    && unchanged(ObjectOf(v)`active, PayerOf(v), ListenerOf(v))
  }

  /** Projectile: one shot flying at a creep. `pendingDisable` counts the scheduled
      DisableGameObject calls that have not run yet. */
  class Projectile {
    const gameObject: GameObject
    var turretData: Option<TurretData>
    var target: CreepController?
    var targetPosition: Vec3
    var speed: real
    var damage: int
    var hasSlowEffect: bool
    var slowAmount: real
    var slowDuration: real
    var hasHit: bool
    var pendingDisable: nat

    constructor (gameObject: GameObject)
      ensures this.gameObject == gameObject && turretData.None? && target == null
      ensures !hasHit && pendingDisable == 0
    {
      this.gameObject := gameObject;
      turretData := None;
      target := null;
      targetPosition := Origin;
      speed, damage := 0.0, 0;
      hasSlowEffect, slowAmount, slowDuration := false, 0.0, 0.0;
      hasHit := false;
      pendingDisable := 0;
    }

    /** What Initialize leaves: the payload copied from the turret data, if there is one,
        the self-disable scheduled, and the aim on the target or ten units straight ahead.
        The hit latch is not reset. */
    twostate predicate Launched(data: Option<TurretData>, targetCreep: CreepController?)
      reads this, gameObject, ObjectOf(targetCreep)
    {
      && turretData == data && target == targetCreep && hasHit == old(hasHit)
      && pendingDisable == old(pendingDisable) + 1
      && (data.Some? ==>
            && speed == data.value.projectileSpeed && damage == data.value.damage
            && hasSlowEffect == data.value.hasSlowEffect && slowAmount == data.value.slowAmount
            && slowDuration == data.value.slowDuration)
      && (data.None? ==>
            && speed == old(speed) && damage == old(damage) && hasSlowEffect == old(hasSlowEffect)
            && slowAmount == old(slowAmount) && slowDuration == old(slowDuration))
      && targetPosition ==
           if targetCreep != null then targetCreep.gameObject.position
           else Plus(gameObject.position, Scale(Forward(gameObject.rotation), 10.0))
    }

    method Initialize(data: Option<TurretData>, targetCreep: CreepController?)
      modifies this
      ensures Launched(data, targetCreep)
    {
      turretData := data;
      target := targetCreep;
      pendingDisable := pendingDisable + 1;
      if data.Some? {
        speed := data.value.projectileSpeed;
        damage := data.value.damage;
        hasSlowEffect := data.value.hasSlowEffect;
        slowAmount := data.value.slowAmount;
        slowDuration := data.value.slowDuration;
      }
      if target != null {
        targetPosition := target.gameObject.position;
      } else {
        targetPosition := Plus(gameObject.position, Scale(Forward(gameObject.rotation), 10.0));
      }
    }

    /** The scheduled DisableGameObject runs. */
    method LifeTimeElapsed()
      requires pendingDisable > 0
      modifies this`pendingDisable, gameObject`active
      ensures pendingDisable == old(pendingDisable) - 1 && !gameObject.active
    {
      pendingDisable := pendingDisable - 1;
      gameObject.SetActive(false);
    }

    /** What a first HitTarget leaves: the latch set, the projectile inactive, and the
        victim, if there is one, struck with this projectile's payload. */
    twostate predicate HitDone(v: CreepController?, roll: int, listener: WaveManager?)
      reads this, gameObject`active, CreepOf(v), ModelOf(v), ObjectOf(v)`active, PayerOf(v), listener
    {
      && hasHit && !gameObject.active
      && (v != null ==>
            && v.model != null && IsRoll(v.model.data, roll)
            && v.Struck(listener, damage, GetRandomCoinReward(v.model.data, roll),
                        hasSlowEffect, slowAmount, slowDuration))
    }

    /** HitTarget: latches, strikes the first live creep the overlap query found (with
        the slow when configured) and disables the projectile; a second call does
        nothing. No other creep is touched. */
    method HitTarget(overlaps: seq<CreepController?>, roll: int)
      requires forall c :: c in overlaps && c != null ==> c.model != null
      requires Victim(overlaps) != null ==>
        && Victim(overlaps).Ready() && IsRoll(Victim(overlaps).model.data, roll)
        && Victim(overlaps).gameObject != gameObject
      modifies this`hasHit, gameObject`active
      modifies ModelOf(Victim(overlaps))`currentHealth, ModelOf(Victim(overlaps))`damagedEvents
      modifies ModelOf(Victim(overlaps))`deathEvents, ModelOf(Victim(overlaps))`currentMoveSpeed
      modifies CreepOf(Victim(overlaps))`moving, CreepOf(Victim(overlaps))`slowActive
      modifies CreepOf(Victim(overlaps))`slowRemaining, CreepOf(Victim(overlaps))`onDeath
      modifies ObjectOf(Victim(overlaps))`active, PayerOf(Victim(overlaps))`currentCoins
      modifies ListenerOf(Victim(overlaps))`activeCreeps
      ensures old(hasHit) ==> hasHit && gameObject.active == old(gameObject.active) && Spared(old(Victim(overlaps)))
      ensures !old(hasHit) ==> HitDone(old(Victim(overlaps)), roll, old(VictimListener(overlaps)))
    {
      if hasHit {
        return;
      }
      hasHit := true;
      var creep := FindVictim(overlaps);
      if creep != null {
        Strike(creep, damage, hasSlowEffect, slowAmount, slowDuration, roll);
      }
      gameObject.SetActive(false);
    }

    /** What MoveTowardsTarget leaves: the aim refreshed from a live target and kept
        otherwise, and a first hit once the projectile is strictly within HitRadius of
        the aim. The move itself is a Rigidbody.MovePosition, which lands in the next
        physics step, so the distance is taken from where the projectile still is. */
    twostate predicate Moved(dist: Metric, v: CreepController?, roll: int, listener: WaveManager?)
      reads this, gameObject, CreepOf(v), ModelOf(v), ObjectOf(v)`active, PayerOf(v), ListenerOf(v), listener
    {
      && targetPosition ==
           (if old(target) != null && old(Live(target)) then old(target.gameObject.position) else old(targetPosition))
      && if dist(gameObject.position, targetPosition) < HitRadius && !old(hasHit) then HitDone(v, roll, listener)
         else hasHit == old(hasHit) && gameObject.active == old(gameObject.active) && Spared(v)
    }

    method MoveTowardsTarget(dist: Metric, overlaps: seq<CreepController?>, roll: int)
      requires target != null ==> target.model != null
      requires forall c :: c in overlaps && c != null ==> c.model != null
      requires Victim(overlaps) != null ==>
        && Victim(overlaps).Ready() && IsRoll(Victim(overlaps).model.data, roll)
        && Victim(overlaps).gameObject != gameObject
      modifies this`targetPosition, this`hasHit, gameObject`active
      modifies ModelOf(Victim(overlaps))`currentHealth, ModelOf(Victim(overlaps))`damagedEvents
      modifies ModelOf(Victim(overlaps))`deathEvents, ModelOf(Victim(overlaps))`currentMoveSpeed
      modifies CreepOf(Victim(overlaps))`moving, CreepOf(Victim(overlaps))`slowActive
      modifies CreepOf(Victim(overlaps))`slowRemaining, CreepOf(Victim(overlaps))`onDeath
      modifies ObjectOf(Victim(overlaps))`active, PayerOf(Victim(overlaps))`currentCoins
      modifies ListenerOf(Victim(overlaps))`activeCreeps
      ensures Moved(dist, old(Victim(overlaps)), roll, old(VictimListener(overlaps)))
    {
      if target != null && target.IsAlive() {
        targetPosition := target.gameObject.position;
      }
      if dist(gameObject.position, targetPosition) < HitRadius {
        HitTarget(overlaps, roll);
      }
    }

    /** Update: nothing once the projectile has hit, and nothing while it is inactive
        (the engine does not update inactive objects). */
    method Update(dist: Metric, overlaps: seq<CreepController?>, roll: int)
      requires target != null ==> target.model != null
      requires forall c :: c in overlaps && c != null ==> c.model != null
      requires Victim(overlaps) != null ==>
        && Victim(overlaps).Ready() && IsRoll(Victim(overlaps).model.data, roll)
        && Victim(overlaps).gameObject != gameObject
      modifies this`targetPosition, this`hasHit, gameObject`active
      modifies ModelOf(Victim(overlaps))`currentHealth, ModelOf(Victim(overlaps))`damagedEvents
      modifies ModelOf(Victim(overlaps))`deathEvents, ModelOf(Victim(overlaps))`currentMoveSpeed
      modifies CreepOf(Victim(overlaps))`moving, CreepOf(Victim(overlaps))`slowActive
      modifies CreepOf(Victim(overlaps))`slowRemaining, CreepOf(Victim(overlaps))`onDeath
      modifies ObjectOf(Victim(overlaps))`active, PayerOf(Victim(overlaps))`currentCoins
      modifies ListenerOf(Victim(overlaps))`activeCreeps
      ensures old(hasHit) || !old(gameObject.active) ==> unchanged(this, gameObject) && Spared(old(Victim(overlaps)))
      ensures !old(hasHit) && old(gameObject.active) ==>
        Moved(dist, old(Victim(overlaps)), roll, old(VictimListener(overlaps)))
    {
      if hasHit || !gameObject.active {
        return;
      }
      MoveTowardsTarget(dist, overlaps, roll);
    }

    /** OnTriggerEnter: a live creep touching a projectile that has not hit yet sets off
        the hit. */
    method OnTriggerEnter(other: CreepController?, overlaps: seq<CreepController?>, roll: int)
      requires other != null ==> other.model != null
      requires forall c :: c in overlaps && c != null ==> c.model != null
      requires Victim(overlaps) != null ==>
        && Victim(overlaps).Ready() && IsRoll(Victim(overlaps).model.data, roll)
        && Victim(overlaps).gameObject != gameObject
      modifies this`hasHit, gameObject`active
      modifies ModelOf(Victim(overlaps))`currentHealth, ModelOf(Victim(overlaps))`damagedEvents
      modifies ModelOf(Victim(overlaps))`deathEvents, ModelOf(Victim(overlaps))`currentMoveSpeed
      modifies CreepOf(Victim(overlaps))`moving, CreepOf(Victim(overlaps))`slowActive
      modifies CreepOf(Victim(overlaps))`slowRemaining, CreepOf(Victim(overlaps))`onDeath
      modifies ObjectOf(Victim(overlaps))`active, PayerOf(Victim(overlaps))`currentCoins
      modifies ListenerOf(Victim(overlaps))`activeCreeps
      ensures old(hasHit) || other == null || !old(Live(other)) ==>
        hasHit == old(hasHit) && gameObject.active == old(gameObject.active) && Spared(old(Victim(overlaps)))
      ensures !old(hasHit) && other != null && old(Live(other)) ==>
        HitDone(old(Victim(overlaps)), roll, old(VictimListener(overlaps)))
    {
      if hasHit {
        return;
      }
      if other != null && other.IsAlive() {
        HitTarget(overlaps, roll);
      }
    }
  }

  // ---------------------------------------------------------------------------------
  // Turret

  /** Turret: the creeps in range, the chosen target and the time of the last shot.
      `firePoint` is the fire point object, made on initialisation when none is set. */
  class Turret {
    const gameObject: GameObject
    const baseDefense: BaseDefense
    var turretData: Option<TurretData>
    var firePoint: GameObject?
    var currentTarget: CreepController?
    var lastFireTime: real
    var creepsInRange: seq<CreepController>

    /** Awake: the BaseDefense is found in the scene; data and fire point are whatever the
        prefab carries. */
    constructor (gameObject: GameObject, baseDefense: BaseDefense, turretData: Option<TurretData>, firePoint: GameObject?)
      ensures this.gameObject == gameObject && this.baseDefense == baseDefense
      ensures this.turretData == turretData && this.firePoint == firePoint
      ensures currentTarget == null && lastFireTime == 0.0 && creepsInRange == []
    {
      this.gameObject := gameObject;
      this.baseDefense := baseDefense;
      this.turretData := turretData;
      this.firePoint := firePoint;
      currentTarget := null;
      lastFireTime := 0.0;
      creepsInRange := [];
    }

    function HasTarget(): (has: bool)
      reads this
      ensures has <==> currentTarget != null
    {
      currentTarget != null
    }

    function Range(): (r: real)
      reads this
      ensures turretData.None? ==> r == 0.0
      ensures turretData.Some? ==> r == turretData.value.range
    {
      match turretData
      case None => 0.0
      case Some(d) => d.range
    }

    /** What InitializeTurret leaves: without data nothing; with data a fire point and
        `lastFireTime` seeded with -fireRate. The fire point is the existing one, or a fresh
        one made a child of the turret half a unit along the turret's own up axis; a new
        object is unrotated, and SetParent keeps its world rotation. */
    twostate predicate Seeded()
      reads this, firePoint, gameObject
    {
      && (turretData.None? ==> lastFireTime == old(lastFireTime) && firePoint == old(firePoint))
      && (turretData.Some? ==>
            && lastFireTime == -turretData.value.fireRate && firePoint != null
            && (old(firePoint) != null ==> firePoint == old(firePoint))
            && (old(firePoint) == null ==>
                  && fresh(firePoint) && firePoint.name == "FirePoint"
                  && firePoint.position == Plus(gameObject.position, Scale(Up(gameObject.rotation), 0.5))
                  && firePoint.rotation == Identity))
    }

    method InitializeTurret()
      modifies this`firePoint, this`lastFireTime
      ensures Seeded()
    {
      if turretData.None? {
        return;
      }
      if firePoint == null {
        var point := new GameObject("FirePoint");
        point.SetActive(true);
        point.position := Plus(gameObject.position, Scale(Up(gameObject.rotation), 0.5));
        firePoint := point;
      }
      lastFireTime := -turretData.value.fireRate;
    }

    method Initialize(data: TurretData)
      modifies this`turretData, this`firePoint, this`lastFireTime
      ensures turretData == Some(data)
      ensures Seeded()
    {
      turretData := Some(data);
      InitializeTurret();
    }

    /** FindCreepsInRange over the creeps the scene query returns. */
    method FindCreepsInRange(sceneCreeps: seq<CreepController>, dist: Metric)
      requires forall c :: c in sceneCreeps ==> c.model != null
      requires turretData.None? ==> forall c :: c in sceneCreeps ==> !Live(c)
      modifies this`creepsInRange
      ensures creepsInRange == InRange(sceneCreeps, gameObject.position, Range(), dist)
    {
      creepsInRange := [];
      var i := 0;
      while i < |sceneCreeps|
        invariant 0 <= i <= |sceneCreeps|
        invariant creepsInRange == InRange(sceneCreeps[..i], gameObject.position, Range(), dist)
      {
        var creep := sceneCreeps[i];
        assert sceneCreeps[..i + 1][..i] == sceneCreeps[..i];
        assert turretData.None? ==> !Live(creep);
        if creep.IsAlive() && dist(gameObject.position, creep.gameObject.position) <= turretData.value.range {
          creepsInRange := creepsInRange + [creep];
        }
        i := i + 1;
      }
      assert sceneCreeps[..|sceneCreeps|] == sceneCreeps;
    }

    /** SelectBestTarget: the first live candidate strictly nearest to the base, or no
        target. */
    method SelectBestTarget(dist: Metric)
      requires forall c :: c in creepsInRange ==> c.model != null
      modifies this`currentTarget
      ensures ClosestToBase(creepsInRange, baseDefense.GetBasePosition(), dist, currentTarget)
      ensures currentTarget != null ==> currentTarget in creepsInRange && Live(currentTarget)
    {
      if |creepsInRange| == 0 {
        currentTarget := null;
        return;
      }
      var best: CreepController? := null;
      ghost var bestIndex := 0;
      var shortest := FloatMax;
      var basePosition := baseDefense.GetBasePosition();
      var i := 0;
      while i < |creepsInRange|
        invariant 0 <= i <= |creepsInRange|
        invariant best == null ==>
          && shortest == FloatMax
          && forall j :: 0 <= j < i && Live(creepsInRange[j]) ==>
               ToBase(creepsInRange, j, basePosition, dist) >= FloatMax
        invariant best != null ==>
          && 0 <= bestIndex < i && creepsInRange[bestIndex] == best && Live(best)
          && shortest == ToBase(creepsInRange, bestIndex, basePosition, dist) < FloatMax
          && (forall j :: 0 <= j < i && Live(creepsInRange[j]) ==>
                shortest <= ToBase(creepsInRange, j, basePosition, dist))
          && (forall j :: 0 <= j < bestIndex && Live(creepsInRange[j]) ==>
                shortest < ToBase(creepsInRange, j, basePosition, dist))
      {
        var creep := creepsInRange[i];
        if creep.IsAlive() {
          var distanceToBase := dist(creep.gameObject.position, basePosition);
          if distanceToBase < shortest {
            shortest := distanceToBase;
            best := creep;
            bestIndex := i;
          }
        }
        i := i + 1;
      }
      currentTarget := best;
      if best != null {
        assert IsClosest(creepsInRange, bestIndex, basePosition, dist);
      }
    }

    /** UpdateTargeting: a target that has died or left the range is dropped. */
    method UpdateTargeting(dist: Metric)
      requires currentTarget != null ==> currentTarget.model != null
      requires currentTarget != null && Live(currentTarget) ==> turretData.Some?
      modifies this`currentTarget
      ensures currentTarget == null || currentTarget == old(currentTarget)
      ensures currentTarget != null ==> Within(currentTarget, gameObject.position, Range(), dist)
      ensures old(currentTarget) != null && Within(old(currentTarget), gameObject.position, Range(), dist) ==>
        currentTarget == old(currentTarget)
    {
      if currentTarget == null {
        return;
      }
      if !currentTarget.IsAlive() ||
         dist(gameObject.position, currentTarget.gameObject.position) > turretData.value.range
      {
        currentTarget := null;
      }
    }

    function TargetListener(): WaveManager?
      reads this, CreepOf(currentTarget)
    {
      if currentTarget != null then currentTarget.onDeath else null
    }

    /** InstantHit: the target takes the turret's damage, then its slow when the turret
        has one. */
    method InstantHit(roll: int)
      requires turretData.Some?
      requires currentTarget != null ==> currentTarget.Ready() && IsRoll(currentTarget.model.data, roll)
      modifies ModelOf(currentTarget)`currentHealth, ModelOf(currentTarget)`damagedEvents
      modifies ModelOf(currentTarget)`deathEvents, ModelOf(currentTarget)`currentMoveSpeed
      modifies CreepOf(currentTarget)`moving, CreepOf(currentTarget)`slowActive
      modifies CreepOf(currentTarget)`slowRemaining, CreepOf(currentTarget)`onDeath
      modifies ObjectOf(currentTarget)`active, PayerOf(currentTarget)`currentCoins
      modifies ListenerOf(currentTarget)`activeCreeps
      ensures currentTarget != null ==>
        currentTarget.Struck(old(currentTarget.onDeath), turretData.value.damage,
                             GetRandomCoinReward(currentTarget.model.data, roll), turretData.value.hasSlowEffect,
                             turretData.value.slowAmount, turretData.value.slowDuration)
    {
      if currentTarget == null {
        return;
      }
      var data := turretData.value;
      Strike(currentTarget, data.damage, data.hasSlowEffect, data.slowAmount, data.slowDuration, roll);
    }

    /** What Fire does: nothing without a target or a fire point; with a projectile prefab
        the leased projectile is spawned at the fire point and launched at the target;
        otherwise the target is hit on the spot. */
    twostate predicate Fired(projectile: Projectile, roll: int, listener: WaveManager?)
      reads this`turretData, this`currentTarget, this`firePoint, firePoint, projectile, projectile.gameObject
      reads CreepOf(currentTarget), ModelOf(currentTarget), ObjectOf(currentTarget), PayerOf(currentTarget)
      reads ListenerOf(currentTarget), listener
    {
      && currentTarget == old(currentTarget) && turretData == old(turretData)
      && if currentTarget == null || firePoint == null || turretData.None? then
        unchanged(projectile, projectile.gameObject) && Spared(currentTarget)
      else if turretData.value.projectilePrefab.Some? then
        && projectile.gameObject.active
        && projectile.gameObject.position == firePoint.position
        && projectile.gameObject.rotation == firePoint.rotation
        && projectile.Launched(turretData, currentTarget)
        && Spared(currentTarget)
      else
        && currentTarget.model != null && IsRoll(currentTarget.model.data, roll)
        && currentTarget.Struck(listener, turretData.value.damage, GetRandomCoinReward(currentTarget.model.data, roll),
                                turretData.value.hasSlowEffect, turretData.value.slowAmount,
                                turretData.value.slowDuration)
        && unchanged(projectile, projectile.gameObject)
    }

    method Fire(projectile: Projectile, roll: int)
      requires turretData.Some?
      requires currentTarget != null ==>
        && currentTarget.Ready() && IsRoll(currentTarget.model.data, roll)
        && projectile.gameObject != currentTarget.gameObject
      modifies projectile, projectile.gameObject`active, projectile.gameObject`position, projectile.gameObject`rotation
      modifies ModelOf(currentTarget)`currentHealth, ModelOf(currentTarget)`damagedEvents
      modifies ModelOf(currentTarget)`deathEvents, ModelOf(currentTarget)`currentMoveSpeed
      modifies CreepOf(currentTarget)`moving, CreepOf(currentTarget)`slowActive
      modifies CreepOf(currentTarget)`slowRemaining, CreepOf(currentTarget)`onDeath
      modifies ObjectOf(currentTarget)`active, PayerOf(currentTarget)`currentCoins
      modifies ListenerOf(currentTarget)`activeCreeps
      ensures Fired(projectile, roll, old(TargetListener()))
    {
      if currentTarget == null || firePoint == null {
        return;
      }
      if turretData.value.projectilePrefab.Some? {
        projectile.gameObject.SetActive(true);
        projectile.gameObject.position, projectile.gameObject.rotation := firePoint.position, firePoint.rotation;
        projectile.Initialize(turretData, currentTarget);
      } else {
        InstantHit(roll);
      }
    }

    /** TryFire at engine time `now`: a shot once 1 / fireRate seconds have passed since
        the last one, which then becomes `now`. */
    method TryFire(now: real, projectile: Projectile, roll: int)
      requires currentTarget != null ==>
        && currentTarget.Ready() && IsRoll(currentTarget.model.data, roll)
        && projectile.gameObject != currentTarget.gameObject
      modifies this`lastFireTime
      modifies projectile, projectile.gameObject`active, projectile.gameObject`position, projectile.gameObject`rotation
      modifies ModelOf(currentTarget)`currentHealth, ModelOf(currentTarget)`damagedEvents
      modifies ModelOf(currentTarget)`deathEvents, ModelOf(currentTarget)`currentMoveSpeed
      modifies CreepOf(currentTarget)`moving, CreepOf(currentTarget)`slowActive
      modifies CreepOf(currentTarget)`slowRemaining, CreepOf(currentTarget)`onDeath
      modifies ObjectOf(currentTarget)`active, PayerOf(currentTarget)`currentCoins
      modifies ListenerOf(currentTarget)`activeCreeps
      ensures var fires := currentTarget != null && turretData.Some? &&
                           ReadyToFire(now - old(lastFireTime), turretData.value.fireRate);
        && (fires ==> lastFireTime == now && Fired(projectile, roll, old(TargetListener())))
        && (!fires ==> lastFireTime == old(lastFireTime) && unchanged(projectile, projectile.gameObject)
                       && Spared(currentTarget))
    {
      if currentTarget == null || turretData.None? {
        return;
      }
      var timeSinceLastFire := now - lastFireTime;
      if !ReadyToFire(timeSinceLastFire, turretData.value.fireRate) {
        return;
      }
      Fire(projectile, roll);
      lastFireTime := now;
    }
  }
}
