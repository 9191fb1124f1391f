/** The health and speed state of one creep: Alive while health is above zero, Dead
    (terminal) once a hit brings it to zero. */
module CreepHealth {
  import opened Common
  import opened GameData

  /** Health after one hit of `amount`: a dead creep is left alone, a live one loses
      `amount`, floored at zero. */
  function AfterDamage(health: int, amount: int): int
  {
    if health <= 0 then health else FloorAtZero(health - amount)
  }

  /** The hit that takes a live creep to zero: the one on which the death event fires. */
  predicate Kills(health: int, amount: int)
  {
    health > 0 && health - amount <= 0
  }

  /** Health after a sequence of hits, applied in order. */
  function AfterHits(health: int, amounts: seq<int>): int
    decreases |amounts|
  {
    if amounts == [] then health else AfterHits(AfterDamage(health, amounts[0]), amounts[1..])
  }

  /** How many hits of the sequence fire the death event. */
  function DeathsAlong(health: int, amounts: seq<int>): nat
    decreases |amounts|
  {
    if amounts == [] then 0
    else (if Kills(health, amounts[0]) then 1 else 0) + DeathsAlong(AfterDamage(health, amounts[0]), amounts[1..])
  }

  /** A dead creep ignores every later hit: health stays put and death never fires again. */
  lemma {:induction false} DeadIgnoresHits(health: int, amounts: seq<int>)
    requires health <= 0
    ensures AfterHits(health, amounts) == health
    ensures DeathsAlong(health, amounts) == 0
    decreases |amounts|
  {
    if amounts != [] {
      DeadIgnoresHits(health, amounts[1..]);
    }
  }

  /** Over any sequence of hits the death event fires at most once, and it fires exactly
      when a creep that started alive ends with no health. */
  lemma {:induction false} DeathFiresAtMostOnce(health: int, amounts: seq<int>)
    ensures DeathsAlong(health, amounts) <= 1
    ensures DeathsAlong(health, amounts) == 1 <==> health > 0 && AfterHits(health, amounts) == 0
    decreases |amounts|
  {
    if amounts == [] {
    } else {
      var next := AfterDamage(health, amounts[0]);
      if Kills(health, amounts[0]) {
        assert next == 0;
        DeadIgnoresHits(next, amounts[1..]);
      } else if health <= 0 {
        DeadIgnoresHits(health, amounts);
      } else {
        assert next > 0;
        DeathFiresAtMostOnce(next, amounts[1..]);
      }
    }
  }

  /** Health that starts non-negative is never driven below zero, and non-negative hits
      never raise it. */
  lemma {:induction false} HitsKeepHealthInRange(health: int, amounts: seq<int>)
    requires health >= 0
    ensures AfterHits(health, amounts) >= 0
    ensures (forall k :: 0 <= k < |amounts| ==> amounts[k] >= 0) ==> AfterHits(health, amounts) <= health
    decreases |amounts|
  {
    if amounts != [] {
      var next := AfterDamage(health, amounts[0]);
      HitsKeepHealthInRange(next, amounts[1..]);
      if forall k :: 0 <= k < |amounts| ==> amounts[k] >= 0 {
        assert amounts[0] >= 0;
        assert next <= health;
        assert forall k :: 0 <= k < |amounts[1..]| ==> amounts[1..][k] == amounts[k + 1];
      }
    }
  }

  /** CreepModel: the runtime state derived from a creep template. OnDamaged and OnDeath
      are counted in ghost fields; TakeDamage also returns whether OnDeath fired so that
      the controller that subscribed to it can run its handler. */
  class CreepModel {
    const data: CreepData
    var currentDamage: int
    var currentHealth: int
    var currentMoveSpeed: real
    ghost var damagedEvents: nat
    ghost var deathEvents: nat

    /** OnDeath has fired at most once, and only if the creep is dead. */
    ghost predicate Valid()
      reads this
    {
      deathEvents == 0 || (deathEvents == 1 && currentHealth == 0)
    }

    constructor (data: CreepData)
      ensures Valid()
      ensures this.data == data
      ensures currentHealth == data.maxHealth && currentMoveSpeed == data.moveSpeed
      ensures currentDamage == data.damage
      ensures damagedEvents == 0 && deathEvents == 0
    {
      this.data := data;
      currentHealth := data.maxHealth;
      currentMoveSpeed := data.moveSpeed;
      currentDamage := data.damage;
      damagedEvents, deathEvents := 0, 0;
    }

    function IsAlive(): (alive: bool)
      reads this
      ensures alive <==> currentHealth > 0
    {
      currentHealth > 0
    }

    /** A hit on a dead model does nothing; a hit on a live one lowers health (floored at
        zero), fires OnDamaged, and fires OnDeath when health reaches zero. */
    method TakeDamage(amount: int) returns (died: bool)
      requires Valid()
      modifies this`currentHealth, this`damagedEvents, this`deathEvents
      ensures Valid()
      ensures currentHealth == AfterDamage(old(currentHealth), amount)
      ensures died == Kills(old(currentHealth), amount)
      ensures damagedEvents == old(damagedEvents) + (if old(currentHealth) > 0 then 1 else 0)
      ensures deathEvents == old(deathEvents) + (if died then 1 else 0)
    {
      died := false;
      if !IsAlive() {
        return;
      }
      currentHealth := FloorAtZero(currentHealth - amount);
      damagedEvents := damagedEvents + 1;
      if currentHealth <= 0 {
        deathEvents := deathEvents + 1;
        died := true;
      }
    }

    /** The slowed speed is taken from the template speed, not the current one. */
    method ApplySlow(multiplier: real)
      modifies this`currentMoveSpeed
      ensures currentMoveSpeed == data.moveSpeed * multiplier
    {
      currentMoveSpeed := data.moveSpeed * multiplier;
    }

    method ResetSpeed()
      modifies this`currentMoveSpeed
      ensures currentMoveSpeed == data.moveSpeed
    {
      currentMoveSpeed := data.moveSpeed;
    }
  }
}
