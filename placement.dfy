/** Turret placement: the selected turret type, the placement-mode flag, the spacing
    rule and purchase-then-place. The ground raycast, the mouse and keyboard, the
    preview turret and the pooled turret instance are inputs or left out. */
module Placement {
  import opened Common
  import opened GameData
  import opened Pooling
  import opened Match
  import opened Combat

  /** No point of `points` lies strictly nearer to `position` than `minDistance`. */
  predicate ClearOf(position: Vec3, points: seq<Vec3>, minDistance: real, dist: Metric)
  {
    forall i :: 0 <= i < |points| ==> dist(position, points[i]) >= minDistance
  }

  /** Every placed turret is at least `minDistance` from each one placed before it. */
  predicate Spread(placed: seq<Vec3>, minDistance: real, dist: Metric)
  {
    forall i, j :: 0 <= i < j < |placed| ==> dist(placed[j], placed[i]) >= minDistance
  }

  /** Appending a position that is clear of every placed turret keeps the spacing. */
  lemma {:induction false} PlacingKeepsSpread(placed: seq<Vec3>, position: Vec3, minDistance: real, dist: Metric)
    requires Spread(placed, minDistance, dist)
    requires ClearOf(position, placed, minDistance, dist)
    ensures Spread(placed + [position], minDistance, dist)
  {
    var after := placed + [position];
    forall i, j | 0 <= i < j < |after|
      ensures dist(after[j], after[i]) >= minDistance
    {
      if j == |placed| {
        assert after[j] == position && after[i] == placed[i];
      } else {
        assert after[j] == placed[j] && after[i] == placed[i];
      }
    }
  }

  class TurretPlacementSystem {
    const minPlacementDistance: real
    const availableTurrets: seq<TurretData>
    const economy: EconomySystem
    const waveManager: WaveManager?
    const baseDefense: BaseDefense?
    var selectedTurretType: Option<TurretData>
    var isPlacementMode: bool
    var placedTurretPositions: seq<Vec3>

    /** Start: the economy, the wave manager and the base defense are found in the scene
        (either of the last two may be missing); the field values come from the inspector,
        where minPlacementDistance defaults to 2. */
    constructor (minPlacementDistance: real, availableTurrets: seq<TurretData>, economy: EconomySystem,
                 waveManager: WaveManager?, baseDefense: BaseDefense?)
      ensures this.minPlacementDistance == minPlacementDistance && this.availableTurrets == availableTurrets
      ensures this.economy == economy && this.waveManager == waveManager && this.baseDefense == baseDefense
      ensures selectedTurretType.None? && !isPlacementMode && placedTurretPositions == []
      ensures Valid()
    {
      this.minPlacementDistance := minPlacementDistance;
      this.availableTurrets := availableTurrets;
      this.economy := economy;
      this.waveManager := waveManager;
      this.baseDefense := baseDefense;
      selectedTurretType := None;
      isPlacementMode := false;
      placedTurretPositions := [];
    }

    /** Placement mode is only ever on with a turret type selected. */
    ghost predicate Valid()
      reads this
    {
      isPlacementMode ==> selectedTurretType.Some?
    }

    /** The rule CanPlaceTurretAt applies: clear of the placed turrets, of the base when
        there is a BaseDefense, and of the spawn points when there is a WaveManager. */
    predicate Placeable(position: Vec3, dist: Metric)
      reads this
    {
      && ClearOf(position, placedTurretPositions, minPlacementDistance, dist)
      && (baseDefense != null ==> dist(position, baseDefense.GetBasePosition()) >= minPlacementDistance)
      && (waveManager != null ==> ClearOf(position, waveManager.spawnPoints, minPlacementDistance, dist))
    }

    /** SelectTurretType: a missing type changes nothing; otherwise it becomes the selection
        and placement mode goes on. */
    method SelectTurretType(turretData: Option<TurretData>)
      modifies this`selectedTurretType, this`isPlacementMode
      ensures turretData.None? ==> unchanged(this)
      ensures turretData.Some? ==> selectedTurretType == turretData && isPlacementMode
      ensures old(Valid()) ==> Valid()
    {
      if turretData.None? {
        return;
      }
      selectedTurretType := turretData;
      EnterPlacementMode();
    }

    method EnterPlacementMode()
      modifies this`isPlacementMode
      ensures isPlacementMode
    {
      isPlacementMode := true;
    }

    method ExitPlacementMode()
      modifies this`isPlacementMode, this`selectedTurretType
      ensures !isPlacementMode && selectedTurretType.None?
      ensures Valid()
    {
      isPlacementMode := false;
      selectedTurretType := None;
    }

    /** CanPlaceTurretAt: a position is refused as soon as one placed turret, the base or
        a spawn point lies strictly nearer than minPlacementDistance. */
    method CanPlaceTurretAt(position: Vec3, dist: Metric) returns (ok: bool)
      ensures ok == Placeable(position, dist)
    {
      var i := 0;
      while i < |placedTurretPositions|
        invariant 0 <= i <= |placedTurretPositions|
        invariant ClearOf(position, placedTurretPositions[..i], minPlacementDistance, dist)
      {
        if dist(position, placedTurretPositions[i]) < minPlacementDistance {
          return false;
        }
        assert placedTurretPositions[..i + 1] == placedTurretPositions[..i] + [placedTurretPositions[i]];
        i := i + 1;
      }
      assert placedTurretPositions[..i] == placedTurretPositions;
      if baseDefense != null {
        var basePosition := baseDefense.GetBasePosition();
        if dist(position, basePosition) < minPlacementDistance {
          return false;
        }
      }
      if waveManager == null {
        return true;
      }
      var spawnPoints := waveManager.spawnPoints;
      var j := 0;
      while j < |spawnPoints|
        invariant 0 <= j <= |spawnPoints|
        invariant ClearOf(position, spawnPoints[..j], minPlacementDistance, dist)
      {
        if dist(position, spawnPoints[j]) < minPlacementDistance {
          return false;
        }
        assert spawnPoints[..j + 1] == spawnPoints[..j] + [spawnPoints[j]];
        j := j + 1;
      }
      assert spawnPoints[..j] == spawnPoints;
      return true;
    }

    /** What TryPlaceTurret leaves: with a refused position or too few coins nothing
        changes; otherwise the cost is paid, the leased turret stands active at the
        position with the identity rotation, initialised with the selected type, and the
        position is appended to the placed list. */
    twostate predicate PlacedAt(position: Vec3, dist: Metric, leased: Turret)
      reads this, economy.gameManager, leased, leased.gameObject, leased.firePoint
    {
      && selectedTurretType.Some?
      && var cost := selectedTurretType.value.cost;
         if !old(Placeable(position, dist)) || old(economy.gameManager.currentCoins) < cost then
           && placedTurretPositions == old(placedTurretPositions)
           && economy.gameManager.currentCoins == old(economy.gameManager.currentCoins)
           && unchanged(leased, leased.gameObject)
         else
           && economy.gameManager.currentCoins == old(economy.gameManager.currentCoins) - cost
           && placedTurretPositions == old(placedTurretPositions) + [position]
           && leased.gameObject.active && leased.gameObject.position == position
           && leased.gameObject.rotation == Identity
           && leased.turretData == selectedTurretType && leased.Seeded()
    }

    /** TryPlaceTurret. The type is always selected here: the source calls it only in
        placement mode. `leased` is the turret component of the pooled instance. */
    method TryPlaceTurret(position: Vec3, dist: Metric, leased: Turret)
      requires selectedTurretType.Some?
      modifies this`placedTurretPositions, economy.gameManager`currentCoins
      modifies leased`turretData, leased`firePoint, leased`lastFireTime
      modifies leased.gameObject`active, leased.gameObject`position, leased.gameObject`rotation
      ensures PlacedAt(position, dist, leased)
      ensures old(Spread(placedTurretPositions, minPlacementDistance, dist)) ==>
        Spread(placedTurretPositions, minPlacementDistance, dist)
    {
      var ok := CanPlaceTurretAt(position, dist);
      if !ok {
        return;
      }
      var data := selectedTurretType.value;
      if !economy.CanAfford(data.cost) {
        return;
      }
      var purchased := economy.TryPurchase(data.cost);
      if !purchased {
        return;
      }
      leased.gameObject.SetActive(true);
      leased.gameObject.position, leased.gameObject.rotation := position, Identity;
      leased.Initialize(data);
      if Spread(placedTurretPositions, minPlacementDistance, dist) {
        PlacingKeepsSpread(placedTurretPositions, position, minPlacementDistance, dist);
      }
      placedTurretPositions := placedTurretPositions + [position];
    }

    /** ClearAllTurrets over the turrets the scene query returns: the placed list is
        emptied and every turret object deactivated. */
    method ClearAllTurrets(sceneTurrets: seq<Turret>)
      modifies this`placedTurretPositions, (set t | t in sceneTurrets :: t.gameObject)`active
      ensures placedTurretPositions == []
      ensures forall t :: t in sceneTurrets ==> !t.gameObject.active
    {
      placedTurretPositions := [];
      var i := 0;
      while i < |sceneTurrets|
        invariant 0 <= i <= |sceneTurrets|
        invariant placedTurretPositions == []
        invariant forall k :: 0 <= k < i ==> !sceneTurrets[k].gameObject.active
      {
        sceneTurrets[i].gameObject.SetActive(false);
        i := i + 1;
      }
    }

    /** GetAvailableTurrets: a fresh list with the same entries. */
    function GetAvailableTurrets(): (copy: seq<TurretData>)
      ensures |copy| == |availableTurrets|
      ensures forall i :: 0 <= i < |copy| ==> copy[i] == availableTurrets[i]
    {
      availableTurrets
    }
  }
}
