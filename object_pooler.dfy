/** Scene objects and the per-prefab pool that hands them out, growing on demand
    instead of failing. */
module Pooling {
  import opened Common

  /** An engine object: the prefab it was made from, whether it is active, and where it is. */
  class GameObject {
    const name: string
    var active: bool
    var position: Vec3
    var rotation: Quat

    /** Instantiate: a new, inactive copy of the named prefab. */
    constructor (name: string)
      ensures this.name == name && !active && position == Origin && rotation == Identity
    {
      this.name := name;
      active := false;
      position, rotation := Origin, Identity;
    }

    method SetActive(value: bool)
      modifies this`active
      ensures active == value
    {
      active := value;
    }
  }

  /** One registration: a prefab and how many copies to make up front. */
  datatype Pool = Pool(prefabName: string, size: int)

  /** The number of registrations that complete before Dictionary.Add throws on the first
      repeated name (all of them when the names are distinct). */
  function RegisteredCount(pools: seq<Pool>): (k: nat)
    ensures k <= |pools|
    ensures forall i, j :: 0 <= i < j < k ==> pools[i].prefabName != pools[j].prefabName
    ensures k < |pools| ==> exists i :: 0 <= i < k && pools[i].prefabName == pools[k].prefabName
  {
    RegisteredFrom(pools, 0)
  }

  function RegisteredFrom(pools: seq<Pool>, k: nat): (r: nat)
    requires k <= |pools|
    requires forall i, j :: 0 <= i < j < k ==> pools[i].prefabName != pools[j].prefabName
    ensures k <= r <= |pools|
    ensures forall i, j :: 0 <= i < j < r ==> pools[i].prefabName != pools[j].prefabName
    ensures r < |pools| ==> exists i :: 0 <= i < r && pools[i].prefabName == pools[r].prefabName
    decreases |pools| - k
  {
    if k == |pools| then k
    else if exists i :: 0 <= i < k && pools[i].prefabName == pools[k].prefabName then k
    else RegisteredFrom(pools, k + 1)
  }

  /** No object appears twice across the queues of a pool dictionary. */
  ghost predicate Disjoint(dict: map<string, seq<GameObject>>)
  {
    forall n1, n2, i, j ::
      (n1 in dict && n2 in dict && 0 <= i < |dict[n1]| && 0 <= j < |dict[n2]| && (n1 != n2 || i != j))
      ==> dict[n1][i] != dict[n2][j]
  }

  /** Registering a new name whose queue repeats nothing and shares nothing keeps the
      dictionary free of repeats. */
  lemma DisjointAdd(dict: map<string, seq<GameObject>>, name: string, queue: seq<GameObject>)
    requires Disjoint(dict) && name !in dict
    requires forall a, b :: 0 <= a < b < |queue| ==> queue[a] != queue[b]
    requires forall a, n, b :: 0 <= a < |queue| && n in dict && 0 <= b < |dict[n]| ==> queue[a] != dict[n][b]
    ensures Disjoint(dict[name := queue])
  {
  }

  /** ObjectPooler: for every registered prefab name, a FIFO queue of spare objects. */
  class ObjectPooler {
    const pools: seq<Pool>
    var poolDictionary: map<string, seq<GameObject>>

    /** Every registered name comes from the configuration. */
    ghost predicate Valid()
      reads this
    {
      forall n :: n in poolDictionary ==> exists j :: 0 <= j < |pools| && pools[j].prefabName == n
    }

    /** No object sits in two places of the pool at once. */
    ghost predicate NoObjectTwice()
      reads this
    {
      Disjoint(poolDictionary)
    }

    /** Awake: registers the configured pools in order, creating `size` inactive copies of
        each prefab. A repeated name makes Dictionary.Add throw, which ends the loop with the
        earlier registrations kept. */
    constructor Awake(pools: seq<Pool>)
      ensures this.pools == pools
      ensures Valid() && NoObjectTwice()
      ensures poolDictionary.Keys == set j | 0 <= j < RegisteredCount(pools) :: pools[j].prefabName
      ensures forall j :: 0 <= j < RegisteredCount(pools) ==>
        |poolDictionary[pools[j].prefabName]| == FloorAtZero(pools[j].size)
      ensures forall n, i :: n in poolDictionary && 0 <= i < |poolDictionary[n]| ==>
        fresh(poolDictionary[n][i]) && !poolDictionary[n][i].active && poolDictionary[n][i].name == n
    {
      this.pools := pools;
      var k := RegisteredCount(pools);
      var dict := ObjectPooler.Registrations(pools, k);
      poolDictionary := dict;
      new;
      forall n | n in poolDictionary
        ensures exists j :: 0 <= j < |pools| && pools[j].prefabName == n
      {
        var j :| 0 <= j < k && pools[j].prefabName == n;
      }
    }

    /** The loop of Awake over the first `k` pools, whose names are distinct. */
    static method Registrations(pools: seq<Pool>, k: nat) returns (dict: map<string, seq<GameObject>>)
      requires k <= |pools|
      requires forall i, j :: 0 <= i < j < k ==> pools[i].prefabName != pools[j].prefabName
      ensures dict.Keys == set j | 0 <= j < k :: pools[j].prefabName
      ensures forall j :: 0 <= j < k ==> |dict[pools[j].prefabName]| == FloorAtZero(pools[j].size)
      ensures forall n, i :: n in dict && 0 <= i < |dict[n]| ==>
        fresh(dict[n][i]) && !dict[n][i].active && dict[n][i].name == n
      ensures Disjoint(dict)
    {
      dict := map[];
      var p := 0;
      while p < k
        invariant 0 <= p <= k
        invariant dict.Keys == set j | 0 <= j < p :: pools[j].prefabName
        invariant forall j :: 0 <= j < p ==> |dict[pools[j].prefabName]| == FloorAtZero(pools[j].size)
        invariant forall n, i :: n in dict && 0 <= i < |dict[n]| ==>
          fresh(dict[n][i]) && !dict[n][i].active && dict[n][i].name == n
        invariant Disjoint(dict)
      {
        var name := pools[p].prefabName;
        assert name !in dict;
        ghost var prev := dict;
        dict := AddSpares(dict, name, pools[p].size);
        forall j | 0 <= j < p
          ensures dict[pools[j].prefabName] == prev[pools[j].prefabName]
        {
          assert pools[j].prefabName in prev;
        }
        p := p + 1;
      }
    }

    /** One registration of Awake: a queue of `size` new inactive copies of the prefab
        `name`, added under that name. */
    static method AddSpares(dict: map<string, seq<GameObject>>, name: string, size: int)
      returns (d: map<string, seq<GameObject>>)
      requires Disjoint(dict) && name !in dict
      ensures d.Keys == dict.Keys + {name} && forall n :: n in dict ==> d[n] == dict[n]
      ensures |d[name]| == FloorAtZero(size)
      ensures forall a :: 0 <= a < |d[name]| ==> fresh(d[name][a]) && !d[name][a].active && d[name][a].name == name
      ensures Disjoint(d)
    {
      var queue := MakeSpares(name, size);
      DisjointAdd(dict, name, queue);
      d := dict[name := queue];
    }

    /** The inner loop of Awake: `size` new inactive copies of one prefab. */
    static method MakeSpares(name: string, size: int) returns (queue: seq<GameObject>)
      ensures |queue| == FloorAtZero(size)
      ensures forall a :: 0 <= a < |queue| ==> fresh(queue[a]) && !queue[a].active && queue[a].name == name
      ensures forall a, b :: 0 <= a < b < |queue| ==> queue[a] != queue[b]
    {
      queue := [];
      var i := 0;
      while i < size
        invariant 0 <= i && |queue| == i
        invariant i <= FloorAtZero(size)
        invariant forall a :: 0 <= a < |queue| ==> fresh(queue[a]) && !queue[a].active && queue[a].name == name
        invariant forall a, b :: 0 <= a < b < |queue| ==> queue[a] != queue[b]
      {
        var obj := new GameObject(name);
        queue := queue + [obj];
        i := i + 1;
      }
    }

    /** The object SpawnFromPool would dequeue for `name`, if any. */
    ghost function Front(name: string): set<GameObject>
      reads this
    {
      if name in poolDictionary && |poolDictionary[name]| > 0 then {poolDictionary[name][0]} else {}
    }

    /** An unknown name yields null; otherwise the front spare is dequeued, or a new object
        is made when the queue is empty, and it is activated and placed. */
    method SpawnFromPool(name: string, position: Vec3, rotation: Quat) returns (obj: GameObject?)
      requires Valid()
      modifies this`poolDictionary, Front(name)
      ensures Valid()
      ensures old(NoObjectTwice()) ==> NoObjectTwice()
      ensures name !in old(poolDictionary) ==> obj == null && poolDictionary == old(poolDictionary)
      ensures name in old(poolDictionary) ==>
        obj != null && obj.active && obj.position == position && obj.rotation == rotation
      ensures name in old(poolDictionary) && |old(poolDictionary[name])| > 0 ==>
        obj == old(poolDictionary[name][0]) &&
        poolDictionary == old(poolDictionary)[name := old(poolDictionary[name])[1..]]
      ensures name in old(poolDictionary) && |old(poolDictionary[name])| == 0 ==>
        fresh(obj) && obj.name == name && poolDictionary == old(poolDictionary)
    {
      if name !in poolDictionary {
        return null;
      }
      var queue := poolDictionary[name];
      if |queue| > 0 {
        obj := queue[0];
        poolDictionary := poolDictionary[name := queue[1..]];
        assert forall n, i :: n in poolDictionary && 0 <= i < |poolDictionary[n]| ==>
          poolDictionary[n][i] == if n == name then queue[i + 1] else old(poolDictionary)[n][i];
      } else {
        var j :| 0 <= j < |pools| && pools[j].prefabName == name;
        obj := new GameObject(pools[j].prefabName);
      }
      obj.active := true;
      obj.position, obj.rotation := position, rotation;
    }

    /** What is queued for every name, other than the object being returned. */
    ghost predicate Queued(obj: GameObject)
      reads this
    {
      exists n, i :: n in poolDictionary && 0 <= i < |poolDictionary[n]| && poolDictionary[n][i] == obj
    }

    /** Deactivates the object and puts it at the back of its name's queue. An unknown
        name makes the dictionary lookup throw after the deactivation: the object stays
        inactive, nothing is queued, and `registered` is false. */
    method ReturnToPool(name: string, obj: GameObject) returns (registered: bool)
      requires Valid()
      modifies this`poolDictionary, obj`active
      ensures Valid()
      ensures !obj.active
      ensures registered == (name in old(poolDictionary))
      ensures registered ==> poolDictionary == old(poolDictionary)[name := old(poolDictionary[name]) + [obj]]
      ensures !registered ==> poolDictionary == old(poolDictionary)
      ensures old(NoObjectTwice()) && !old(Queued(obj)) ==> NoObjectTwice()
    {
      obj.SetActive(false);
      registered := name in poolDictionary;
      if registered {
        var queue := poolDictionary[name];
        poolDictionary := poolDictionary[name := queue + [obj]];
        assert forall n, i :: n in poolDictionary && 0 <= i < |poolDictionary[n]| ==>
          poolDictionary[n][i] == if n == name && i == |queue| then obj else old(poolDictionary)[n][i];
      }
    }
  }
}
