/** Key generation under the capacity of a repository, and the purge of dead keys, on the key tables and the
    keys held by the security modules. */
module Keygen {
  import opened Tables
  import opened Update
  import opened Request
  import opened Supply
  import opened Stock
  import Store = KeyStore

  /** The security modules: for each key its repository. The location of a key pair is its id; keys that
      the enforcer does not know have other locations. `spare` keys can be made before generation fails, and
      the `stuck` keys cannot be removed. */
  class Hsm {
    var keys: map<int, int>
    var spare: nat
    var stuck: set<int>

    constructor (keys: map<int, int>, spare: nat, stuck: set<int>)
      ensures this.keys == keys && this.spare == spare && this.stuck == stuck
    {
      this.keys, this.spare, this.stuck := keys, spare, stuck;
    }

    method Generate(location: int, repository: int) returns (ok: bool)
      requires location !in keys
      modifies this`keys, this`spare
      ensures ok == (old(spare) > 0)
      ensures ok ==> keys == old(keys)[location := repository] && spare == old(spare) - 1
      ensures !ok ==> keys == old(keys) && spare == 0
    {
      ok := spare > 0;
      if ok {
        keys := keys[location := repository];
        spare := spare - 1;
      }
    }

    method Remove(location: int) returns (ok: bool)
      modifies this`keys
      ensures ok == (location in old(keys) && location !in stuck)
      ensures keys == if ok then old(keys) - {location} else old(keys)
    {
      ok := location in keys && location !in stuck;
      if ok {
        keys := keys - {location};
      }
    }
  }

  /** No module holds a key at a location that has still to be handed out. */
  ghost predicate Fresh(keys: map<int, int>, nextId: int) {
    forall k :: k in keys ==> k < nextId
  }

  /** `hsm_count_keys_repository`. */
  function Held(keys: map<int, int>, repository: int): nat {
    |In(keys, repository)|
  }

  function In(keys: map<int, int>, repository: int): set<int> {
    set k | k in keys && keys[k] == repository
  }

  lemma HeldAdd(keys: map<int, int>, location: int, repository: int)
    requires location !in keys
    ensures forall r :: Held(keys[location := repository], r) == Held(keys, r) + if r == repository then 1 else 0
  {
    forall r
      ensures Held(keys[location := repository], r) == Held(keys, r) + if r == repository then 1 else 0
    {
      SizeGrows(In(keys, r), In(keys[location := repository], r), location, r == repository);
    }
  }

  lemma HeldSubset(some: map<int, int>, all: map<int, int>)
    requires forall k :: k in some ==> k in all && all[k] == some[k]
    ensures forall r :: Held(some, r) <= Held(all, r)
  {
    forall r
      ensures Held(some, r) <= Held(all, r)
    {
      assert forall k :: k in In(some, r) ==> k in In(all, r);
      SubsetSize(In(some, r), In(all, r));
    }
  }

  lemma {:induction false} SubsetSize(s: set<int>, t: set<int>)
    requires s <= t
    ensures |s| <= |t|
  {
    assert t == s + (t - s);
  }

  // ---- do_keygen ----

  /** The repository, size and algorithm that a policy asks for. */
  datatype Profile = Profile(repository: int, size: int, algorithm: int)

  /** What `do_keygen` knows of a policy. */
  datatype Plan = Plan(id: int, params: Policy, ksk: Profile, zsk: Profile, shared: bool)

  function SpecOf(p: Plan, kind: KeyType): Spec {
    var profile := if kind.KSK? then p.ksk else p.zsk;
    Spec(p.id, profile.repository, profile.size, profile.algorithm)
  }

  function Horizon(p: Policy, kind: KeyType, now: int, interval: nat): int {
    now + (if kind.ZSK? then PublicationInterval(p) else ParentInterval(p)) + interval
  }

  function Demand(p: Plan, kind: KeyType, interval: nat, zones: nat): nat {
    PredictedFor(p.params, kind, interval, p.params.kskRoll, p.shared, zones)
  }

  /** The repository is unlimited, or not full. */
  predicate HasRoom(keys: map<int, int>, capacity: map<int, nat>, repository: int) {
    repository in capacity && capacity[repository] != 0 ==> Held(keys, repository) < capacity[repository]
  }

  /** No repository of limited capacity has grown beyond it. */
  ghost predicate Contained(before: map<int, int>, after: map<int, int>, capacity: map<int, nat>) {
    forall r :: r in capacity && capacity[r] != 0 ==>
      Held(after, r) <= Held(before, r) || Held(after, r) <= capacity[r]
  }

  /** The number of keys that may be made when `wanted` are needed: all of them, or as many as fill the repository. */
  method Clamp(hsm: Hsm, capacity: map<int, nat>, repository: int, wanted: int) returns (n: int)
    ensures repository !in capacity || capacity[repository] == 0 || wanted < 0 ==> n == wanted
    ensures repository in capacity && capacity[repository] != 0 && wanted >= 0 ==>
      (var room := capacity[repository] - Held(hsm.keys, repository);
       n == if room <= 0 then 0 else if wanted <= room then wanted else room)
  {
    n := wanted;
    var limit := if repository in capacity then capacity[repository] else 0;
    if limit != 0 && n >= 0 {
      var current := Held(hsm.keys, repository);
      if current >= limit {
        n := 0;
      } else if current + n > limit {
        n := limit - current;
      }
    }
  }

  /** Makes n keys of a kind, in the module and in the tables; stops at the first failure. */
  method MakeKeys(store: Store.KeyStore, hsm: Hsm, s: Spec, n: int, supported: set<int>) returns (ok: bool, made: nat)
    requires store.Valid() && Fresh(hsm.keys, store.nextId)
    modifies store`pairs, store`nextId, hsm`keys, hsm`spare
    ensures store.Valid() && Fresh(hsm.keys, store.nextId)
    ensures if n <= 0 then made == 0 else made <= n && (ok ==> made == n)
    ensures ok <==> n <= 0 || (s.algorithm in supported && n <= old(hsm.spare))
    ensures !ok ==> s.algorithm !in supported || hsm.spare == 0
    ensures forall k :: k in old(store.pairs) ==> k in store.pairs && store.pairs[k] == old(store.pairs)[k]
    ensures forall k :: k in store.pairs && k !in old(store.pairs) ==> store.pairs[k] == NewPair(s) && k in hsm.keys
    ensures forall k :: k in old(hsm.keys) ==> k in hsm.keys
    ensures forall r :: Held(hsm.keys, r) == Held(old(hsm.keys), r) + if r == s.repository then made else 0
    ensures forall t, limit ::
      StillGood(store.Tables(), t, limit) == StillGood(old(store.Tables()), t, limit) + if t == s then made else 0
    ensures forall t, limit ::
      |GoodPairs(store.Tables(), t, limit)| == |GoodPairs(old(store.Tables()), t, limit)| + if t == s then made else 0
    ensures forall t :: ZonesOf(store.Tables(), t) == ZonesOf(old(store.Tables()), t)
  {
    hide Held, StillGood, GoodPairs, ZonesOf;
    made := 0;
    while made < n
      invariant store.Valid() && Fresh(hsm.keys, store.nextId)
      invariant made == 0 || made <= n
      invariant hsm.spare == old(hsm.spare) - made
      invariant made > 0 ==> s.algorithm in supported
      invariant forall k :: k in old(store.pairs) ==> k in store.pairs && store.pairs[k] == old(store.pairs)[k]
      invariant forall k :: k in store.pairs && k !in old(store.pairs) ==> store.pairs[k] == NewPair(s) && k in hsm.keys
      invariant forall k :: k in old(hsm.keys) ==> k in hsm.keys
      invariant forall r :: Held(hsm.keys, r) == Held(old(hsm.keys), r) + if r == s.repository then made else 0
      invariant forall t, limit ::
        StillGood(store.Tables(), t, limit) == StillGood(old(store.Tables()), t, limit) + if t == s then made else 0
      invariant forall t, limit ::
        |GoodPairs(store.Tables(), t, limit)| == |GoodPairs(old(store.Tables()), t, limit)| + if t == s then made else 0
      invariant forall t :: ZonesOf(store.Tables(), t) == ZonesOf(old(store.Tables()), t)
    {
      if s.algorithm !in supported {
        return false, made;
      }
      HeldAdd(hsm.keys, store.nextId, s.repository);
      StillGoodAdd(store.Tables(), store.nextId, s);
      GoodPairsAdd(store.Tables(), store.nextId, s);
      forall t
        ensures ZonesOf(store.Tables().(pairs := store.pairs[store.nextId := NewPair(s)]), t)
          == ZonesOf(store.Tables(), t)
      {
        ZonesOfAdd(store.Tables(), store.nextId, s, t);
      }
      var generated := hsm.Generate(store.nextId, s.repository);
      if !generated {
        return false, made;
      }
      var id := store.CreatePair(s);
      made := made + 1;
    }
    ok := true;
  }

  /** With `had` good lines before, what was needed beyond the queue has been made, and what is needed is there: without
      sharing `good` lines; with sharing, where the queue is divided by the number of zones, `pairs` good pairs, if
      pairs of the kind are in no more zones than that. */
  predicate Supplied(had: nat, made: nat, good: nat, pairs: nat, few: bool, need: nat, shared: bool, zones: nat)
    requires zones > 0
  {
    var queue := if shared then had / zones else had;
    && made == (if queue < need then need - queue else 0)
    && (if shared then few ==> pairs >= need else good >= need)
  }

  lemma SuppliedGrows(had: nat, made: nat, good: nat, pairs: nat, few: bool, need: nat, shared: bool, zones: nat,
      more: nat)
    requires zones > 0 && Supplied(had, made, good, pairs, few, need, shared, zones)
    ensures Supplied(had, made, good + more, pairs + more, few, need, shared, zones)
  {
  }

  /** One half of `do_keygen`: if the repository still has room afterwards, the kind is supplied. */
  method GenerateKind(
      store: Store.KeyStore, hsm: Hsm, capacity: map<int, nat>, s: Spec, need: nat, shared: bool, zones: nat,
      limit: int, supported: set<int>)
    returns (ok: bool, made: nat)
    requires store.Valid() && Fresh(hsm.keys, store.nextId) && zones > 0
    modifies store`pairs, store`nextId, hsm`keys, hsm`spare
    ensures store.Valid() && Fresh(hsm.keys, store.nextId)
    ensures forall k :: k in old(store.pairs) ==> k in store.pairs && store.pairs[k] == old(store.pairs)[k]
    ensures forall k :: k in store.pairs && k !in old(store.pairs) ==> store.pairs[k] == NewPair(s) && k in hsm.keys
    ensures forall k :: k in old(hsm.keys) ==> k in hsm.keys
    ensures forall r :: Held(hsm.keys, r) == Held(old(hsm.keys), r) + if r == s.repository then made else 0
    ensures Contained(old(hsm.keys), hsm.keys, capacity)
    ensures forall t, l ::
      StillGood(store.Tables(), t, l) == StillGood(old(store.Tables()), t, l) + if t == s then made else 0
    ensures forall t, l ::
      |GoodPairs(store.Tables(), t, l)| == |GoodPairs(old(store.Tables()), t, l)| + if t == s then made else 0
    ensures forall t :: ZonesOf(store.Tables(), t) == ZonesOf(old(store.Tables()), t)
    ensures !ok ==> s.algorithm !in supported || hsm.spare == 0
    ensures ok && HasRoom(hsm.keys, capacity, s.repository) ==>
      Supplied(StillGood(old(store.Tables()), s, limit), made, StillGood(store.Tables(), s, limit),
               |GoodPairs(store.Tables(), s, limit)|, |ZonesOf(store.Tables(), s)| <= zones, need, shared, zones)
  {
    hide Held, StillGood, GoodPairs, ZonesOf;
    var queue: int := StillGood(store.Tables(), s, limit);
    if shared {
      queue := queue / zones;
      if |ZonesOf(store.Tables(), s)| <= zones {
        PairsCoverLines(store.Tables(), s, limit, zones);
      }
    }
    var n := Clamp(hsm, capacity, s.repository, need - queue);
    ok, made := MakeKeys(store, hsm, s, n, supported);
  }

  /** At every horizon there are so many good lines more of the two kinds, and as many as before of every other. */
  ghost predicate Grown(before: Db, after: Db, s: Spec, m: nat, t: Spec, n: nat) {
    forall u, l ::
      StillGood(after, u, l) == StillGood(before, u, l) + (if u == s then m else 0) + (if u == t then n else 0)
  }

  lemma GrownTwice(a: Db, b: Db, c: Db, s: Spec, m: nat, t: Spec, n: nat)
    requires forall u, l :: StillGood(b, u, l) == StillGood(a, u, l) + if u == s then m else 0
    requires forall u, l :: StillGood(c, u, l) == StillGood(b, u, l) + if u == t then n else 0
    ensures Grown(a, c, s, m, t, n)
  {
    hide StillGood;
  }

  lemma ContainedTrans(a: map<int, int>, b: map<int, int>, c: map<int, int>, capacity: map<int, nat>)
    requires Contained(a, b, capacity) && Contained(b, c, capacity)
    ensures Contained(a, c, capacity)
  {
    hide Held;
  }

  lemma ContainedLess(a: map<int, int>, b: map<int, int>, c: map<int, int>, capacity: map<int, nat>)
    requires Contained(a, b, capacity) && forall r :: Held(c, r) <= Held(b, r)
    ensures Contained(a, c, capacity)
  {
    hide Held;
  }

  lemma ContainedSelf(keys: map<int, int>, capacity: map<int, nat>)
    ensures Contained(keys, keys, capacity)
  {
    hide Held;
  }

  lemma RoomBefore(a: map<int, int>, b: map<int, int>, capacity: map<int, nat>, repository: int)
    requires Held(a, repository) <= Held(b, repository)
    ensures HasRoom(b, capacity, repository) ==> HasRoom(a, capacity, repository)
  {
    hide Held;
  }

  /** What the zones need together when each needs n. */
  function Together(n: nat, shared: bool, zones: nat): nat {
    if shared then n else n * zones
  }

  lemma DemandOf(plan: Plan, kind: KeyType, interval: nat, zones: nat, n: nat)
    requires zones > 0 && Needs(plan.params, kind, interval, plan.params.kskRoll, n)
    ensures Demand(plan, kind, interval, zones) == Together(n, plan.shared, zones)
  {
    hide Needs, Predicted;
    PredictionIsLeast(plan.params, kind, interval, plan.params.kskRoll, n);
  }

  lemma Demands(plan: Plan, interval: nat, zones: nat)
    requires zones > 0
    ensures forall x: nat :: Needs(plan.params, KSK, interval, plan.params.kskRoll, x) ==>
      Demand(plan, KSK, interval, zones) == Together(x, plan.shared, zones)
    ensures forall x: nat, y: nat ::
      (&& Needs(plan.params, KSK, interval, plan.params.kskRoll, x)
       && Needs(plan.params, ZSK, interval, plan.params.kskRoll, y)) ==>
      (Demand(plan, ZSK, interval, zones) + if plan.ksk == plan.zsk then Demand(plan, KSK, interval, zones) else 0)
        == Together(y + if plan.ksk == plan.zsk then x else 0, plan.shared, zones)
  {
    hide Needs, Demand;
    forall x: nat | Needs(plan.params, KSK, interval, plan.params.kskRoll, x)
      ensures Demand(plan, KSK, interval, zones) == Together(x, plan.shared, zones)
    {
      DemandOf(plan, KSK, interval, zones, x);
    }
    forall y: nat | Needs(plan.params, ZSK, interval, plan.params.kskRoll, y)
      ensures Demand(plan, ZSK, interval, zones) == Together(y, plan.shared, zones)
    {
      DemandOf(plan, ZSK, interval, zones, y);
    }
  }

  /** `do_keygen`: when KSKs and ZSKs look the same, the keys needed as KSKs do not count as a supply of ZSKs.
      Every key made is one more good line of its own kind. Let each zone need x KSKs and y ZSKs until a key made in the
      next run can be used. If generation succeeds and the repository still has room, x KSKs and y ZSKs are supplied
      for every zone, or with sharing for all zones together; y + x ZSKs if the two look the same. */
  method GenerateKeys(
      store: Store.KeyStore, hsm: Hsm, capacity: map<int, nat>, plan: Plan, zones: nat, now: int, interval: nat,
      supported: set<int>)
    returns (ok: bool, ksks: nat, zsks: nat)
    requires store.Valid() && Fresh(hsm.keys, store.nextId)
    modifies store`pairs, store`nextId, hsm`keys, hsm`spare
    ensures store.Valid() && Fresh(hsm.keys, store.nextId)
    ensures forall k :: k in old(store.pairs) ==> k in store.pairs && store.pairs[k] == old(store.pairs)[k]
    ensures forall k :: k in store.pairs && k !in old(store.pairs) ==>
      (&& k in hsm.keys
       && (|| store.pairs[k] == KeyPair(plan.id, plan.ksk.repository, plan.ksk.size, plan.ksk.algorithm,
                                        false, false, None, None)
           || store.pairs[k] == KeyPair(plan.id, plan.zsk.repository, plan.zsk.size, plan.zsk.algorithm,
                                        false, false, None, None)))
    ensures forall k :: k in old(hsm.keys) ==> k in hsm.keys
    ensures Contained(old(hsm.keys), hsm.keys, capacity)
    ensures zones == 0 ==> ok && store.pairs == old(store.pairs) && hsm.keys == old(hsm.keys)
    ensures !ok ==> plan.ksk.algorithm !in supported || plan.zsk.algorithm !in supported || hsm.spare == 0
    ensures Grown(old(store.Tables()), store.Tables(),
                  Spec(plan.id, plan.ksk.repository, plan.ksk.size, plan.ksk.algorithm), ksks,
                  Spec(plan.id, plan.zsk.repository, plan.zsk.size, plan.zsk.algorithm), zsks)
    ensures ok && zones > 0 && HasRoom(hsm.keys, capacity, plan.ksk.repository) ==>
      var s := Spec(plan.id, plan.ksk.repository, plan.ksk.size, plan.ksk.algorithm);
      var limit := now + plan.params.kskTtl + plan.params.kskPropDelay + plan.params.pubSafety + interval;
      forall x: nat :: Needs(plan.params, KSK, interval, plan.params.kskRoll, x) ==>
        Supplied(StillGood(old(store.Tables()), s, limit), ksks, StillGood(store.Tables(), s, limit),
                 |GoodPairs(store.Tables(), s, limit)|, |ZonesOf(store.Tables(), s)| <= zones,
                 Together(x, plan.shared, zones), plan.shared, zones)
    ensures ok && zones > 0 && HasRoom(hsm.keys, capacity, plan.zsk.repository) ==>
      var s := Spec(plan.id, plan.zsk.repository, plan.zsk.size, plan.zsk.algorithm);
      var limit := now + plan.params.zskTtl + plan.params.propDelay + plan.params.pubSafety + interval;
      var had := StillGood(old(store.Tables()), s, limit) + if plan.ksk == plan.zsk then ksks else 0;
      forall x: nat, y: nat ::
        (&& Needs(plan.params, KSK, interval, plan.params.kskRoll, x)
         && Needs(plan.params, ZSK, interval, plan.params.kskRoll, y)) ==>
        Supplied(had, zsks, StillGood(store.Tables(), s, limit), |GoodPairs(store.Tables(), s, limit)|,
                 |ZonesOf(store.Tables(), s)| <= zones,
                 Together(y + if plan.ksk == plan.zsk then x else 0, plan.shared, zones), plan.shared, zones)
  {
    hide Together, Held, StillGood, GoodPairs, ZonesOf, Needs, Demand, Fresh, Supplied, Contained, HasRoom, Grown;
    ok, ksks, zsks := true, 0, 0;
    if zones == 0 {
      ContainedSelf(hsm.keys, capacity);
      GrownTwice(store.Tables(), store.Tables(), store.Tables(), SpecOf(plan, KSK), 0, SpecOf(plan, ZSK), 0);
      return;
    }
    var ksk, zsk := SpecOf(plan, KSK), SpecOf(plan, ZSK);
    Demands(plan, interval, zones);
    var needed := Demand(plan, KSK, interval, zones);
    var limit := Horizon(plan.params, KSK, now, interval);
    ok, ksks := GenerateKind(store, hsm, capacity, ksk, needed, plan.shared, zones, limit, supported);
    ghost var mid, keys := store.Tables(), hsm.keys;
    if !ok {
      GrownTwice(old(store.Tables()), mid, mid, ksk, ksks, zsk, 0);
      return;
    }
    var need := Demand(plan, ZSK, interval, zones) + if plan.ksk == plan.zsk then needed else 0;
    ok, zsks := GenerateKind(store, hsm, capacity, zsk, need, plan.shared, zones,
                             Horizon(plan.params, ZSK, now, interval), supported);
    GrownTwice(old(store.Tables()), mid, store.Tables(), ksk, ksks, zsk, zsks);
    ContainedTrans(old(hsm.keys), keys, hsm.keys, capacity);
    RoomBefore(keys, hsm.keys, capacity, plan.ksk.repository);
    if ok && HasRoom(hsm.keys, capacity, plan.ksk.repository) {
      SuppliedGrows(StillGood(old(store.Tables()), ksk, limit), ksks, StillGood(mid, ksk, limit),
                    |GoodPairs(mid, ksk, limit)|, |ZonesOf(mid, ksk)| <= zones, needed, plan.shared, zones,
                    if ksk == zsk then zsks else 0);
    }
  }

  // ---- do_purge ----

  /** `do_purge`: every pair with a dead row is looked at; when no row of it blocks, its rows, the pair and the
      key in the module go. A key that the module does not give up stops the purge, after its rows went. */
  method PurgeKeys(store: Store.KeyStore, hsm: Hsm, policy: Option<int>, now: int, interval: int)
    returns (status: int, ghost gone: set<int>)
    requires store.Valid()
    modifies store`pairs, store`rows, hsm`keys
    ensures store.Valid() && gone <= PurgeSet(old(store.Tables()), policy, now - interval)
    ensures store.Tables() == Db(old(store.pairs) - gone, Without(old(store.rows), gone))
    ensures status == 0 <==> forall k :: Purgeable(old(store.Tables()), policy, now - interval, k) ==>
        k in old(hsm.keys) && k !in hsm.stuck
    ensures status == 0 ==> store.Tables() == Purged(old(store.Tables()), policy, now - interval)
    ensures status == 0 ==> hsm.keys == old(hsm.keys) - PurgeSet(old(store.Tables()), policy, now - interval)
    ensures status != 0 ==> exists k :: k in gone && hsm.keys == old(hsm.keys) - (gone - {k}) && (k in hsm.keys ==>
        k in hsm.stuck)
  {
    hide Blocked, Without, DeadPairs, Blocks;
    var limit := now - interval;
    ghost var was := store.Tables();
    var todo := DeadPairs(store.Tables(), policy);
    gone := {};
    WithoutNothing(store.rows);
    for k := 0 to store.nextId
      invariant store.Valid() && store.nextId == old(store.nextId)
      invariant gone == set j | j in was.pairs && j < k && Purgeable(was, policy, limit, j)
      invariant store.Tables() == Db(was.pairs - gone, Without(was.rows, gone))
      invariant hsm.keys == old(hsm.keys) - gone
      invariant forall j :: j in gone ==> j in old(hsm.keys) && j !in hsm.stuck
    {
      PurgeablePair(was, policy, limit, gone, k);
      if k in todo {
        if !Blocked(store.rows, k, limit) {
          DropPair(was, gone, k);
          store.rows := Without(store.rows, {k});
          store.pairs := store.pairs - {k};
          gone := gone + {k};
          var removed := hsm.Remove(k);
          if !removed {
            assert hsm.keys == old(hsm.keys) - (gone - {k});
            return -1, gone;
          }
        }
      }
    }
    assert gone == PurgeSet(was, policy, limit);
    status := 0;
  }

  /** SELECT DISTINCT id FROM KEYDATA_VIEW WHERE state = 6 AND policy_id = policy. */
  function DeadPairs(db: Db, policy: Option<int>): set<int> {
    set i | 0 <= i < |db.rows| && db.rows[i].state == Dead && db.rows[i].pair in db.pairs
            && (policy.Some? ==> db.pairs[db.rows[i].pair].policy == policy.value) :: db.rows[i].pair
  }

  lemma {:induction false} WithoutNothing(rows: seq<Row>)
    ensures Without(rows, {}) == rows
  {
    if rows != [] {
      WithoutNothing(rows[..|rows| - 1]);
    }
  }

  lemma {:induction false} WithoutMore(rows: seq<Row>, ids: set<int>, k: int)
    ensures Without(Without(rows, ids), {k}) == Without(rows, ids + {k})
  {
    if rows != [] {
      var front, last := rows[..|rows| - 1], rows[|rows| - 1];
      WithoutMore(front, ids, k);
      var rest := Without(front, ids);
      assert Without(rows, ids) == if last.pair in ids then rest else rest + [last];
      assert (rest + [last])[..|rest|] == rest;
    }
  }

  lemma DropPair(db: Db, gone: set<int>, k: int)
    requires Linked(db) && Unique(db.rows)
    ensures Without(Without(db.rows, gone), {k}) == Without(db.rows, gone + {k})
    ensures Linked(Db(db.pairs - (gone + {k}), Without(db.rows, gone + {k}))) && Unique(Without(db.rows, gone + {k}))
    ensures db.pairs - gone - {k} == db.pairs - (gone + {k})
  {
    WithoutMore(db.rows, gone, k);
    WithoutUnique(db.rows, gone + {k});
    WithoutMembers(db.rows, gone + {k});
    var rest := Without(db.rows, gone + {k});
    forall i | 0 <= i < |rest|
      ensures rest[i].pair in db.pairs - (gone + {k})
    {
      assert rest[i] in rest;
    }
  }

  /** Some row keeps the pair from being purged. */
  predicate Blocked(rows: seq<Row>, k: int, limit: int) {
    exists r :: r in rows && r.pair == k && Blocks(r, limit)
  }

  /** Removing other pairs' rows does not change whether a pair may go. */
  lemma PurgeablePair(db: Db, policy: Option<int>, limit: int, gone: set<int>, k: int)
    requires k !in gone
    ensures Purgeable(db, policy, limit, k) <==>
        k in DeadPairs(db, policy) && !Blocked(Without(db.rows, gone), k, limit)
  {
    hide Blocks;
    WithoutMembers(db.rows, gone);
    if k in DeadPairs(db, policy) && !Blocked(Without(db.rows, gone), k, limit) {
      var d :| 0 <= d < |db.rows| && db.rows[d].pair == k && db.rows[d].state == Dead;
      forall i | 0 <= i < |db.rows| && db.rows[i].pair == k
        ensures !Blocks(db.rows[i], limit)
      {
        assert db.rows[i] in Without(db.rows, gone);
      }
    }
  }

  /** Every row of the pair is dead, and has been for long enough where it has a date. */
  predicate LongDead(rows: seq<Row>, k: int, limit: int) {
    forall i :: 0 <= i < |rows| && rows[i].pair == k ==> rows[i].state == Dead && (rows[i].dead.Some? ==>
        rows[i].dead.value <= limit)
  }

  /** What a purge takes and leaves: a pair goes if and only if it belongs to the policy, has been given to a
      zone and is long dead in all of them; no row is left without a pair, and for every zone the keys for the
      signer are the same. */
  lemma PurgeExact(db: Db, policy: Option<int>, limit: int)
    requires Linked(db)
    ensures forall k :: k in db.pairs ==>
      (k !in Purged(db, policy, limit).pairs <==>
        (policy.Some? ==> db.pairs[k].policy == policy.value) && Allocated(db.rows, k) && LongDead(db.rows, k, limit))
    ensures forall k :: k in Purged(db, policy, limit).pairs ==>
        k in db.pairs && Purged(db, policy, limit).pairs[k] == db.pairs[k]
    ensures Linked(Purged(db, policy, limit))
    ensures forall kind, zone :: Issue(Purged(db, policy, limit).rows, kind, zone) == Issue(db.rows, kind, zone)
  {
    var ids := PurgeSet(db, policy, limit);
    forall k | k in db.pairs
      ensures Purgeable(db, policy, limit, k) <==>
        (policy.Some? ==> db.pairs[k].policy == policy.value) && Allocated(db.rows, k) && LongDead(db.rows, k, limit)
    {
      PurgeableMeans(db, policy, limit, k);
    }
    WithoutMembers(db.rows, ids);
    var rest := Without(db.rows, ids);
    forall i | 0 <= i < |rest|
      ensures rest[i].pair in db.pairs - ids
    {
      assert rest[i] in rest;
    }
    forall kind, zone
      ensures Issue(rest, kind, zone) == Issue(db.rows, kind, zone)
    {
      forall i | 0 <= i < |db.rows| && db.rows[i].pair in ids
        ensures db.rows[i].state == Dead
      {
        assert !Blocks(db.rows[i], limit);
      }
      IssueWithout(db.rows, ids, kind, zone);
    }
  }

  lemma PurgeableMeans(db: Db, policy: Option<int>, limit: int, k: int)
    requires k in db.pairs
    ensures Purgeable(db, policy, limit, k) <==>
      (policy.Some? ==> db.pairs[k].policy == policy.value) && Allocated(db.rows, k) && LongDead(db.rows, k, limit)
  {
    if Purgeable(db, policy, limit, k) {
      forall i | 0 <= i < |db.rows| && db.rows[i].pair == k
        ensures db.rows[i].state == Dead && (db.rows[i].dead.Some? ==> db.rows[i].dead.value <= limit)
      {
        assert !Blocks(db.rows[i], limit);
      }
    }
    if Allocated(db.rows, k) && LongDead(db.rows, k, limit) {
      var i :| 0 <= i < |db.rows| && db.rows[i].pair == k;
      assert db.rows[i].state == Dead;
    }
  }

  lemma {:induction false} IssueWithout(rows: seq<Row>, ids: set<int>, kind: KeyType, zone: int)
    requires forall i :: 0 <= i < |rows| && rows[i].pair in ids ==> rows[i].state == Dead
    ensures Issue(Without(rows, ids), kind, zone) == Issue(rows, kind, zone)
  {
    if rows != [] {
      var front, last := rows[..|rows| - 1], rows[|rows| - 1];
      IssueWithout(front, ids, kind, zone);
      var rest := Without(front, ids);
      assert Without(rows, ids) == if last.pair in ids then rest else rest + [last];
      assert (rest + [last])[..|rest|] == rest;
    }
  }

  // ---- The daemon's loop over the policies ----

  /** One policy's turn: generation unless it is manual, then the purge if the policy asks for one. */
  datatype Turn = Turn(plan: Plan, zones: nat, now: int, interval: nat, manual: bool, purge: Option<int>)

  /** The turn's policy has what it needs: every one of its zones x KSKs and y ZSKs, in good lines. */
  ghost predicate HasEnough(db: Db, t: Turn) {
    var p := t.plan.params;
    var same := t.plan.ksk == t.plan.zsk;
    forall x: nat, y: nat ::
      (&& Needs(p, KSK, t.interval, p.kskRoll, x)
       && Needs(p, ZSK, t.interval, p.kskRoll, y)) ==>
      && StillGood(db, Spec(t.plan.id, t.plan.ksk.repository, t.plan.ksk.size, t.plan.ksk.algorithm),
                   t.now + p.kskTtl + p.kskPropDelay + p.pubSafety + t.interval)
           >= x * t.zones
      && StillGood(db, Spec(t.plan.id, t.plan.zsk.repository, t.plan.zsk.size, t.plan.zsk.algorithm),
                   t.now + p.zskTtl + p.propDelay + p.pubSafety + t.interval)
           >= (y + if same then x else 0) * t.zones
  }

  /** Generation happens in the turn, for zones of their own and from repositories without limit. */
  predicate Generates(t: Turn, capacity: map<int, nat>) {
    && !t.manual && t.zones > 0 && !t.plan.shared
    && (t.plan.ksk.repository in capacity ==> capacity[t.plan.ksk.repository] == 0)
    && (t.plan.zsk.repository in capacity ==> capacity[t.plan.zsk.repository] == 0)
  }

  /** No pair of the turn's policy is left that its purge would take. */
  ghost predicate Clean(db: Db, t: Turn) {
    t.purge.Some? ==> NothingToPurge(db, Some(t.plan.id), t.now - t.purge.value)
  }

  ghost predicate NothingToPurge(db: Db, policy: Option<int>, limit: int) {
    forall k :: !Purgeable(db, policy, limit, k)
  }

  lemma EnoughGrows(a: Db, b: Db, t: Turn)
    requires HasEnough(a, t) && forall s, l :: StillGood(a, s, l) <= StillGood(b, s, l)
    ensures HasEnough(b, t)
  {
    hide StillGood, Needs;
  }

  /** New pairs have no rows: a purge has nothing to take from them. */
  lemma CleanGrows(a: Db, b: Db, t: Turn)
    requires Linked(a) && Clean(a, t) && b.rows == a.rows
    requires forall k :: k in a.pairs ==> k in b.pairs && b.pairs[k] == a.pairs[k]
    ensures Clean(b, t)
  {
    if t.purge.Some? {
      var policy, limit := Some(t.plan.id), t.now - t.purge.value;
      forall k
        ensures !Purgeable(b, policy, limit, k)
      {
        assert !Purgeable(a, policy, limit, k);
      }
    }
  }

  /** What a purge leaves, whole or partial, was not for another purge to take unless it was before. */
  lemma PurgeableStays(db: Db, gone: set<int>, policy: Option<int>, limit: int, k: int)
    requires Purgeable(Db(db.pairs - gone, Without(db.rows, gone)), policy, limit, k)
    ensures k !in gone && Purgeable(db, policy, limit, k)
  {
    hide Blocks;
    WithoutMembers(db.rows, gone);
    var rest := Without(db.rows, gone);
    var d :| 0 <= d < |rest| && rest[d].pair == k && rest[d].state == Dead;
    assert rest[d] in rest;
    forall i | 0 <= i < |db.rows| && db.rows[i].pair == k
      ensures !Blocks(db.rows[i], limit)
    {
      assert db.rows[i] in rest;
    }
  }

  lemma {:induction false} GoodRowsWithout(pairs: map<int, KeyPair>, rows: seq<Row>, gone: set<int>, s: Spec,
      limit: int)
    requires forall i :: 0 <= i < |rows| && rows[i].pair in gone ==> rows[i].state == Dead
    ensures GoodRows(pairs - gone, Without(rows, gone), s, limit) == GoodRows(pairs, rows, s, limit)
  {
    if rows != [] {
      var front, last := rows[..|rows| - 1], rows[|rows| - 1];
      GoodRowsWithout(pairs, front, gone, s, limit);
      var rest := Without(front, gone);
      assert Without(rows, gone) == if last.pair in gone then rest else rest + [last];
      assert (rest + [last])[..|rest|] == rest;
    }
  }

  /** A purge, whole or partial, leaves every good line. */
  lemma PurgeKeepsGood(db: Db, policy: Option<int>, limit: int, gone: set<int>)
    requires gone <= PurgeSet(db, policy, limit)
    ensures forall s, l :: StillGood(Db(db.pairs - gone, Without(db.rows, gone)), s, l) == StillGood(db, s, l)
  {
    var after := Db(db.pairs - gone, Without(db.rows, gone));
    forall i | 0 <= i < |db.rows| && db.rows[i].pair in gone
      ensures db.rows[i].state == Dead
    {
      assert !Blocks(db.rows[i], limit);
    }
    WithoutMembers(db.rows, gone);
    forall s, l
      ensures StillGood(after, s, l) == StillGood(db, s, l)
    {
      GoodRowsWithout(db.pairs, db.rows, gone, s, l);
      forall k
        ensures k in Free(after, s) <==> k in Free(db, s)
      {
        AllocatedWithout(db.rows, gone, k);
      }
      assert Free(after, s) == Free(db, s);
    }
  }

  lemma AllocatedWithout(rows: seq<Row>, gone: set<int>, k: int)
    ensures k !in gone ==> (Allocated(Without(rows, gone), k) <==> Allocated(rows, k))
  {
    WithoutMembers(rows, gone);
    var rest := Without(rows, gone);
    if i :| 0 <= i < |rows| && rows[i].pair == k && k !in gone {
      assert rows[i] in rest;
    }
    if i :| 0 <= i < |rest| && rest[i].pair == k {
      assert rest[i] in rest;
    }
  }

  /** The modules have the keys of all pairs, and give them up. */
  ghost predicate GivesUp(pairs: map<int, KeyPair>, keys: map<int, int>, stuck: set<int>) {
    forall k :: k !in stuck && (k in pairs ==> k in keys)
  }

  /** Generation in one turn. */
  method GenerateInTurn(store: Store.KeyStore, hsm: Hsm, capacity: map<int, nat>, t: Turn, supported: set<int>)
    returns (ok: bool)
    requires store.Valid() && Fresh(hsm.keys, store.nextId)
    modifies store`pairs, store`nextId, hsm`keys, hsm`spare
    ensures store.Valid() && Fresh(hsm.keys, store.nextId)
    ensures Contained(old(hsm.keys), hsm.keys, capacity)
    ensures !ok ==> t.plan.ksk.algorithm !in supported || t.plan.zsk.algorithm !in supported || hsm.spare == 0
    ensures ok && Generates(t, capacity) ==> HasEnough(store.Tables(), t)
    ensures forall u :: HasEnough(old(store.Tables()), u) ==> HasEnough(store.Tables(), u)
    ensures forall u :: Clean(old(store.Tables()), u) ==> Clean(store.Tables(), u)
    ensures GivesUp(old(store.pairs), old(hsm.keys), hsm.stuck) ==> GivesUp(store.pairs, hsm.keys, hsm.stuck)
  {
    hide Held, HasEnough, Clean, Contained, StillGood, Grown, GoodPairs, ZonesOf;
    ghost var before := store.Tables();
    var ksks, zsks;
    ok, ksks, zsks := GenerateKeys(store, hsm, capacity, t.plan, t.zones, t.now, t.interval, supported);
    forall u | HasEnough(before, u)
      ensures HasEnough(store.Tables(), u)
    {
      GrownMore(before, store.Tables(), SpecOf(t.plan, KSK), ksks, SpecOf(t.plan, ZSK), zsks);
      EnoughGrows(before, store.Tables(), u);
    }
    forall u | Clean(before, u)
      ensures Clean(store.Tables(), u)
    {
      CleanGrows(before, store.Tables(), u);
    }
    if ok && Generates(t, capacity) {
      EnoughMade(store.Tables(), t);
    }
  }

  lemma EnoughMade(db: Db, t: Turn)
    requires
      var p := t.plan.params;
      var ksk := Spec(t.plan.id, t.plan.ksk.repository, t.plan.ksk.size, t.plan.ksk.algorithm);
      var zsk := Spec(t.plan.id, t.plan.zsk.repository, t.plan.zsk.size, t.plan.zsk.algorithm);
      && (forall x: nat :: Needs(p, KSK, t.interval, p.kskRoll, x) ==>
            StillGood(db, ksk, t.now + p.kskTtl + p.kskPropDelay + p.pubSafety + t.interval)
              >= Together(x, false, t.zones))
      && (forall x: nat, y: nat ::
            Needs(p, KSK, t.interval, p.kskRoll, x) && Needs(p, ZSK, t.interval, p.kskRoll, y) ==>
              StillGood(db, zsk, t.now + p.zskTtl + p.propDelay + p.pubSafety + t.interval)
                >= Together(y + if t.plan.ksk == t.plan.zsk then x else 0, false, t.zones))
    ensures HasEnough(db, t)
  {
    hide StillGood, Needs;
  }

  lemma GrownMore(a: Db, b: Db, s: Spec, m: nat, t: Spec, n: nat)
    requires Grown(a, b, s, m, t, n)
    ensures forall u, l :: StillGood(a, u, l) <= StillGood(b, u, l)
  {
    hide StillGood;
  }

  lemma PurgeableIsPair(db: Db, policy: Option<int>, limit: int, k: int)
    requires Purgeable(db, policy, limit, k)
    ensures k in db.pairs
  {
  }

  lemma TakenAll(before: Db, after: Db, policy: Option<int>, limit: int)
    requires after == Purged(before, policy, limit)
    ensures NothingToPurge(after, policy, limit)
  {
    hide Purgeable, Without;
    var gone := PurgeSet(before, policy, limit);
    forall k
      ensures !Purgeable(after, policy, limit, k)
    {
      if Purgeable(after, policy, limit, k) {
        PurgeableStays(before, gone, policy, limit, k);
        PurgeableIsPair(before, policy, limit, k);
      }
    }
  }

  /** The purge in one turn. */
  method PurgeInTurn(store: Store.KeyStore, hsm: Hsm, t: Turn)
    requires store.Valid() && Fresh(hsm.keys, store.nextId)
    modifies store`pairs, store`rows, hsm`keys
    ensures store.Valid() && Fresh(hsm.keys, store.nextId)
    ensures forall r :: Held(hsm.keys, r) <= Held(old(hsm.keys), r)
    ensures forall kind, zone :: Issue(store.rows, kind, zone) == Issue(old(store.rows), kind, zone)
    ensures forall u :: HasEnough(old(store.Tables()), u) ==> HasEnough(store.Tables(), u)
    ensures forall u :: Clean(old(store.Tables()), u) ==> Clean(store.Tables(), u)
    ensures GivesUp(old(store.pairs), old(hsm.keys), hsm.stuck) ==>
      GivesUp(store.pairs, hsm.keys, hsm.stuck) && Clean(store.Tables(), t)
  {
    hide Held, HasEnough, StillGood, Without, Issue, Purgeable;
    if t.purge.None? {
      return;
    }
    ghost var before, keys := store.Tables(), hsm.keys;
    ghost var limit, policy := t.now - t.purge.value, Some(t.plan.id);
    ghost var gone;
    var status;
    status, gone := PurgeKeys(store, hsm, Some(t.plan.id), t.now, t.purge.value);
    HeldSubset(hsm.keys, keys);
    PartialPurgeKeepsIssue(before, policy, limit, gone);
    PurgeKeepsGood(before, policy, limit, gone);
    forall u | HasEnough(before, u)
      ensures HasEnough(store.Tables(), u)
    {
      EnoughGrows(before, store.Tables(), u);
    }
    forall p, l, k | Purgeable(store.Tables(), p, l, k)
      ensures k !in gone && Purgeable(before, p, l, k)
    {
      PurgeableStays(before, gone, p, l, k);
    }
    if GivesUp(before.pairs, keys, hsm.stuck) {
      forall k | Purgeable(before, policy, limit, k)
        ensures k in keys && k !in hsm.stuck
      {
        PurgeableIsPair(before, policy, limit, k);
      }
      assert status == 0;
      TakenAll(before, store.Tables(), policy, limit);
    }
  }

  /** However many turns are taken: no limited repository ever grows beyond its capacity, rows keep their pairs, and no
      zone loses a key that the signer is given. Only a failing generation ends the turns early. After them every
      policy whose turn was taken has what it needs, if its repositories are without limit, whatever was purged since;
      and if the modules have all the keys and give them up, no pair is left that a purge of a turn would take. */
  method TakeTurns(store: Store.KeyStore, hsm: Hsm, capacity: map<int, nat>, turns: seq<Turn>, supported: set<int>)
    returns (done: nat)
    requires store.Valid() && Fresh(hsm.keys, store.nextId)
    modifies store, hsm`keys, hsm`spare
    ensures store.Valid() && Fresh(hsm.keys, store.nextId)
    ensures Contained(old(hsm.keys), hsm.keys, capacity)
    ensures forall kind, zone :: Issue(store.rows, kind, zone) == Issue(old(store.rows), kind, zone)
    ensures done <= |turns|
    ensures done < |turns| ==>
      (&& !turns[done].manual
       && (|| turns[done].plan.ksk.algorithm !in supported || turns[done].plan.zsk.algorithm !in supported
           || hsm.spare == 0))
    ensures forall i :: 0 <= i < done && Generates(turns[i], capacity) ==> HasEnough(store.Tables(), turns[i])
    ensures GivesUp(old(store.pairs), old(hsm.keys), hsm.stuck) ==>
      forall i :: 0 <= i < done ==> Clean(store.Tables(), turns[i])
  {
    hide Held, HasEnough, Clean, Contained, Fresh;
    ghost var free := GivesUp(store.pairs, hsm.keys, hsm.stuck);
    ContainedSelf(hsm.keys, capacity);
    for i := 0 to |turns|
      invariant store.Valid() && Fresh(hsm.keys, store.nextId)
      invariant Contained(old(hsm.keys), hsm.keys, capacity)
      invariant forall kind, zone :: Issue(store.rows, kind, zone) == Issue(old(store.rows), kind, zone)
      invariant forall j :: 0 <= j < i && Generates(turns[j], capacity) ==> HasEnough(store.Tables(), turns[j])
      invariant free ==> GivesUp(store.pairs, hsm.keys, hsm.stuck)
      invariant free ==> forall j :: 0 <= j < i ==> Clean(store.Tables(), turns[j])
    {
      var t := turns[i];
      ghost var keys := hsm.keys;
      if !t.manual {
        var ok := GenerateInTurn(store, hsm, capacity, t, supported);
        ContainedTrans(old(hsm.keys), keys, hsm.keys, capacity);
        if !ok {
          return i;
        }
      }
      ghost var made := hsm.keys;
      PurgeInTurn(store, hsm, t);
      ContainedLess(old(hsm.keys), made, hsm.keys, capacity);
    }
    done := |turns|;
  }

  lemma PartialPurgeKeepsIssue(db: Db, policy: Option<int>, limit: int, gone: set<int>)
    requires gone <= PurgeSet(db, policy, limit)
    ensures forall kind, zone :: Issue(Without(db.rows, gone), kind, zone) == Issue(db.rows, kind, zone)
  {
    forall kind, zone
      ensures Issue(Without(db.rows, gone), kind, zone) == Issue(db.rows, kind, zone)
    {
      forall i | 0 <= i < |db.rows| && db.rows[i].pair in gone
        ensures db.rows[i].state == Dead
      {
        assert !Blocks(db.rows[i], limit);
      }
      IssueWithout(db.rows, gone, kind, zone);
    }
  }
}
