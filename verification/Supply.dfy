/** Key supply: prediction, allocation and disposal of key pairs, as functions of the tables. */
module Supply {
  import opened Tables
  import opened Request

  /** The kind of key pair that a policy asks for. */
  datatype Spec = Spec(policy: int, repository: int, size: int, algorithm: int)

  predicate Fits(k: KeyPair, s: Spec) {
    k.policy == s.policy && k.repository == s.repository && k.size == s.size && k.algorithm == s.algorithm
  }

  function NewPair(s: Spec): KeyPair {
    KeyPair(s.policy, s.repository, s.size, s.algorithm, false, false, None, None)
  }

  predicate Allocated(rows: seq<Row>, id: int) {
    exists i :: 0 <= i < |rows| && rows[i].pair == id
  }

  /** A pair that a zone may be given. Unshared: one with no row at all. Shared: one that has no row in this
      zone and is not retired or dead in any zone of the policy. */
  predicate Unallocated(db: Db, s: Spec, zone: int, shared: bool, id: int) {
    && id in db.pairs && Fits(db.pairs[id], s)
    && if shared then
         && (forall i :: 0 <= i < |db.rows| && db.rows[i].pair == id ==> db.rows[i].zone != zone)
         && (forall i :: 0 <= i < |db.rows| && db.rows[i].pair == id ==> db.rows[i].state !in {Retire, Dead})
       else !Allocated(db.rows, id)
  }

  function NewRow(id: int, zone: int, kind: KeyType): Row {
    Row(id, zone, kind, Generate, None, None, None, None, None)
  }

  /** `KsmKeyPredict` for one zone. */
  function Predicted(p: Policy, kind: KeyType, interval: nat, scheme: RollScheme): nat {
    match kind
    case ZSK => (if p.zskLife == 0 then 0 else (interval + p.pubSafety) / p.zskLife) + p.standbyZsks + 1
    case KSK =>
      if p.kskLife == 0 then p.standbyKsks + 1
      else match scheme
        case DoubleDnskey => (interval + p.pubSafety + p.propDelay + p.kskTtl) / p.kskLife + p.standbyKsks + 1
        case DoubleDs => (interval + p.pubSafety + p.kskPropDelay + p.dsTtl) / p.kskLife + p.standbyKsks + 1
        case DoubleRrset => 0
  }

  /** The prediction for a whole policy: nothing without zones; one zone's worth for shared keys. */
  function PredictedFor(p: Policy, kind: KeyType, interval: nat, scheme: RollScheme, shared: bool, zones: nat): nat {
    if zones == 0 then 0
    else if shared then Predicted(p, kind, interval, scheme)
    else Predicted(p, kind, interval, scheme) * zones
  }

  /** Of n keys `standby` stand by, and the others, used one after the other, outlast the time; one fewer would not.
      With an endless lifetime one is enough. */
  predicate Outlasts(n: nat, standby: nat, life: nat, time: nat) {
    if life == 0 then n == 1 + standby
    else n >= 1 + standby && (n - standby - 1) * life <= time < (n - standby) * life
  }

  /** The number of keys that a zone needs until a key made in the next run can be used. */
  predicate Needs(p: Policy, kind: KeyType, interval: nat, scheme: RollScheme, n: nat) {
    if kind.ZSK? then Outlasts(n, p.standbyZsks, p.zskLife, interval + p.pubSafety)
    else if p.kskLife == 0 then n == 1 + p.standbyKsks
    else match scheme
      case DoubleDnskey => Outlasts(n, p.standbyKsks, p.kskLife, interval + p.pubSafety + p.propDelay + p.kskTtl)
      case DoubleDs => Outlasts(n, p.standbyKsks, p.kskLife, interval + p.pubSafety + p.kskPropDelay + p.dsTtl)
      case DoubleRrset => n == 0
  }

  /** The prediction is that number. */
  lemma PredictionIsLeast(p: Policy, kind: KeyType, interval: nat, scheme: RollScheme, n: nat)
    ensures Needs(p, kind, interval, scheme, n) <==> n == Predicted(p, kind, interval, scheme)
  {
    hide Outlasts;
    if kind.ZSK? {
      QuotientOutlasts(n, p.standbyZsks, p.zskLife, interval + p.pubSafety);
    } else {
      QuotientOutlasts(n, p.standbyKsks, p.kskLife, interval + p.pubSafety + p.propDelay + p.kskTtl);
      QuotientOutlasts(n, p.standbyKsks, p.kskLife, interval + p.pubSafety + p.kskPropDelay + p.dsTtl);
    }
  }

  lemma QuotientOutlasts(n: nat, standby: nat, life: nat, time: nat)
    ensures Outlasts(n, standby, life, time) <==> n == (if life == 0 then 0 else time / life) + standby + 1
  {
    if life > 0 && n >= 1 + standby {
      QuotientIsLeast(time, life);
      var q, m := time / life, n - standby - 1;
      if m < q {
        Product(m + 1, q, life);
      } else if q < m {
        Product(q + 1, m, life);
      }
    }
  }

  lemma Product(a: nat, b: nat, life: nat)
    requires a <= b
    ensures a * life <= b * life
  {
  }

  lemma QuotientIsLeast(time: nat, life: nat)
    requires life > 0
    ensures time / life * life <= time < (time / life + 1) * life && time / life >= 0
  {
    var q := time / life;
    assert time == q * life + time % life;
    assert (q + 1) * life == q * life + life;
  }

  const QUEUED: set<State> := {Generate, Publish, Ready, Active, DsSub, DsPublish, DsReady}

  /** How many keys `allocateKeysToZone` wants to add. */
  function AllocationDemand(rows: seq<Row>, kind: KeyType, c: Call, scheme: RollScheme): int {
    Predicted(c.policy, kind, c.interval, scheme)
      - (Count(rows, InStates(c.zone, kind, QUEUED)) - PendingRetire(rows, kind, c))
  }

  /** It is what the zone needs, less its keys from generate to active and in the standby states, plus its active keys
      that retire before a key published after the next run could take over. */
  lemma DemandIs(rows: seq<Row>, kind: KeyType, c: Call, scheme: RollScheme, n: nat)
    requires Needs(c.policy, kind, c.interval, scheme, n)
    ensures
      var p := c.policy;
      var ahead := c.interval + p.pubSafety + if kind.ZSK? then p.zskTtl + p.propDelay else p.kskTtl + p.kskPropDelay;
      var queued := {Generate, Publish, Ready, Active, DsSub, DsPublish, DsReady};
      AllocationDemand(rows, kind, c, scheme)
        == n - Count(rows, InStates(c.zone, kind, queued)) + Count(rows, RetiresBy(c.zone, kind, c.now + ahead))
  {
    hide Count, Needs, Predicted;
    PredictionIsLeast(c.policy, kind, c.interval, scheme, n);
  }

  // ---- Purge ----

  /** Some row of the pair is dead, and none is anything else or died after the limit. */
  predicate Purgeable(db: Db, policy: Option<int>, limit: int, id: int) {
    && id in db.pairs
    && (policy.Some? ==> db.pairs[id].policy == policy.value)
    && (exists i :: 0 <= i < |db.rows| && db.rows[i].pair == id && db.rows[i].state == Dead)
    && (forall i :: 0 <= i < |db.rows| && db.rows[i].pair == id ==> !Blocks(db.rows[i], limit))
  }

  /** A row that keeps its pair from being purged. */
  predicate Blocks(r: Row, limit: int) {
    r.state != Dead || (r.dead.Some? && r.dead.value > limit)
  }

  function PurgeSet(db: Db, policy: Option<int>, limit: int): set<int> {
    set id | id in db.pairs && Purgeable(db, policy, limit, id)
  }

  /** The rows of all other pairs. */
  function Without(rows: seq<Row>, ids: set<int>): seq<Row> {
    if rows == [] then []
    else Without(rows[..|rows| - 1], ids) + if rows[|rows| - 1].pair in ids then [] else [rows[|rows| - 1]]
  }

  function Purged(db: Db, policy: Option<int>, limit: int): Db {
    var ids := PurgeSet(db, policy, limit);
    Db(db.pairs - ids, Without(db.rows, ids))
  }

  lemma {:induction false} WithoutMembers(rows: seq<Row>, ids: set<int>)
    ensures forall r :: r in Without(rows, ids) <==> r in rows && r.pair !in ids
  {
    if rows != [] {
      var front := rows[..|rows| - 1];
      WithoutMembers(front, ids);
      assert rows == front + [rows[|rows| - 1]];
    }
  }

  lemma {:induction false} WithoutUnshared(rows: seq<Row>, ids: set<int>)
    requires Unshared(rows)
    ensures Unshared(Without(rows, ids))
  {
    if rows != [] {
      var front := rows[..|rows| - 1];
      WithoutUnshared(front, ids);
      WithoutMembers(front, ids);
    }
  }

  lemma {:induction false} WithoutUnique(rows: seq<Row>, ids: set<int>)
    requires Unique(rows)
    ensures Unique(Without(rows, ids))
  {
    if rows != [] {
      var front := rows[..|rows| - 1];
      WithoutUnique(front, ids);
      WithoutMembers(front, ids);
    }
  }
}
