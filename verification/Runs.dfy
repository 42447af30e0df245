/** Whole runs of the enforcer: requests interleaved with key creation, allocation, operator commands, backup
    and purge, and what holds in every state they reach. */
module Runs {
  import opened Tables
  import opened Update
  import opened Request
  import opened Invariant
  import opened Lifeline
  import opened Supply
  import opened KeyRoll
  import Zsk
  import Ksk
  import Backup

  /** The tables, the clock, the key lists issued so far, the next key pair id, and the keys that a roll command
      has moved to keypublish. */
  datatype World = World(db: Db, clock: int, log: seq<KeyList>, nextId: int, rushed: set<int>)

  datatype Event =
    | KeyRequest(kinds: Kinds, rollover: bool, call: Call, newDs: bool)
    | Create(spec: Spec)
    | Allocate(zone: int, kind: KeyType, id: int)
    | DsSeen(zone: int, id: int, now: int, policy: Policy)
    | RetireOld(zone: int, id: int, now: int, policy: Policy)
    | Roll(targets: RollScope, now: int, loose: set<int>)
    | Prepare(scope: Backup.Scope, now: int)
    | Rollback(scope: Backup.Scope)
    | Commit(scope: Backup.Scope, now: int)
    | Purge(owner: Option<int>, limit: int)

  predicate IsKey(r: Row, zone: int, id: int) {
    r.zone == zone && r.pair == id
  }

  /** The `ds-seen` command: the DS record of a ready or submitted KSK has been observed. */
  function SeenRow(r: Row, now: int, p: Policy): Row {
    if r.state == Ready then r.(state := Active, active := Some(now), retire := Some(now + p.kskLife))
    else r.(state := DsPublish, publish := Some(now), ready := Some(now + ParentInterval(p)))
  }

  function RetiredRow(r: Row, now: int, p: Policy): Row {
    r.(state := Retire, retire := Some(now), dead := Some(now + RetireInterval(p, KSK)))
  }

  predicate Enabled(w: World, e: Event) {
    match e
    case KeyRequest(_, _, c, _) => w.clock <= c.now
    case Create(_) => true
    case Allocate(_, _, id) => id in w.db.pairs && !Allocated(w.db.rows, id)
    case DsSeen(zone, id, now, _) =>
      && w.clock <= now
      && forall i :: 0 <= i < |w.db.rows| && IsKey(w.db.rows[i], zone, id) ==>
           w.db.rows[i].kind.KSK? && w.db.rows[i].state in {Ready, DsSub}
    case RetireOld(zone, id, now, _) =>
      && w.clock <= now
      && forall i :: 0 <= i < |w.db.rows| && IsKey(w.db.rows[i], zone, id) ==>
           w.db.rows[i].kind.KSK? && w.db.rows[i].state == Active
    case Roll(_, now, _) => w.clock <= now
    case Prepare(_, now) => w.clock <= now
    case Rollback(_) => true
    case Commit(_, now) => w.clock <= now
    case Purge(_, _) => true
  }

  function Lists(kinds: Kinds, issued: seq<Row>, c: Call): seq<KeyList> {
    if kinds.Both? then [ListOf(issued, KSK, c), ListOf(issued, ZSK, c)] else [ListOf(issued, kinds.kind, c)]
  }

  function Exec(w: World, e: Event): World {
    match e
    case KeyRequest(kinds, rollover, c, newDs) =>
      var out := Handled(w.db, kinds, rollover, c, newDs);
      w.(db := out.db, clock := c.now, log := if out.status == Ok then w.log + Lists(kinds, out.issued, c) else w.log)
    case Create(s) =>
      w.(nextId := w.nextId + 1,
         db := w.db.(pairs := w.db.pairs[w.nextId := NewPair(s)]))
    case Allocate(zone, kind, id) => w.(db := w.db.(rows := w.db.rows + [NewRow(id, zone, kind)]))
    case DsSeen(zone, id, now, p) =>
      w.(clock := now, db := w.db.(rows := seq(|w.db.rows|, i requires 0 <= i < |w.db.rows| =>
        if IsKey(w.db.rows[i], zone, id) then SeenRow(w.db.rows[i], now, p) else w.db.rows[i])))
    case RetireOld(zone, id, now, p) =>
      w.(clock := now, db := w.db.(rows := seq(|w.db.rows|, i requires 0 <= i < |w.db.rows| =>
        if IsKey(w.db.rows[i], zone, id) then RetiredRow(w.db.rows[i], now, p) else w.db.rows[i])))
    case Roll(targets, now, loose) =>
      var rolled := KeyRolled(w.db, targets, now, loose);
      w.(clock := now, db := rolled, rushed := w.rushed + Hurried(w.db.rows, rolled.rows))
    case Prepare(scope, now) => w.(clock := now, db := w.db.(pairs := Backup.Prepared(w.db.pairs, scope, now)))
    case Rollback(scope) => w.(db := w.db.(pairs := Backup.RolledBack(w.db.pairs, scope)))
    case Commit(scope, now) => w.(clock := now, db := w.db.(pairs := Backup.Committed(w.db.pairs, scope, now)))
    case Purge(owner, limit) => w.(db := Purged(w.db, owner, limit))
  }

  /** A run: each world comes from the one before by an enabled event. */
  predicate Run(ws: seq<World>, es: seq<Event>) {
    && |ws| == |es| + 1
    && forall i :: 0 <= i < |es| ==> Enabled(ws[i], es[i]) && ws[i + 1] == Exec(ws[i], es[i])
  }

  // ---- The invariant of a zone ----

  /** A key pair that no zone has been given yet. */
  predicate Fresh(w: World, k: int) {
    k >= w.nextId || (k in w.db.pairs && !Allocated(w.db.rows, k))
  }

  ghost predicate Suits(w: World, z: int, k: int, l: Life) {
    && Lives(w.log, z, k, l)
    && (forall i :: 0 <= i < |w.db.rows| && Zsk.IsZsk(w.db.rows[i], z) && w.db.rows[i].pair == k ==>
        Tied(w.log, w.db.rows[i], l))
    && ((forall i :: 0 <= i < |w.db.rows| && Zsk.IsZsk(w.db.rows[i], z) ==> w.db.rows[i].pair != k) ==>
          l.p == |w.log| || l.d < |w.log|)
    && (Fresh(w, k) ==> l.p == |w.log|)
  }

  ghost predicate HasLife(w: World, z: int, k: int) {
    exists l :: Suits(w, z, k, l)
  }

  ghost predicate KskSuits(w: World, z: int, k: int, l: KskLife) {
    && KskLives(w.log, z, k, l)
    && (forall i :: 0 <= i < |w.db.rows| && Ksk.IsKsk(w.db.rows[i], z) && w.db.rows[i].pair == k ==>
        KskTied(w.log, w.db.rows[i], l))
    && ((forall i :: 0 <= i < |w.db.rows| && Ksk.IsKsk(w.db.rows[i], z) ==> w.db.rows[i].pair != k) ==>
          l.p == |w.log| || l.d < |w.log|)
    && (Fresh(w, k) ==> l.p == |w.log|)
    && (l.rushed ==> k in w.rushed)
  }

  ghost predicate HasKskLife(w: World, z: int, k: int) {
    exists l :: KskSuits(w, z, k, l)
  }

  /** The zone's ZSKs are all untouched, or exactly one of them is active and at least one list is out. */
  ghost predicate SignerOk(w: World, z: int) {
    && (if FirstList(w.log, z, |w.log|) then Zsk.AllGenerated(w.db.rows, z)
        else exists a :: Zsk.OneActive(w.db.rows, z, a))
    && (forall m :: 0 <= m < |w.log| && About(w.log[m], z, ZSK) ==> |w.log[m].signers| == 1)
  }

  /** Ids are handed out in order, and a pair that no zone has is not flagged. */
  predicate IdsOk(w: World) {
    forall k :: k in w.db.pairs ==>
      k < w.nextId && (Allocated(w.db.rows, k) || (!w.db.pairs[k].fixedDate && !w.db.pairs[k].compromised))
  }

  /** Lists are issued in order of time. */
  predicate Chronological(w: World) {
    && (forall i, j :: 0 <= i <= j < |w.log| ==> w.log[i].time <= w.log[j].time)
    && (forall i :: 0 <= i < |w.log| ==> w.log[i].time <= w.clock)
  }

  ghost predicate Inv(w: World, z: int) {
    && Good(w.db, w.clock)
    && IdsOk(w)
    && Chronological(w)
    && SignerOk(w, z)
    && (forall k :: HasLife(w, z, k))
    && (forall k :: HasKskLife(w, z, k))
  }

  /** Before the enforcer has handled the zone: its keys are generated at most, and no list is out. */
  ghost predicate Initial(w: World, z: int) {
    && Good(w.db, w.clock)
    && IdsOk(w)
    && (forall i :: 0 <= i < |w.db.rows| && w.db.rows[i].zone == z ==> w.db.rows[i].state == Generate)
    && w.log == []
  }

  lemma InitialInv(w: World, z: int)
    requires Initial(w, z)
    ensures Inv(w, z)
  {
    forall k
      ensures HasLife(w, z, k) && HasKskLife(w, z, k)
    {
      assert Suits(w, z, k, Life(0, 0, 0, 0, 0));
      assert KskSuits(w, z, k, KskLife(0, 0, 0, 0, false));
    }
  }
}
