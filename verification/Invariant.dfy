/** Which date columns a row may carry in which state, and that every step of a request keeps it so. */
module Invariant {
  import opened Tables
  import opened Update
  import opened Request
  import opened Moves

  /** The date columns of a row in each state. Keys that have not signed yet carry no retire date; a dead
      date exists only in states retire and dead; a fixed retire date lies in the past. */
  predicate RowOk(r: Row, k: KeyPair, clock: int) {
    && (k.compromised ==> k.fixedDate)
    && (r.kind.ZSK? ==> r.state in {Generate, Publish, Ready, Active, Retire, Dead})
    && match r.state
       case Generate =>
         r.publish.None? && r.ready.None? && r.active.None? && r.retire.None? && r.dead.None? && !k.fixedDate
       case Publish | DsSub | DsPublish | KeyPublish =>
         r.publish.Some? && r.retire.None? && r.dead.None? && !k.fixedDate
       case Ready | DsReady =>
         r.publish.Some? && r.ready.Some? && r.retire.None? && r.dead.None? && !k.fixedDate
       case Active =>
         r.active.Some? && r.dead.None? && (k.fixedDate ==> Due(r.retire, clock))
       case Retire => r.retire.Some?
       case Dead => true
  }

  predicate RowsOk(rows: seq<Row>, pairs: map<int, KeyPair>, clock: int) {
    forall i :: 0 <= i < |rows| ==> rows[i].pair in pairs && RowOk(rows[i], pairs[rows[i].pair], clock)
  }

  predicate Good(db: Db, clock: int) {
    Unshared(db.rows) && RowsOk(db.rows, db.pairs, clock)
  }

  /** The state changes that a request may make. */
  predicate Edge(kind: KeyType, src: State, dst: State) {
    match src
    case Generate => dst == Publish || (dst == DsSub && kind.KSK?)
    case Publish => dst == Ready || dst == Active
    case Ready => dst == Active
    case Active => dst == Retire
    case Retire => dst == Dead
    case DsPublish => dst == DsReady
    case DsReady => dst == KeyPublish
    case KeyPublish => dst == Active
    case DsSub => dst == DsPublish
    case Dead => false
  }

  lemma EnterOk(r: Row, k: KeyPair, dst: State, now: int, clock: int)
    requires RowOk(r, k, clock) && Edge(r.kind, r.state, dst)
    ensures RowOk(Enter(r, dst, now), k, clock)
  {
  }

  lemma UpdatedOk(db: Db, p: Policy, zone: int, clock: int)
    requires RowsOk(db.rows, db.pairs, clock)
    ensures RowsOk(Updated(db, p, zone), db.pairs, clock)
  {
  }

  lemma MovedOk(rows: seq<Row>, pairs: map<int, KeyPair>, zone: int, kind: KeyType, src: State, dst: State,
      now: int, clock: int)
    requires RowsOk(rows, pairs, clock) && Edge(kind, src, dst)
    ensures RowsOk(Moved(rows, DueFor(zone, kind, src, dst, now), dst, now), pairs, clock)
  {
    hide RowOk, Enter;
    var q := DueFor(zone, kind, src, dst, now);
    var moved := Moved(rows, q, dst, now);
    forall i | 0 <= i < |rows|
      ensures moved[i].pair in pairs && RowOk(moved[i], pairs[moved[i].pair], clock)
    {
      EnterKeepsPair(rows[i], dst, now);
      if Matches(q, rows[i]) {
        EnterOk(rows[i], pairs[rows[i].pair], dst, now, clock);
      }
    }
  }

  lemma MovedNOk(rows: seq<Row>, pairs: map<int, KeyPair>, zone: int, kind: KeyType, src: State, n: nat,
      dst: State, now: int, clock: int)
    requires RowsOk(rows, pairs, clock) && Edge(kind, src, dst)
    ensures RowsOk(MovedN(rows, InStates(zone, kind, {src}), n, dst, now), pairs, clock)
  {
    hide RowOk, Enter, Count;
    var q := InStates(zone, kind, {src});
    var moved := MovedN(rows, q, n, dst, now);
    forall i | 0 <= i < |rows|
      ensures moved[i].pair in pairs && RowOk(moved[i], pairs[moved[i].pair], clock)
    {
      EnterKeepsPair(rows[i], dst, now);
      if Matches(q, rows[i]) {
        EnterOk(rows[i], pairs[rows[i].pair], dst, now, clock);
      }
    }
  }

  lemma EnterKeepsPair(r: Row, dst: State, now: int)
    ensures Enter(r, dst, now).pair == r.pair
  {
  }

  lemma StagedOk(rows: seq<Row>, pairs: map<int, KeyPair>, kind: KeyType, firstPass: bool, c: Call, newDs: bool,
      clock: int)
    requires RowsOk(rows, pairs, clock)
    ensures RowsOk(Staged(rows, kind, firstPass, c, newDs), pairs, clock)
  {
    hide Moved, MovedN, Count, Matches, RowsOk;
    var a := if kind.KSK? then StandbyActivated(rows, c, newDs) else rows;
    if kind.KSK? {
      var q := DueFor(c.zone, KSK, KeyPublish, Active, c.now);
      MovedOk(rows, pairs, c.zone, KSK, KeyPublish, Active, c.now, clock);
      MovedOk(Moved(rows, q, Active, c.now), pairs, c.zone, KSK, Active, Retire, c.now, clock);
    }
    var b := RetireDead(a, kind, c);
    MovedOk(a, pairs, c.zone, kind, Retire, Dead, c.now, clock);
    var d := if kind.ZSK? || c.policy.kskRoll.DoubleDnskey? || firstPass then PublishReady(b, kind, c) else b;
    MovedOk(b, pairs, c.zone, kind, Publish, Ready, c.now, clock);
    var e := if kind.KSK? then StandbySubmitted(DsPublishReady(d, c), c) else d;
    if kind.KSK? {
      MovedOk(d, pairs, c.zone, KSK, DsPublish, DsReady, c.now, clock);
      var f := DsPublishReady(d, c);
      if StandbySupplied(f, c) {
        MovedNOk(f, pairs, c.zone, KSK, Generate, StandbyShortfall(f, c), DsSub, c.now, clock);
      }
    }
    var need := Shortfall(e, kind, c);
    if 0 < need {
      MovedNOk(e, pairs, c.zone, kind, Generate, need, Publish, c.now, clock);
    }
  }

  lemma SwitchedOk(db: Db, kind: KeyType, rolling: bool, firstPass: bool, c: Call, clock: int)
    requires RowsOk(db.rows, db.pairs, clock)
    ensures RowsOk(Switched(db, kind, rolling, firstPass, c).1, db.pairs, clock)
  {
    hide Moved, MovedN, Count, Matches, RowsOk;
    MovedNOk(db.rows, db.pairs, c.zone, kind, Publish, 1, Active, c.now, clock);
    MovedOk(db.rows, db.pairs, c.zone, KSK, DsReady, KeyPublish, c.now, clock);
    MovedNOk(db.rows, db.pairs, c.zone, kind, Ready, 1, Active, c.now, clock);
    var moved := MovedN(db.rows, InStates(c.zone, kind, {Ready}), 1, Active, c.now);
    MovedOk(moved, db.pairs, c.zone, kind, Active, Retire, c.now, clock);
  }

  /** With unshared pairs, marking touches exactly the active rows. */
  lemma MarkedUnshared(db: Db, kind: KeyType, c: Call)
    requires Unshared(db.rows)
    ensures forall i :: 0 <= i < |db.rows| ==>
      (db.rows[i].pair in ActivePairs(db.rows, kind, c.zone) <==> Matches(InStates(c.zone, kind, {Active}), db.rows[i]))
  {
  }

  lemma MarkedOk(db: Db, kind: KeyType, c: Call)
    requires Good(db, c.now)
    ensures Good(Marked(db, kind, c), c.now)
  {
    MarkedUnshared(db, kind, c);
  }

  lemma UnsharedRises(a: seq<Row>, b: seq<Row>)
    requires Unshared(a) && Rises(a, b)
    ensures Unshared(b)
  {
  }

  lemma ByTypeOk(db: Db, kind: KeyType, rollover: bool, c: Call, newDs: bool)
    requires Good(db, c.now)
    ensures Good(ByType(db, kind, rollover, c, newDs).db, c.now)
  {
    hide Staged, Switched, StagedNewDs, Issue, Marked, RowsOk, Count, Matches;
    var firstPass := IsFirstPass(db.rows, kind, c.zone);
    var marked := if rollover then Marked(db, kind, c) else db;
    if rollover {
      MarkedOk(db, kind, c);
    }
    StagedOk(marked.rows, marked.pairs, kind, firstPass, c, newDs, c.now);
    var staged := marked.(rows := Staged(marked.rows, kind, firstPass, c, newDs));
    SwitchedOk(staged, kind, rollover || Compromised(db, kind, c.zone), firstPass, c, c.now);
    ByTypeRises(db, kind, rollover, c, newDs);
    UnsharedRises(db.rows, ByType(db, kind, rollover, c, newDs).db.rows);
  }

  /** Date columns stay consistent through every request, successful or not. */
  lemma RequestKeepsDates(db: Db, kinds: Kinds, rollover: bool, c: Call, newDs: bool)
    requires Good(db, c.now)
    ensures Good(Handled(db, kinds, rollover, c, newDs).db, c.now)
  {
    hide ByType, Updated, RowsOk;
    var dated := WithDates(db, c);
    UpdatedOk(db, c.policy, c.zone, c.now);
    UpdatedRises(db, c.policy, c.zone);
    UnsharedRises(db.rows, dated.rows);
    var kind := if kinds.Both? then KSK else kinds.kind;
    var first := ByType(dated, kind, rollover, c, newDs);
    ByTypeOk(dated, kind, rollover, c, newDs);
    UpdatedOk(first.db, c.policy, c.zone, c.now);
    var second := ByType(first.db, ZSK, rollover, c, first.newDs);
    ByTypeOk(first.db, ZSK, rollover, c, first.newDs);
    UpdatedOk(second.db, c.policy, c.zone, c.now);
    RequestConservesKeys(db, kinds, rollover, c, newDs);
    UnsharedRises(db.rows, Handled(db, kinds, rollover, c, newDs).db.rows);
  }

  /** The clock may move on. */
  lemma GoodLater(db: Db, clock: int, now: int)
    requires Good(db, clock) && clock <= now
    ensures Good(db, now)
  {
  }
}
