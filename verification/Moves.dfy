/** What every state change of a request has in common: keys are conserved, states only rise. */
module Moves {
  import opened Tables
  import opened Update
  import opened Request

  /** The height of a state on the way from generation to death. */
  function Rank(s: State): nat {
    match s
    case Generate => 0
    case Publish | DsSub => 1
    case DsPublish => 2
    case Ready | DsReady => 3
    case KeyPublish => 4
    case Active => 5
    case Retire => 6
    case Dead => 7
  }

  predicate SameKey(r: Row, s: Row) {
    r.pair == s.pair && r.zone == s.zone && r.kind == s.kind
  }

  /** The keys are the same, in the same places, and each stays in its state or rises. */
  predicate Rises(a: seq<Row>, b: seq<Row>) {
    && |a| == |b|
    && forall i :: 0 <= i < |a| ==>
         SameKey(a[i], b[i]) && (a[i].state == b[i].state || Rank(a[i].state) < Rank(b[i].state))
  }

  /** Rises, and rows of other zones and of the other key type are as they were. */
  predicate RisesIn(a: seq<Row>, b: seq<Row>, zone: int, kind: KeyType) {
    && |a| == |b|
    && forall i :: 0 <= i < |a| ==>
         && SameKey(a[i], b[i])
         && (a[i].state == b[i].state || Rank(a[i].state) < Rank(b[i].state))
         && (a[i].zone != zone || a[i].kind != kind ==> b[i] == a[i])
  }

  lemma RisesTrans(a: seq<Row>, b: seq<Row>, c: seq<Row>)
    requires Rises(a, b) && Rises(b, c)
    ensures Rises(a, c)
  {
  }

  lemma RisesInTrans(a: seq<Row>, b: seq<Row>, c: seq<Row>, zone: int, kind: KeyType)
    requires RisesIn(a, b, zone, kind) && RisesIn(b, c, zone, kind)
    ensures RisesIn(a, c, zone, kind)
  {
  }

  lemma RisesInSelf(a: seq<Row>, zone: int, kind: KeyType)
    ensures RisesIn(a, a, zone, kind)
  {
  }

  lemma MovedRises(rows: seq<Row>, zone: int, kind: KeyType, src: State, dst: State, now: int)
    requires Rank(src) < Rank(dst)
    ensures RisesIn(rows, Moved(rows, DueFor(zone, kind, src, dst, now), dst, now), zone, kind)
  {
  }

  lemma MovedNRises(rows: seq<Row>, zone: int, kind: KeyType, src: State, n: nat, dst: State, now: int)
    requires Rank(src) < Rank(dst)
    ensures RisesIn(rows, MovedN(rows, InStates(zone, kind, {src}), n, dst, now), zone, kind)
  {
  }

  lemma UpdatedRises(db: Db, p: Policy, zone: int)
    ensures Rises(db.rows, Updated(db, p, zone))
  {
  }

  lemma StandbyActivatedRises(rows: seq<Row>, c: Call, newDs: bool)
    ensures RisesIn(rows, StandbyActivated(rows, c, newDs), c.zone, KSK)
  {
    var moved := Moved(rows, DueFor(c.zone, KSK, KeyPublish, Active, c.now), Active, c.now);
    MovedRises(rows, c.zone, KSK, KeyPublish, Active, c.now);
    MovedRises(moved, c.zone, KSK, Active, Retire, c.now);
    RisesInTrans(rows, moved, ActiveRetired(moved, KSK, c), c.zone, KSK);
  }

  lemma StandbySubmittedRises(rows: seq<Row>, c: Call)
    ensures RisesIn(rows, StandbySubmitted(rows, c), c.zone, KSK)
  {
    if StandbySupplied(rows, c) {
      MovedNRises(rows, c.zone, KSK, Generate, StandbyShortfall(rows, c), DsSub, c.now);
    }
  }

  lemma ReplenishedRises(rows: seq<Row>, kind: KeyType, c: Call)
    ensures RisesIn(rows, Replenished(rows, kind, c), c.zone, kind)
  {
    var need := Shortfall(rows, kind, c);
    if 0 < need {
      MovedNRises(rows, c.zone, kind, Generate, need, Publish, c.now);
    }
  }

  lemma StagedRises(rows: seq<Row>, kind: KeyType, firstPass: bool, c: Call, newDs: bool)
    ensures RisesIn(rows, Staged(rows, kind, firstPass, c, newDs), c.zone, kind)
  {
    hide Moved, StandbyActivated, StandbySubmitted, Replenished, RisesIn;
    RisesInSelf(rows, c.zone, kind);
    RisesInSelf(RetireDead(if kind.KSK? then StandbyActivated(rows, c, newDs) else rows, kind, c), c.zone, kind);
    var a := if kind.KSK? then StandbyActivated(rows, c, newDs) else rows;
    StandbyActivatedRises(rows, c, newDs);
    var b := RetireDead(a, kind, c);
    MovedRises(a, c.zone, kind, Retire, Dead, c.now);
    RisesInTrans(rows, a, b, c.zone, kind);
    var d := if kind.ZSK? || c.policy.kskRoll.DoubleDnskey? || firstPass then PublishReady(b, kind, c) else b;
    MovedRises(b, c.zone, kind, Publish, Ready, c.now);
    RisesInTrans(rows, b, d, c.zone, kind);
    var e := if kind.KSK? then StandbySubmitted(DsPublishReady(d, c), c) else d;
    if kind.KSK? {
      var f := DsPublishReady(d, c);
      MovedRises(d, c.zone, KSK, DsPublish, DsReady, c.now);
      StandbySubmittedRises(f, c);
      RisesInTrans(rows, d, f, c.zone, kind);
      RisesInTrans(rows, f, e, c.zone, kind);
    }
    ReplenishedRises(e, kind, c);
    RisesInTrans(rows, e, Replenished(e, kind, c), c.zone, kind);
  }

  lemma SwitchedRises(db: Db, kind: KeyType, rolling: bool, firstPass: bool, c: Call)
    ensures RisesIn(db.rows, Switched(db, kind, rolling, firstPass, c).1, c.zone, kind)
  {
    hide Moved, MovedN, Count, BackupRefused, RisesIn;
    RisesInSelf(db.rows, c.zone, kind);
    MovedNRises(db.rows, c.zone, kind, Publish, 1, Active, c.now);
    MovedRises(db.rows, c.zone, KSK, DsReady, KeyPublish, c.now);
    MovedNRises(db.rows, c.zone, kind, Ready, 1, Active, c.now);
    var moved := MovedN(db.rows, InStates(c.zone, kind, {Ready}), 1, Active, c.now);
    MovedRises(moved, c.zone, kind, Active, Retire, c.now);
    RisesInTrans(db.rows, moved, ActiveRetired(moved, kind, c), c.zone, kind);
  }

  lemma ByTypeRises(db: Db, kind: KeyType, rollover: bool, c: Call, newDs: bool)
    ensures Rises(db.rows, ByType(db, kind, rollover, c, newDs).db.rows)
    ensures ByType(db, kind, rollover, c, newDs).db.pairs.Keys == db.pairs.Keys
  {
    hide Staged, Switched, Count, Matches, StagedNewDs, Issue;
    var firstPass := IsFirstPass(db.rows, kind, c.zone);
    var marked := if rollover then Marked(db, kind, c) else db;
    assert Rises(db.rows, marked.rows);
    var staged := marked.(rows := Staged(marked.rows, kind, firstPass, c, newDs));
    StagedRises(marked.rows, kind, firstPass, c, newDs);
    RisesTrans(db.rows, marked.rows, staged.rows);
    var rolling := rollover || Compromised(db, kind, c.zone);
    SwitchedRises(staged, kind, rolling, firstPass, c);
    RisesTrans(db.rows, staged.rows, Switched(staged, kind, rolling, firstPass, c).1);
  }

  /** A request conserves the set of keys, whatever its outcome, and moves each key upwards only; a dead key
      stays dead. */
  lemma RequestConservesKeys(db: Db, kinds: Kinds, rollover: bool, c: Call, newDs: bool)
    ensures Rises(db.rows, Handled(db, kinds, rollover, c, newDs).db.rows)
    ensures Handled(db, kinds, rollover, c, newDs).db.pairs.Keys == db.pairs.Keys
  {
    hide ByType, Updated;
    var dated := WithDates(db, c);
    UpdatedRises(db, c.policy, c.zone);
    var kind := if kinds.Both? then KSK else kinds.kind;
    var first := ByType(dated, kind, rollover, c, newDs);
    ByTypeRises(dated, kind, rollover, c, newDs);
    RisesTrans(db.rows, dated.rows, first.db.rows);
    UpdatedRises(first.db, c.policy, c.zone);
    RisesTrans(db.rows, first.db.rows, WithDates(first.db, c).rows);
    var second := ByType(first.db, ZSK, rollover, c, first.newDs);
    ByTypeRises(first.db, ZSK, rollover, c, first.newDs);
    RisesTrans(db.rows, first.db.rows, second.db.rows);
    UpdatedRises(second.db, c.policy, c.zone);
    RisesTrans(db.rows, second.db.rows, WithDates(second.db, c).rows);
    assert Rises(db.rows, db.rows);
  }

  // ---- A key's whole history ----

  /** The number of state changes in a history. */
  function Changes(history: seq<State>): nat {
    if |history| < 2 then 0
    else Changes(history[1..]) + if history[0] != history[1] then 1 else 0
  }

  /** However long the history, a key whose every change is a rise changes state at most seven times. */
  lemma {:induction false} AtMostSevenChanges(history: seq<State>)
    requires history != []
    requires forall i :: 0 <= i < |history| - 1 ==>
      history[i] == history[i + 1] || Rank(history[i]) < Rank(history[i + 1])
    ensures Changes(history) <= Rank(history[|history| - 1]) - Rank(history[0]) <= 7
  {
    if |history| > 1 {
      AtMostSevenChanges(history[1..]);
    }
  }

  // ---- Exactly n ----

  /** The places where two tables differ. */
  function Differences(a: seq<Row>, b: seq<Row>): set<int>
    requires |a| == |b|
  {
    set i | 0 <= i < |a| && a[i] != b[i]
  }

  lemma DifferencesSnoc(a: seq<Row>, b: seq<Row>)
    requires |a| == |b| > 0
    ensures
      var last := |a| - 1;
      |Differences(a, b)| == |Differences(a[..last], b[..last])| + if a[last] != b[last] then 1 else 0
  {
    var last := |a| - 1;
    var front := Differences(a[..last], b[..last]);
    assert Differences(a, b) == if a[last] != b[last] then front + {last} else front;
  }

  lemma MovedNFront(rows: seq<Row>, q: Clause, n: nat, dst: State, now: int)
    requires rows != []
    ensures MovedN(rows[..|rows| - 1], q, n, dst, now) == MovedN(rows, q, n, dst, now)[..|rows| - 1]
  {
    hide Enter, Matches, Count;
    var front := rows[..|rows| - 1];
    var a, b := MovedN(front, q, n, dst, now), MovedN(rows, q, n, dst, now);
    forall i | 0 <= i < |front|
      ensures a[i] == b[i]
    {
      assert front[..i] == rows[..i];
      assert Picked(front, q, n, i) == Picked(rows, q, n, i);
    }
    assert a == b[..|front|];
  }

  lemma {:induction false} MovedNExact(rows: seq<Row>, zone: int, kind: KeyType, src: State, n: nat, dst: State,
      now: int)
    requires src != dst
    ensures
      var q := InStates(zone, kind, {src});
      |Differences(rows, MovedN(rows, q, n, dst, now))| == if Count(rows, q) < n then Count(rows, q) else n
  {
    hide Differences;
    var q := InStates(zone, kind, {src});
    var result := MovedN(rows, q, n, dst, now);
    if rows == [] {
      EmptyDifferences(result);
    } else {
      var front := rows[..|rows| - 1];
      MovedNExact(front, zone, kind, src, n, dst, now);
      MovedNFront(rows, q, n, dst, now);
      DifferencesSnoc(rows, result);
    }
  }

  lemma EmptyDifferences(rows: seq<Row>)
    ensures Differences(rows, rows) == {}
  {
  }

  /** A move of n keys changes exactly n rows or none, and says which. */
  lemma ChangeNAllOrNothing(db: Db, zone: int, kind: KeyType, src: State, n: nat, dst: State, c: Call)
    requires src != dst
    ensures
      var (status, rows) := ChangeN(db, InStates(zone, kind, {src}), n, dst, c);
      |rows| == |db.rows| && |Differences(db.rows, rows)| == if status == Ok then n else 0
  {
    MovedNExact(db.rows, zone, kind, src, n, dst, c.now);
    EmptyDifferences(db.rows);
  }

  // ---- Counting a move of n keys ----

  /** How many of the first n selected rows there are. */
  function AtMost(n: nat, count: nat): nat {
    if count < n then count else n
  }

  lemma OneMoved(r: Row, zone: int, kind: KeyType, src: State, dst: State, now: int, states: set<State>)
    requires Matches(InStates(zone, kind, {src}), r)
    ensures Matches(InStates(zone, kind, states), r) <==> src in states
    ensures Matches(InStates(zone, kind, states), Enter(r, dst, now)) <==> dst in states
  {
  }

  /** A move of n keys out of `src` into `dst`: the counts of all other states stay, these two change by n. */
  lemma {:induction false} CountMovedN(rows: seq<Row>, zone: int, kind: KeyType, src: State, n: nat, dst: State,
      now: int, states: set<State>)
    ensures var pool := InStates(zone, kind, {src});
      Count(MovedN(rows, pool, n, dst, now), InStates(zone, kind, states))
      == Count(rows, InStates(zone, kind, states))
         + (if dst in states then AtMost(n, Count(rows, pool)) else 0)
         - (if src in states then AtMost(n, Count(rows, pool)) else 0)
  {
    hide Matches, Enter;
    if rows != [] {
      var pool := InStates(zone, kind, {src});
      var last := |rows| - 1;
      CountMovedN(rows[..last], zone, kind, src, n, dst, now, states);
      MovedNFront(rows, pool, n, dst, now);
      if Matches(pool, rows[last]) {
        OneMoved(rows[last], zone, kind, src, dst, now, states);
      }
    }
  }
}
