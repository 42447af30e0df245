/** One request seen from a zone's KSKs. */
module Ksk {
  import opened Tables
  import opened Request
  import opened Invariant

  predicate IsKsk(r: Row, zone: int) {
    r.zone == zone && r.kind.KSK?
  }

  /** How steps 0 to 2a may change a KSK. */
  predicate EarlySteps(r: Row, s: Row, p: Policy, now: int) {
    match r.state
    case KeyPublish => s == if Due(r.active, now) then Enter(r, Active, now) else r
    case Publish => s == if p.kskRoll.DoubleDnskey? && Due(r.ready, now) then Enter(r, Ready, now) else r
    case DsPublish => s == if Due(r.ready, now) then Enter(r, DsReady, now) else r
    case Active => s == r || s == r.(retire := Some(now)) || s == Enter(r, Retire, now)
    case Retire => s == if Due(r.dead, now) then Enter(r, Dead, now) else r
    case _ => s == r
  }

  /** The same for a row of any kind: others stay. */
  predicate EarlyOr(r: Row, s: Row, c: Call) {
    if IsKsk(r, c.zone) then EarlySteps(r, s, c.policy, c.now) else s == r
  }

  /** How one pass may change a KSK. An active key may retire, but it cannot die in the same pass: it carries
      no dead date yet. */
  predicate Evolves(r: Row, s: Row, p: Policy, now: int) {
    match r.state
    case Generate => s == r || s == Enter(r, DsSub, now) || s == Enter(r, Publish, now)
    case DsPublish =>
      if Due(r.ready, now) then s == Enter(r, DsReady, now) || s == Enter(Enter(r, DsReady, now), KeyPublish, now)
      else s == r
    case DsReady => s == r || s == Enter(r, KeyPublish, now)
    case _ => EarlySteps(r, s, p, now)
  }

  lemma ActivatedRow(rows: seq<Row>, c: Call, newDs: bool, i: nat)
    requires i < |rows| && (rows[i].state == KeyPublish ==> rows[i].retire.None?)
    ensures
      var s := StandbyActivated(rows, c, newDs)[i];
      if !IsKsk(rows[i], c.zone) then s == rows[i]
      else match rows[i].state
        case KeyPublish => s == if Due(rows[i].active, c.now) then Enter(rows[i], Active, c.now) else rows[i]
        case Active => s == rows[i] || s == Enter(rows[i], Retire, c.now)
        case _ => s == rows[i]
  {
  }

  lemma EarlyRow(rows: seq<Row>, firstPass: bool, c: Call, newDs: bool, i: nat)
    requires i < |rows| && (rows[i].state in {KeyPublish, Active} ==> rows[i].dead.None?)
    requires rows[i].state == KeyPublish ==> rows[i].retire.None?
    requires firstPass && IsKsk(rows[i], c.zone) ==> rows[i].state == Generate
    ensures
      var b := RetireDead(StandbyActivated(rows, c, newDs), KSK, c);
      var d := if c.policy.kskRoll.DoubleDnskey? || firstPass then PublishReady(b, KSK, c) else b;
      var e := DsPublishReady(d, c);
      EarlyOr(rows[i], e[i], c)
  {
    hide StandbyActivated, Count;
    var a := StandbyActivated(rows, c, newDs);
    ActivatedRow(rows, c, newDs, i);
    var b := RetireDead(a, KSK, c);
    assert b[i] == if Matches(DueFor(c.zone, KSK, Retire, Dead, c.now), a[i]) then Enter(a[i], Dead, c.now) else a[i];
    var d := if c.policy.kskRoll.DoubleDnskey? || firstPass then PublishReady(b, KSK, c) else b;
    var q := DueFor(c.zone, KSK, Publish, Ready, c.now);
    assert d[i] == b[i] || (Matches(q, b[i]) && d[i] == Enter(b[i], Ready, c.now));
  }

  /** What steps 3a and 3 may do to a row. */
  predicate Promoted(r: Row, s: Row, c: Call) {
    || s == r
    || (IsKsk(r, c.zone) && r.state == Generate && (s == Enter(r, DsSub, c.now) || s == Enter(r, Publish, c.now)))
  }

  lemma PromotedRow(e: seq<Row>, c: Call, i: nat)
    requires i < |e|
    ensures Promoted(e[i], Replenished(StandbySubmitted(e, c), KSK, c)[i], c)
  {
    hide Count, Shortfall, StandbyShortfall;
    var f := StandbySubmitted(e, c);
    assert Promoted(e[i], f[i], c);
  }

  lemma StagedKsk(rows: seq<Row>, firstPass: bool, c: Call, newDs: bool, i: nat)
    requires i < |rows| && (rows[i].state in {KeyPublish, Active} ==> rows[i].dead.None?)
    requires rows[i].state == KeyPublish ==> rows[i].retire.None?
    requires firstPass && IsKsk(rows[i], c.zone) ==> rows[i].state == Generate
    ensures
      var s := Staged(rows, KSK, firstPass, c, newDs);
      exists e: Row :: EarlyOr(rows[i], e, c) && Promoted(e, s[i], c)
  {
    hide StandbyActivated, RetireDead, PublishReady, DsPublishReady, StandbySubmitted, Replenished, Promoted, EarlyOr;
    var b := RetireDead(StandbyActivated(rows, c, newDs), KSK, c);
    var d := if c.policy.kskRoll.DoubleDnskey? || firstPass then PublishReady(b, KSK, c) else b;
    var e := DsPublishReady(d, c);
    EarlyRow(rows, firstPass, c, newDs, i);
    PromotedRow(e, c, i);
    var s := Staged(rows, KSK, firstPass, c, newDs);
    assert s == Replenished(StandbySubmitted(e, c), KSK, c);
    assert Promoted(e[i], s[i], c);
  }

  lemma SwitchedKsk(db: Db, rolling: bool, firstPass: bool, c: Call, i: nat)
    requires i < |db.rows|
    ensures Switched(db, KSK, rolling, firstPass, c).0 == Ok
    ensures |Switched(db, KSK, rolling, firstPass, c).1| == |db.rows|
    ensures
      var t := Switched(db, KSK, rolling, firstPass, c).1[i];
      var r := db.rows[i];
      t == r || (IsKsk(r, c.zone) && r.state == DsReady && t == Enter(r, KeyPublish, c.now))
  {
    hide Count;
  }

  /** A KSK pass always succeeds, leaves other keys alone, and moves each KSK as told. */
  lemma KskPass(db: Db, rollover: bool, c: Call, newDs: bool)
    requires Good(db, c.now)
    ensures var out := ByType(db, KSK, rollover, c, newDs);
      && out.status == Ok && |out.db.rows| == |db.rows|
      && forall i :: 0 <= i < |db.rows| ==>
           if IsKsk(db.rows[i], c.zone) then Evolves(db.rows[i], out.db.rows[i], c.policy, c.now)
           else out.db.rows[i] == db.rows[i]
  {
    hide Staged, Switched, StagedNewDs, Issue, Count, RowsOk;
    var firstPass := IsFirstPass(db.rows, KSK, c.zone);
    var marked := if rollover then Marked(db, KSK, c) else db;
    MarkedUnshared(db, KSK, c);
    var staged := marked.(rows := Staged(marked.rows, KSK, firstPass, c, newDs));
    var rolling := rollover || Compromised(db, KSK, c.zone);
    var t := Switched(staged, KSK, rolling, firstPass, c).1;
    SwitchedStatus(staged, rolling, firstPass, c);
    forall i | 0 <= i < |db.rows|
      ensures if IsKsk(db.rows[i], c.zone) then Evolves(db.rows[i], t[i], c.policy, c.now) else t[i] == db.rows[i]
    {
      if IsKsk(db.rows[i], c.zone) && db.rows[i].state != Generate {
        CountPositive(db.rows, InStates(c.zone, KSK, BEYOND_GENERATE), i);
      }
      KskRow(db, marked, rollover, c, newDs, firstPass, rolling, i);
    }
  }

  lemma SwitchedStatus(db: Db, rolling: bool, firstPass: bool, c: Call)
    ensures Switched(db, KSK, rolling, firstPass, c).0 == Ok
    ensures |Switched(db, KSK, rolling, firstPass, c).1| == |db.rows|
  {
  }

  lemma KskRow(db: Db, marked: Db, rollover: bool, c: Call, newDs: bool, firstPass: bool, rolling: bool, i: nat)
    requires RowsOk(db.rows, db.pairs, c.now) && i < |db.rows| == |marked.rows|
    requires marked.rows[i] == db.rows[i] ||
      (IsKsk(db.rows[i], c.zone) && db.rows[i].state == Active && marked.rows[i] == db.rows[i].(retire := Some(c.now)))
    requires firstPass && IsKsk(db.rows[i], c.zone) ==> db.rows[i].state == Generate
    ensures
      var staged := marked.(rows := Staged(marked.rows, KSK, firstPass, c, newDs));
      var t := Switched(staged, KSK, rolling, firstPass, c).1;
      var r := db.rows[i];
      |t| == |db.rows| && if IsKsk(r, c.zone) then Evolves(r, t[i], c.policy, c.now) else t[i] == r
  {
    hide Staged, Switched, Count;
    var s := Staged(marked.rows, KSK, firstPass, c, newDs);
    StagedKsk(marked.rows, firstPass, c, newDs, i);
    var e: Row :| EarlyOr(marked.rows[i], e, c) && Promoted(e, s[i], c);
    SwitchedKsk(marked.(rows := s), rolling, firstPass, c, i);
  }
}
