/** One request seen from a zone's ZSKs: how each key moves, and why exactly one of them signs. */
module Zsk {
  import opened Tables
  import opened Update
  import opened Request
  import opened Invariant

  predicate IsZsk(r: Row, zone: int) {
    r.zone == zone && r.kind.ZSK?
  }

  predicate Signs(r: Row, zone: int) {
    IsZsk(r, zone) && r.state == Active
  }

  /** Row a, and no other, is the zone's signing key. */
  predicate OneActive(rows: seq<Row>, zone: int, a: nat) {
    && a < |rows| && Signs(rows[a], zone)
    && forall i :: 0 <= i < |rows| && i != a ==> !Signs(rows[i], zone)
  }

  predicate AllGenerated(rows: seq<Row>, zone: int) {
    forall i :: 0 <= i < |rows| && IsZsk(rows[i], zone) ==> rows[i].state == Generate
  }

  /** The estimated dates that the first update of a request leaves behind. */
  predicate Dated(rows: seq<Row>, zone: int, p: Policy) {
    forall i :: 0 <= i < |rows| && IsZsk(rows[i], zone) ==> DatedRow(rows[i], p)
  }

  predicate DatedRow(r: Row, p: Policy) {
    && (r.state == Publish ==> r.ready == Later(r.publish, PublicationInterval(p)))
    && (r.state == Active ==> r.retire.Some?)
    && (r.state == Retire ==> r.dead == Later(r.retire, RetireInterval(p, ZSK)))
  }

  lemma UpdatedDated(db: Db, p: Policy, zone: int, clock: int)
    requires RowsOk(db.rows, db.pairs, clock)
    ensures Dated(Updated(db, p, zone), zone, p)
  {
  }

  /** How steps 1 to 3 may change a ZSK. */
  predicate StagedRow(r: Row, s: Row, now: int) {
    match r.state
    case Generate => s == r || s == Enter(r, Publish, now)
    case Publish => s == if Due(r.ready, now) then Enter(r, Ready, now) else r
    case Retire => s == if Due(r.dead, now) then Enter(r, Dead, now) else r
    case _ => s == r
  }

  /** How one pass may change a ZSK. */
  predicate Evolves(r: Row, s: Row, now: int) {
    match r.state
    case Generate => s == r || s == Enter(r, Publish, now) || s == Enter(Enter(r, Publish, now), Active, now)
    case Publish =>
      if Due(r.ready, now) then s == Enter(r, Ready, now) || s == Enter(Enter(r, Ready, now), Active, now) else s == r
    case Ready => s == r || s == Enter(r, Active, now)
    case Active => s == r || s == r.(retire := Some(now)) || s == Enter(r, Retire, now)
    case Retire => s == if Due(r.dead, now) then Enter(r, Dead, now) else r
    case _ => s == r
  }

  lemma ZskStaged(rows: seq<Row>, firstPass: bool, c: Call, newDs: bool)
    ensures StagedAs(rows, Staged(rows, ZSK, firstPass, c, newDs), c)
  {
    hide Shortfall, Count;
    var b := RetireDead(rows, ZSK, c);
    var d := PublishReady(b, ZSK, c);
    var s := Replenished(d, ZSK, c);
    forall i | 0 <= i < |rows|
      ensures if IsZsk(rows[i], c.zone) then StagedRow(rows[i], s[i], c.now) else s[i] == rows[i]
    {
      var dead, ready := DueFor(c.zone, ZSK, Retire, Dead, c.now), DueFor(c.zone, ZSK, Publish, Ready, c.now);
      assert b[i] == if Matches(dead, rows[i]) then Enter(rows[i], Dead, c.now) else rows[i];
      assert d[i] == if Matches(ready, b[i]) then Enter(b[i], Ready, c.now) else b[i];
      assert s[i] == d[i] || (Matches(InStates(c.zone, ZSK, {Generate}), d[i]) && s[i] == Enter(d[i], Publish, c.now));
    }
  }

  /** The first of the selected rows, and only it, moves. */
  lemma MovedOneRow(rows: seq<Row>, q: Clause, dst: State, now: int) returns (a: nat)
    requires Count(rows, q) > 0
    ensures a < |rows| && Matches(q, rows[a])
    ensures Picked(rows, q, 1, a)
    ensures MovedN(rows, q, 1, dst, now) == rows[a := Enter(rows[a], dst, now)]
  {
    a := CountWitness(rows, q);
    forall i | 0 <= i < |rows|
      ensures Picked(rows, q, 1, i) <==> i == a
    {
      if i < a {
        CountPrefixLe(rows[..a], q, i);
        if Matches(q, rows[i]) {
          CountPositive(rows[..a], q, i);
        }
      } else if i > a {
        CountPositive(rows[..i], q, a);
      }
    }
  }

  /** Steps 4 to 9 leave exactly one active ZSK. The key that takes over carries no retire date, so the
      retirement step that follows takes only the old key, which is due. */
  lemma ZskSwitched(db: Db, rolling: bool, firstPass: bool, c: Call, old': nat) returns (a: nat)
    requires forall i :: 0 <= i < |db.rows| && Matches(InStates(c.zone, ZSK, {Ready}), db.rows[i]) ==>
        db.rows[i].retire.None?
    requires firstPass ==> forall i :: 0 <= i < |db.rows| && IsZsk(db.rows[i], c.zone) ==>
        db.rows[i].state in {Generate, Publish}
    requires !firstPass ==>
      OneActive(db.rows, c.zone, old') && db.rows[old'].retire.Some? && (rolling ==> Due(db.rows[old'].retire, c.now))
    requires Switched(db, ZSK, rolling, firstPass, c).0 == Ok
    ensures OneActive(Switched(db, ZSK, rolling, firstPass, c).1, c.zone, a)
    ensures SwitchedAs(db.rows, Switched(db, ZSK, rolling, firstPass, c).1, firstPass, c, old', a)
  {
    var rows := db.rows;
    var ready := InStates(c.zone, ZSK, {Ready});
    var t := Switched(db, ZSK, rolling, firstPass, c).1;
    if firstPass {
      CountNone(rows, ready);
      CountNone(rows, ActiveAfter(c.zone, ZSK, c.now));
      a := MovedOneRow(rows, InStates(c.zone, ZSK, {Publish}), Active, c.now);
    } else {
      a := old';
      if t != rows {
        assert Count(rows, ready) > 0;
        if !rolling {
          if rows[old'].retire.value > c.now {
            CountPositive(rows, ActiveAfter(c.zone, ZSK, c.now), old');
          }
        }
        a := MovedOneRow(rows, ready, Active, c.now);
        var moved := rows[a := Enter(rows[a], Active, c.now)];
        RetireOnlyOld(rows, moved, c, a, old');
      }
    }
  }

  lemma RetireOnlyOld(rows: seq<Row>, moved: seq<Row>, c: Call, a: nat, old': nat)
    requires OneActive(rows, c.zone, old') && Due(rows[old'].retire, c.now)
    requires a < |rows| && IsZsk(rows[a], c.zone) && rows[a].state == Ready && rows[a].retire.None?
    requires moved == rows[a := Enter(rows[a], Active, c.now)]
    ensures ActiveRetired(moved, ZSK, c) == moved[old' := Enter(rows[old'], Retire, c.now)]
  {
    var q := DueFor(c.zone, ZSK, Active, Retire, c.now);
    forall i | 0 <= i < |rows|
      ensures Matches(q, moved[i]) <==> i == old'
    {
    }
  }

  /** With at most one active key, forcing or inheriting a rollover means that key is due now. */
  lemma RollingMeansDue(db: Db, rollover: bool, c: Call, old': nat)
    requires Good(db, c.now) && OneActive(db.rows, c.zone, old') && db.rows[old'].retire.Some?
    requires rollover || Compromised(db, ZSK, c.zone)
    ensures var marked := if rollover then Marked(db, ZSK, c) else db;
      Due(marked.rows[old'].retire, c.now)
  {
    MarkedUnshared(db, ZSK, c);
  }

  lemma FirstPassMeaning(rows: seq<Row>, zone: int, clock: int, pairs: map<int, KeyPair>)
    requires RowsOk(rows, pairs, clock)
    ensures IsFirstPass(rows, ZSK, zone) <==> AllGenerated(rows, zone)
  {
    var q := InStates(zone, ZSK, BEYOND_GENERATE);
    if AllGenerated(rows, zone) {
      CountNone(rows, q);
    } else {
      var i :| 0 <= i < |rows| && IsZsk(rows[i], zone) && rows[i].state != Generate;
      CountPositive(rows, q, i);
    }
  }

  /** A successful ZSK pass: every key evolves as told, other keys are untouched, one key signs. The zone's
      first pass makes the signer out of a newly generated key. */
  lemma ZskPass(db: Db, rollover: bool, c: Call, newDs: bool, old': nat) returns (a: nat)
    requires Good(db, c.now) && Dated(db.rows, c.zone, c.policy)
    requires AllGenerated(db.rows, c.zone) || OneActive(db.rows, c.zone, old')
    requires ByType(db, ZSK, rollover, c, newDs).status == Ok
    ensures var t := ByType(db, ZSK, rollover, c, newDs).db.rows;
      && OneActive(t, c.zone, a)
      && EvolvedAs(db.rows, t, c)
      && (db.rows[a].state == Generate ==> AllGenerated(db.rows, c.zone))
  {
    hide Staged, Switched, StagedNewDs, Issue, Marked, Count, RowsOk, MarkedAs, StagedAs, EvolvedAs;
    FirstPassMeaning(db.rows, c.zone, c.now, db.pairs);
    var firstPass := IsFirstPass(db.rows, ZSK, c.zone);
    var marked := if rollover then Marked(db, ZSK, c) else db;
    var rolling := rollover || Compromised(db, ZSK, c.zone);
    MarkedRows(db, rollover, c);
    if !firstPass && rolling {
      RollingMeansDue(db, rollover, c, old');
    }
    var s := Staged(marked.rows, ZSK, firstPass, c, newDs);
    ZskStaged(marked.rows, firstPass, c, newDs);
    var staged := marked.(rows := s);
    StagedShape(db, marked.rows, s, rollover, c, old');
    if !firstPass {
      MarkedOld(db.rows, marked.rows, rollover, c, old');
    }
    a := ZskSwitched(staged, rolling, firstPass, c, old');
    var t := Switched(staged, ZSK, rolling, firstPass, c).1;
    EvolvedShape(db.rows, marked.rows, s, t, rollover, firstPass, c, old', a);
  }

  predicate EvolvedAs(rows: seq<Row>, t: seq<Row>, c: Call) {
    && |t| == |rows|
    && forall i :: 0 <= i < |t| ==> if IsZsk(rows[i], c.zone) then Evolves(rows[i], t[i], c.now) else t[i] == rows[i]
  }

  lemma MarkedOld(rows: seq<Row>, marked: seq<Row>, rollover: bool, c: Call, old': nat)
    requires MarkedAs(rows, marked, rollover, c) && OneActive(rows, c.zone, old') && Dated(rows, c.zone, c.policy)
    ensures marked[old'].retire.Some?
  {
  }

  /** How the switch changes the staged rows. */
  predicate SwitchedAs(s: seq<Row>, t: seq<Row>, firstPass: bool, c: Call, old': nat, a: nat) {
    && |t| == |s| && a < |s|
    && (firstPass ==> s[a].state == Publish && t == s[a := Enter(s[a], Active, c.now)])
    && (firstPass || t == s ||
        (&& s[a].state == Ready && a != old' && old' < |s|
         && t == s[a := Enter(s[a], Active, c.now)][old' := Enter(s[old'], Retire, c.now)]))
  }

  lemma EvolvedShape(rows: seq<Row>, marked: seq<Row>, s: seq<Row>, t: seq<Row>, rollover: bool,
      firstPass: bool, c: Call, old': nat, a: nat)
    requires MarkedAs(rows, marked, rollover, c) && StagedAs(marked, s, c) && SwitchedAs(s, t, firstPass, c, old', a)
    requires if firstPass then AllGenerated(rows, c.zone) else OneActive(rows, c.zone, old')
    requires OneActive(t, c.zone, a)
    ensures EvolvedAs(rows, t, c)
    ensures rows[a].state == Generate ==> AllGenerated(rows, c.zone)
  {
    forall i | 0 <= i < |t|
      ensures if IsZsk(rows[i], c.zone) then Evolves(rows[i], t[i], c.now) else t[i] == rows[i]
    {
      assert marked[i] == if rollover && Signs(rows[i], c.zone) then rows[i].(retire := Some(c.now)) else rows[i];
      assert if IsZsk(marked[i], c.zone) then StagedRow(marked[i], s[i], c.now) else s[i] == marked[i];
      assert i != a && i != old' ==> t[i] == s[i];
    }
  }

  predicate StagedAs(rows: seq<Row>, s: seq<Row>, c: Call) {
    && |s| == |rows|
    && forall i :: 0 <= i < |s| ==> if IsZsk(rows[i], c.zone) then StagedRow(rows[i], s[i], c.now) else s[i] == rows[i]
  }

  /** What steps 1 to 3 leave for the switch. */
  lemma StagedShape(db: Db, marked: seq<Row>, s: seq<Row>, rollover: bool, c: Call, old': nat)
    requires RowsOk(db.rows, db.pairs, c.now)
    requires MarkedAs(db.rows, marked, rollover, c) && StagedAs(marked, s, c)
    ensures forall i :: 0 <= i < |s| && Matches(InStates(c.zone, ZSK, {Ready}), s[i]) ==> s[i].retire.None?
    ensures AllGenerated(db.rows, c.zone) ==>
      forall i :: 0 <= i < |s| && IsZsk(s[i], c.zone) ==> s[i].state in {Generate, Publish}
    ensures OneActive(db.rows, c.zone, old') ==> OneActive(s, c.zone, old') && s[old'] == marked[old']
  {
    forall i | 0 <= i < |s|
      ensures Matches(InStates(c.zone, ZSK, {Ready}), s[i]) ==> s[i].retire.None?
      ensures s[i].kind == db.rows[i].kind && s[i].zone == db.rows[i].zone
      ensures Signs(s[i], c.zone) <==> Signs(db.rows[i], c.zone)
      ensures AllGenerated(db.rows, c.zone) && IsZsk(s[i], c.zone) ==> s[i].state in {Generate, Publish}
    {
      assert if IsZsk(marked[i], c.zone) then StagedRow(marked[i], s[i], c.now) else s[i] == marked[i];
    }
    if OneActive(db.rows, c.zone, old') {
      assert IsZsk(marked[old'], c.zone) && StagedRow(marked[old'], s[old'], c.now);
    }
  }

  predicate MarkedAs(rows: seq<Row>, marked: seq<Row>, rollover: bool, c: Call) {
    && |marked| == |rows|
    && forall i :: 0 <= i < |rows| ==>
         marked[i] == if rollover && Signs(rows[i], c.zone) then rows[i].(retire := Some(c.now)) else rows[i]
  }

  lemma MarkedRows(db: Db, rollover: bool, c: Call)
    requires Good(db, c.now)
    ensures MarkedAs(db.rows, (if rollover then Marked(db, ZSK, c) else db).rows, rollover, c)
  {
    MarkedUnshared(db, ZSK, c);
  }
}
