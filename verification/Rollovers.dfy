/** Forced rollovers: a marked key goes as soon as there is a successor. */
module Rollovers {
  import opened Tables
  import opened Request
  import opened Invariant
  import opened Zsk
  import opened Signers

  /** When the switch comes, a ready key is there and passes the backup rule. */
  predicate SuccessorReady(db: Db, rollover: bool, c: Call, newDs: bool) {
    var s := SwitchInput(db, rollover, c, newDs);
    && Count(s.rows, InStates(c.zone, ZSK, {Ready})) > 0
    && !BackupRefused(s, InStates(c.zone, ZSK, {Ready}), 1, c.needsBackup)
  }

  /** Once the active key is marked, the next pass that finds a ready key passing the backup rule retires it,
      whatever the manual rollover setting and without being asked again. */
  lemma MarkedKeyRetires(db: Db, rollover: bool, c: Call, newDs: bool, i: nat)
    requires Good(db, c.now) && Dated(db.rows, c.zone, c.policy) && OneActive(db.rows, c.zone, i)
    requires rollover || db.pairs[db.rows[i].pair].compromised
    requires SuccessorReady(db, rollover, c, newDs)
    ensures
      var out := ByType(db, ZSK, rollover, c, newDs);
      && out.status == Ok && |out.db.rows| == |db.rows|
      && out.db.rows[i] == db.rows[i].(state := Retire, retire := Some(c.now))
  {
    hide Staged, Switched, StagedNewDs, Issue, Marked, Count, BackupRefused, MarkedAs, StagedAs;
    FirstPassMeaning(db.rows, c.zone, c.now, db.pairs);
    var marked := if rollover then Marked(db, ZSK, c) else db;
    assert Compromised(db, ZSK, c.zone) || rollover;
    var s := Staged(marked.rows, ZSK, false, c, newDs);
    MarkedRows(db, rollover, c);
    RollingMeansDue(db, rollover, c, i);
    ZskStaged(marked.rows, false, c, newDs);
    StagedShape(db, marked.rows, s, rollover, c, i);
    MarkedActive(db.rows, marked.rows, rollover, c, i);
    var a := SwitchRows(marked.(rows := s), true, c);
    RetiredAt(s, c, a, i);
  }

  lemma MarkedActive(rows: seq<Row>, marked: seq<Row>, rollover: bool, c: Call, i: nat)
    requires MarkedAs(rows, marked, rollover, c) && OneActive(rows, c.zone, i)
    ensures |marked| == |rows| && marked[i].(retire := Some(c.now)) == rows[i].(retire := Some(c.now))
    ensures marked[i].state == Active
  {
  }

  lemma RetiredAt(s: seq<Row>, c: Call, a: nat, i: nat)
    requires a < |s| && i < |s| && a != i && Signs(s[i], c.zone) && Due(s[i].retire, c.now)
    ensures ActiveRetired(s[a := Enter(s[a], Active, c.now)], ZSK, c)[i] == Enter(s[i], Retire, c.now)
  {
  }
}
