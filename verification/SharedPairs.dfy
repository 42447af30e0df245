/** What shared pairs break: tables, commands and requests after which a zone has no signer, or two. */
module SharedPairs {
  import opened Tables
  import opened Update
  import opened Request
  import opened Invariant
  import opened Zsk
  import opened Supply
  import opened KeyRoll
  import opened Signers
  import opened Outcomes

  /** Steps 1 to 3 leave a zone alone that has no ZSK waiting. */
  lemma StagedIdle(rows: seq<Row>, c: Call, newDs: bool)
    requires forall i :: 0 <= i < |rows| && IsZsk(rows[i], c.zone) ==> rows[i].state in {Ready, Active}
    ensures Staged(rows, ZSK, false, c, newDs) == rows
  {
    hide Count, Shortfall;
    assert RetireDead(rows, ZSK, c) == rows;
    assert PublishReady(rows, ZSK, c) == rows;
    CountNone(rows, InStates(c.zone, ZSK, {Generate}));
  }

  /** Shared pairs break the rule of one active key. Pair 1 signs zone 1 and is ready in zone 2, where pair 2
      signs. A request for zone 1 with the rollover option writes a retire date into the ready row of zone 2 as well;
      when the lifetime of pair 2 is over, the request for zone 2 activates pair 1 and retires both keys at once. It
      succeeds, and no key in the list that it issues signs. */
  lemma SharedPairLosesSigner(p: Policy)
    requires !p.zskManual && 0 < p.zskLife <= 20
    ensures
      var k := KeyPair(1, 1, 2048, 8, false, false, None, None);
      var db := Db(map[1 := k, 2 := k], [
        Row(1, 1, ZSK, Active, Some(0), Some(0), Some(0), Some(100), None),
        Row(1, 2, ZSK, Ready, Some(0), Some(0), None, None, None),
        Row(2, 2, ZSK, Active, Some(0), Some(0), Some(0), Some(10), None)]);
      var forced := Handled(db, Only(ZSK), true, Call(5, 1, p, 0, {}), false);
      var out := Handled(forced.db, Only(ZSK), false, Call(20, 2, p, 0, {}), false);
      && Unique(db.rows) && RowsOk(db.rows, db.pairs, 5)
      && Count(db.rows, InStates(2, ZSK, {Active})) == 1
      && forced.status == Ok && out.status == Ok
      && Count(out.db.rows, InStates(2, ZSK, {Active})) == 0
      && forall r :: r in out.issued ==> !Matches(InStates(2, ZSK, {Active}), r)
  {
    hide Handled, Staged;
    var k := KeyPair(1, 1, 2048, 8, false, false, None, None);
    var db := Db(map[1 := k, 2 := k], [
      Row(1, 1, ZSK, Active, Some(0), Some(0), Some(0), Some(100), None),
      Row(1, 2, ZSK, Ready, Some(0), Some(0), None, None, None),
      Row(2, 2, ZSK, Active, Some(0), Some(0), Some(0), Some(10), None)]);
    CountOne(db.rows, InStates(2, ZSK, {Active}), 2);
    SharedForced(db, p);
    var forced := Handled(db, Only(ZSK), true, Call(5, 1, p, 0, {}), false).db;
    SharedLost(forced, p);
  }

  /** The request for zone 1. */
  lemma SharedForced(db: Db, p: Policy)
    requires |db.rows| == 3
    requires db.rows[0] == Row(1, 1, ZSK, Active, Some(0), Some(0), Some(0), Some(100), None)
    requires db.rows[1] == Row(1, 2, ZSK, Ready, Some(0), Some(0), None, None, None)
    requires db.rows[2] == Row(2, 2, ZSK, Active, Some(0), Some(0), Some(0), Some(10), None)
    requires 1 in db.pairs && 2 in db.pairs && !db.pairs[2].fixedDate && !db.pairs[2].compromised
    ensures var out := Handled(db, Only(ZSK), true, Call(5, 1, p, 0, {}), false);
      && out.status == Ok && out.db.rows == [db.rows[0].(retire := Some(5)), db.rows[1].(retire := Some(5)), db.rows[2]]
      && 2 in out.db.pairs && out.db.pairs[2] == db.pairs[2]
  {
    hide Staged, StagedNewDs, Issue, Count;
    var c := Call(5, 1, p, 0, {});
    var dated := WithDates(db, c);
    assert Matches(InStates(1, ZSK, {Active}), dated.rows[0]);
    forall k
      ensures k in ActivePairs(dated.rows, ZSK, 1) <==> k == 1
    {
    }
    var marked := Marked(dated, ZSK, c);
    var rows := [db.rows[0].(retire := Some(5)), db.rows[1].(retire := Some(5)), db.rows[2]];
    assert marked.rows == rows;
    CountPositive(dated.rows, InStates(1, ZSK, BEYOND_GENERATE), 0);
    StagedIdle(rows, c, false);
    CountNone(rows, InStates(1, ZSK, {Ready}));
    assert ByType(dated, ZSK, true, c, false).db == marked;
    assert Updated(marked, p, 1) == rows;
  }

  /** The request for zone 2. */
  lemma SharedLost(db: Db, p: Policy)
    requires !p.zskManual && 0 < p.zskLife <= 20
    requires |db.rows| == 3 && db.rows[0].zone == 1 && Unique(db.rows)
    requires db.rows[1] == Row(1, 2, ZSK, Ready, Some(0), Some(0), None, Some(5), None)
    requires db.rows[2] == Row(2, 2, ZSK, Active, Some(0), Some(0), Some(0), Some(10), None)
    requires 2 in db.pairs && !db.pairs[2].fixedDate && !db.pairs[2].compromised
    ensures var out := Handled(db, Only(ZSK), false, Call(20, 2, p, 0, {}), false);
      && out.status == Ok && Count(out.db.rows, InStates(2, ZSK, {Active})) == 0
      && forall r :: r in out.issued ==> !Matches(InStates(2, ZSK, {Active}), r)
  {
    hide Handled, Count, Compromised;
    var c := Call(20, 2, p, 0, {});
    assert WillBeReady(db.rows[1], c);
    assert FirstReady(db.rows, c, 1);
    assert NextRetire(db, db.rows[2], false, c) == Some(p.zskLife);
    RequestKeepsSignerIff(db, Only(ZSK), false, c, false, 2, 1);
    var issued := Handled(db, Only(ZSK), false, c, false).issued;
    forall r | r in issued
      ensures !Matches(InStates(2, ZSK, {Active}), r)
    {
      var i :| 0 <= i < |issued| && issued[i] == r;
      if Matches(InStates(2, ZSK, {Active}), r) {
        CountPositive(issued, InStates(2, ZSK, {Active}), i);
      }
    }
  }

  // ---- Two signers ----

  /** The operator's command is not harmless either. Pair 1 signs zone 1 and is rolled there: it is flagged and dated.
      It can still be given to zone 3, which shares keys, together with pair 2, because only the states of its rows
      count. The first request for zone 3 makes it active; its retire date stays NULL for ever, since a fixed date is
      not recomputed. Once pair 2 is ready, an ordinary request finds the flag, activates pair 2 and retires nothing: it
      succeeds, and two keys in the list that it issues sign. */
  lemma RolledPairSignsTwice(p: Policy)
    requires p.standbyZsks == 1 && !p.zskManual
    ensures
      var k := KeyPair(1, 1, 2048, 8, false, false, None, None);
      var db := Db(map[1 := k, 2 := k], [Row(1, 1, ZSK, Active, Some(0), Some(0), Some(0), Some(100), None)]);
      var spec := Spec(1, 1, 2048, 8);
      var rolled := KeyRolled(db, RollScope(Some(1), None, Some(ZSK)), 5, {});
      var given := rolled.(rows := rolled.rows + [NewRow(1, 3, ZSK)]);
      var start := given.(rows := given.rows + [NewRow(2, 3, ZSK)]);
      var first := Handled(start, Both, false, Call(6, 3, p, 0, {}), false);
      var later := 6 + (p.zskTtl + p.propDelay + p.pubSafety);
      var out := Handled(first.db, Both, false, Call(later, 3, p, 0, {}), first.newDs);
      && Good(db, 5) && Unallocated(rolled, spec, 3, true, 1) && Unallocated(given, spec, 3, true, 2)
      && first.status == Ok && Count(first.issued, InStates(3, ZSK, {Active})) == 1
      && out.status == Ok && Count(out.db.rows, InStates(3, ZSK, {Active})) == 2
      && Count(out.issued, InStates(3, ZSK, {Active})) == 2
  {
    hide Handled, KeyRolled, Count;
    var k := KeyPair(1, 1, 2048, 8, false, false, None, None);
    var r := Row(1, 1, ZSK, Active, Some(0), Some(0), Some(0), Some(100), None);
    var db := Db(map[1 := k, 2 := k], [r]);
    RollOfOne(db, r);
    var rolled := KeyRolled(db, RollScope(Some(1), None, Some(ZSK)), 5, {});
    var marked := r.(retire := Some(5));
    assert rolled.rows == [marked];
    var start := rolled.(rows := [marked, NewRow(1, 3, ZSK), NewRow(2, 3, ZSK)]);
    assert rolled.rows + [NewRow(1, 3, ZSK)] + [NewRow(2, 3, ZSK)] == start.rows;
    FirstOfThree(start, marked, p);
    var first := Handled(start, Both, false, Call(6, 3, p, 0, {}), false);
    SecondOfThree(first.db, first.newDs, p);
  }

  lemma RollOfOne(db: Db, r: Row)
    requires db.rows == [r] && Matches(InStates(1, ZSK, {Active}), r) && r.pair == 1
    ensures KeyRolled(db, RollScope(Some(1), None, Some(ZSK)), 5, {}) == MarkedPair(db, 1, 5)
  {
    var s := RollScope(Some(1), None, Some(ZSK));
    assert [r][..0] == [];
    assert Selection(db, s, []) == [];
    assert Selection(db, s, [r]) == [r];
    SingleRoll(db, r, None, 5, {});
  }

  /** The rows of zone 3 after its first request. */
  predicate Started(rows: seq<Row>, p: Policy) {
    && |rows| == 3 && rows[0].zone == 1
    && rows[1] == Row(1, 3, ZSK, Active, Some(6), None, Some(6), None, None)
    && rows[2].(ready := None) == Row(2, 3, ZSK, Publish, Some(6), None, None, None, None)
  }

  lemma FirstOfThree(db: Db, r: Row, p: Policy)
    requires db.rows == [r, NewRow(1, 3, ZSK), NewRow(2, 3, ZSK)] && r.zone == 1 && p.standbyZsks == 1
    requires 1 in db.pairs && db.pairs[1].fixedDate
    ensures var out := Handled(db, Both, false, Call(6, 3, p, 0, {}), false);
      && out.status == Ok && out.db.pairs == db.pairs && Started(out.db.rows, p)
      && Count(out.issued, InStates(3, ZSK, {Active})) == 1
  {
    hide ByType, Count, Picked, BackupRefused;
    var c := Call(6, 3, p, 0, {});
    var dated := WithDates(db, c);
    assert dated.rows == db.rows;
    assert Unique(db.rows);
    KskPassLeavesZsks(dated, false, c, false);
    var input, flag := ZskInput(db, Both, false, c, false), FlagInput(db, Both, false, c, false);
    assert input.rows == db.rows;
    assert input == db;
    CountNone(db.rows, InStates(3, ZSK, BEYOND_GENERATE));
    PoolOfThree(db.rows, r);
    NoneRefused(db, Pool(3));
    var f := FirstPassSigner(input, false, c, flag);
    OnlyOnePicked(db.rows, Pool(3), 1, f);
    var s := MovedN(db.rows, Pool(3), 2, Publish, 6);
    assert s == [r, Enter(NewRow(1, 3, ZSK), Publish, 6), Enter(NewRow(2, 3, ZSK), Publish, 6)];
    var out := ByType(input, ZSK, false, c, flag);
    RequestOfPass(db, Both, false, c, false);
    IssuedSigners(out.db.rows, c);
    CountOne(out.db.rows, InStates(3, ZSK, {Active}), 1);
  }

  lemma NoneRefused(db: Db, q: Clause)
    ensures !BackupRefused(db, q, 1, {})
  {
  }

  lemma PoolOfThree(rows: seq<Row>, r: Row)
    requires rows == [r, NewRow(1, 3, ZSK), NewRow(2, 3, ZSK)] && r.zone == 1
    ensures Count(rows, Pool(3)) == 2 && Picked(rows, Pool(3), 1, 1)
    ensures !Picked(rows, Pool(3), 2, 0) && Picked(rows, Pool(3), 2, 1) && Picked(rows, Pool(3), 2, 2)
  {
    assert rows[..2] == [r, NewRow(1, 3, ZSK)] && rows[..1] == [r] && rows[..0] == [];
    assert [r, NewRow(1, 3, ZSK)][..1] == [r] && [r][..0] == [];
    assert Count([r], Pool(3)) == 0;
    assert Count([r, NewRow(1, 3, ZSK)], Pool(3)) == 1;
  }

  lemma SecondOfThree(db: Db, newDs: bool, p: Policy)
    requires Started(db.rows, p) && !p.zskManual
    requires 1 in db.pairs && db.pairs[1].fixedDate && db.pairs[1].compromised
    ensures var out := Handled(db, Both, false, Call(6 + (p.zskTtl + p.propDelay + p.pubSafety), 3, p, 0, {}), newDs);
      && out.status == Ok && Count(out.db.rows, InStates(3, ZSK, {Active})) == 2
      && Count(out.issued, InStates(3, ZSK, {Active})) == 2
  {
    hide Handled, Count;
    var c := Call(6 + (p.zskTtl + p.propDelay + p.pubSafety), 3, p, 0, {});
    assert WillBeReady(db.rows[2], c);
    assert FirstReady(db.rows, c, 2);
    assert Matches(InStates(3, ZSK, {Active}), db.rows[1]);
    assert Compromised(db, ZSK, 3);
    RequestKeepsSignerIff(db, Both, false, c, newDs, 1, 2);
  }
}
