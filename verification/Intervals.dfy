/** The waiting times, written out: when a request may, and must, move a key that waits for a date. */
module Intervals {
  import opened Tables
  import opened Update
  import opened Request
  import opened Moves
  import opened Invariant
  import opened RequestSteps
  import Theorems
  import Zsk
  import Ksk

  /** The date is set and at least `wait` seconds past. */
  predicate Waited(date: Option<int>, wait: int, now: int) {
    date.Some? && date.value + wait <= now
  }

  /** What the draft on timing demands of a ZSK that waits in state publish or retire. */
  predicate ZskOnTime(r: Row, to: State, p: Policy, now: int) {
    && (r.state == Publish ==> (to in {Ready, Active} <==>
        Waited(r.publish, p.zskTtl + p.propDelay + p.pubSafety, now)))
    && (r.state == Retire ==> (to == Dead <==> Waited(r.retire, p.zskSigLife + p.propDelay + p.retSafety, now)))
  }

  /** And of a KSK: in publish, which it leaves under double-DNSKEY only; in dspublish, for the parent; in
      keypublish; and in retire,
      for the DS record to leave the caches. */
  predicate KskOnTime(r: Row, to: State, p: Policy, now: int) {
    && (r.state == Publish ==>
          (to == Ready <==> p.kskRoll.DoubleDnskey? && Waited(r.publish, p.zskTtl + p.propDelay + p.pubSafety, now)))
    && (r.state == DsPublish ==>
          (to in {DsReady, KeyPublish} <==> Waited(r.publish, p.kskTtl + p.kskPropDelay + p.pubSafety, now)))
    && (r.state == KeyPublish ==> (to == Active <==> Waited(r.publish, p.zskTtl + p.propDelay + p.pubSafety, now)))
    && (r.state == Retire ==> (to == Dead <==> Waited(r.retire, p.dsTtl + p.kskPropDelay + p.retSafety, now)))
  }

  /** A ZSK that is neither ready nor active is not touched by the switch of a later pass. */
  lemma SwitchedWaiting(db: Db, rolling: bool, c: Call, i: nat)
    requires i < |db.rows| && (db.rows[i].state == Ready ==> db.rows[i].retire.None?) && db.rows[i].state != Active
    ensures var t := Switched(db, ZSK, rolling, false, c).1;
      |t| == |db.rows| && (t[i] == db.rows[i] || (db.rows[i].state == Ready && t[i].state == Active))
  {
    hide Count;
  }

  lemma ZskWaiting(db: Db, rollover: bool, c: Call, newDs: bool, i: nat)
    requires Good(db, c.now) && i < |db.rows| && Zsk.IsZsk(db.rows[i], c.zone) && db.rows[i].state in {Publish, Retire}
    ensures var out := ByType(db, ZSK, rollover, c, newDs).db.rows;
      && |out| == |db.rows|
      && (db.rows[i].state == Publish ==> (out[i].state in {Ready, Active} <==> Due(db.rows[i].ready, c.now)))
      && (db.rows[i].state == Retire ==> (out[i].state == Dead <==> Due(db.rows[i].dead, c.now)))
  {
    hide Staged, Switched, StagedNewDs, Issue, Count, Marked;
    Zsk.FirstPassMeaning(db.rows, c.zone, c.now, db.pairs);
    var marked := if rollover then Marked(db, ZSK, c) else db;
    Zsk.MarkedRows(db, rollover, c);
    var s := Staged(marked.rows, ZSK, false, c, newDs);
    Zsk.ZskStaged(marked.rows, false, c, newDs);
    assert Zsk.StagedRow(marked.rows[i], s[i], c.now);
    SwitchedWaiting(marked.(rows := s), rollover || Compromised(db, ZSK, c.zone), c, i);
  }

  /** The dates that the first update of a request leaves, written out. */
  lemma DatesWrittenOut(db: Db, c: Call, i: nat)
    requires i < |db.rows| && db.rows[i].zone == c.zone
    ensures var r, s, p := db.rows[i], WithDates(db, c).rows[i], c.policy;
      && SameKey(r, s) && s.state == r.state && s.publish == r.publish && (r.state == Retire ==> s.retire == r.retire)
      && (r.state == Publish && (r.kind.ZSK? || p.kskRoll.DoubleDnskey?) ==>
          s.ready == Later(r.publish, p.zskTtl + p.propDelay + p.pubSafety))
      && (r.state == Publish && r.kind.KSK? && p.kskRoll.DoubleDs? ==>
          s.ready == Later(r.publish, p.kskTtl + p.kskPropDelay + p.pubSafety))
      && (r.state == DsPublish && r.kind.KSK? ==> s.ready == Later(r.publish, p.kskTtl + p.kskPropDelay + p.pubSafety))
      && (r.state == KeyPublish ==> s.active == Later(r.publish, p.zskTtl + p.propDelay + p.pubSafety))
      && (r.state == Retire && r.kind.ZSK? ==> s.dead == Later(r.retire, p.zskSigLife + p.propDelay + p.retSafety))
      && (r.state == Retire && r.kind.KSK? ==> s.dead == Later(r.retire, p.dsTtl + p.kskPropDelay + p.retSafety))
  {
  }

  /** Every successful request moves the waiting keys of its zone and type on time. */
  lemma RequestIsOnTime(db: Db, kinds: Kinds, rollover: bool, c: Call, newDs: bool, i: nat)
    requires Good(db, c.now) && i < |db.rows| && db.rows[i].zone == c.zone
    requires kinds.Both? || kinds.kind == db.rows[i].kind
    requires Handled(db, kinds, rollover, c, newDs).status == Ok
    ensures var rows := Handled(db, kinds, rollover, c, newDs).db.rows;
      && |rows| == |db.rows|
      && (db.rows[i].kind.ZSK? ==> ZskOnTime(db.rows[i], rows[i].state, c.policy, c.now))
      && (db.rows[i].kind.KSK? ==> KskOnTime(db.rows[i], rows[i].state, c.policy, c.now))
  {
    hide Handled, ZskOnTime, KskOnTime;
    if db.rows[i].kind.ZSK? {
      ZskInRequest(db, kinds, rollover, c, newDs, i);
    } else {
      KskInRequest(db, kinds, rollover, c, newDs, i);
    }
  }

  lemma KskInRequest(db: Db, kinds: Kinds, rollover: bool, c: Call, newDs: bool, i: nat)
    requires Good(db, c.now) && i < |db.rows| && Ksk.IsKsk(db.rows[i], c.zone)
    requires kinds.Both? || kinds.kind.KSK?
    requires Handled(db, kinds, rollover, c, newDs).status == Ok
    ensures var rows := Handled(db, kinds, rollover, c, newDs).db.rows;
      |rows| == |db.rows| && KskOnTime(db.rows[i], rows[i].state, c.policy, c.now)
  {
    hide ByType, Updated, RowsOk, KskOnTime, Ksk.Evolves;
    var dated := WithDates(db, c);
    UpdatedOk(db, c.policy, c.zone, c.now);
    UpdatedRises(db, c.policy, c.zone);
    UnsharedRises(db.rows, dated.rows);
    Theorems.UpdatedStates(db, c.policy, c.zone);
    var first := ByType(dated, KSK, rollover, c, newDs);
    Ksk.KskPass(dated, rollover, c, newDs);
    assert Ksk.Evolves(dated.rows[i], first.db.rows[i], c.policy, c.now);
    KskRowOnTime(db, first.db.rows[i], c, i);
    ByTypeOk(dated, KSK, rollover, c, newDs);
    PassElsewhere(dated, KSK, rollover, c, newDs);
    var last := first.db;
    if kinds.Both? {
      PassElsewhere(first.db, ZSK, rollover, c, first.newDs);
      last := ByType(first.db, ZSK, rollover, c, first.newDs).db;
      assert last.rows[i] == first.db.rows[i];
    }
    Theorems.UpdatedStates(last, c.policy, c.zone);
    assert Handled(db, kinds, rollover, c, newDs).db == WithDates(last, c);
  }

  lemma KskRowOnTime(db: Db, s: Row, c: Call, i: nat)
    requires i < |db.rows| && Ksk.IsKsk(db.rows[i], c.zone)
    requires Ksk.Evolves(WithDates(db, c).rows[i], s, c.policy, c.now)
    ensures KskOnTime(db.rows[i], s.state, c.policy, c.now)
  {
    hide Updated;
    DatesWrittenOut(db, c, i);
  }

  lemma ZskInRequest(db: Db, kinds: Kinds, rollover: bool, c: Call, newDs: bool, i: nat)
    requires Good(db, c.now) && i < |db.rows| && Zsk.IsZsk(db.rows[i], c.zone)
    requires kinds.Both? || kinds.kind.ZSK?
    requires Handled(db, kinds, rollover, c, newDs).status == Ok
    ensures var rows := Handled(db, kinds, rollover, c, newDs).db.rows;
      |rows| == |db.rows| && ZskOnTime(db.rows[i], rows[i].state, c.policy, c.now)
  {
    hide ByType, Updated, RowsOk;
    var dated := WithDates(db, c);
    UpdatedOk(db, c.policy, c.zone, c.now);
    UpdatedRises(db, c.policy, c.zone);
    UnsharedRises(db.rows, dated.rows);
    DatesWrittenOut(db, c, i);
    var input, flag := dated, newDs;
    if kinds.Both? {
      var first := ByType(dated, KSK, rollover, c, newDs);
      ByTypeOk(dated, KSK, rollover, c, newDs);
      PassElsewhere(dated, KSK, rollover, c, newDs);
      assert first.db.rows[i] == dated.rows[i];
      input, flag := first.db, first.newDs;
    }
    var out := ByType(input, ZSK, rollover, c, flag);
    PassElsewhere(input, ZSK, rollover, c, flag);
    Theorems.UpdatedStates(out.db, c.policy, c.zone);
    if db.rows[i].state in {Publish, Retire} {
      ZskWaiting(input, rollover, c, flag, i);
    }
  }

  // ---- The lifetime of a signing key ----

  lemma SwitchedSigner(db: Db, rolling: bool, firstPass: bool, c: Call, i: nat)
    requires i < |db.rows| && db.rows[i].state == Active
    ensures var t := Switched(db, ZSK, rolling, firstPass, c).1;
      |t| == |db.rows| && (t[i].state == Active || Due(db.rows[i].retire, c.now))
  {
    hide Count;
  }

  lemma SignerInPass(db: Db, c: Call, newDs: bool, i: nat)
    requires Good(db, c.now) && i < |db.rows| && Zsk.Signs(db.rows[i], c.zone)
    ensures var out := ByType(db, ZSK, false, c, newDs).db.rows;
      |out| == |db.rows| && (out[i].state == Active || Due(db.rows[i].retire, c.now))
  {
    hide Staged, Switched, StagedNewDs, Issue, Count;
    var firstPass := IsFirstPass(db.rows, ZSK, c.zone);
    var s := Staged(db.rows, ZSK, firstPass, c, newDs);
    Zsk.ZskStaged(db.rows, firstPass, c, newDs);
    assert Zsk.StagedRow(db.rows[i], s[i], c.now);
    SwitchedSigner(db.(rows := s), Compromised(db, ZSK, c.zone), firstPass, c, i);
  }

  /** A request that is not forced retires a ZSK whose date is not fixed only after its whole lifetime; a
      lifetime of zero stands for INT_MAX - 1 seconds. */
  lemma SignerServesLifetime(db: Db, kinds: Kinds, c: Call, newDs: bool, i: nat)
    requires Good(db, c.now) && i < |db.rows| && Zsk.Signs(db.rows[i], c.zone) && !HasFixedDate(db.pairs, db.rows[i])
    requires kinds.Both? || kinds.kind.ZSK?
    requires Handled(db, kinds, false, c, newDs).status == Ok
    ensures var rows := Handled(db, kinds, false, c, newDs).db.rows;
      && |rows| == |db.rows|
      && (rows[i].state != Active ==>
            Waited(db.rows[i].active, if c.policy.zskLife == 0 then 0x7fff_fffe else c.policy.zskLife, c.now))
  {
    hide ByType, Updated, RowsOk;
    var dated := WithDates(db, c);
    UpdatedOk(db, c.policy, c.zone, c.now);
    UpdatedRises(db, c.policy, c.zone);
    UnsharedRises(db.rows, dated.rows);
    RetireDateWrittenOut(db, c, i);
    var input, flag := dated, newDs;
    if kinds.Both? {
      var first := ByType(dated, KSK, false, c, newDs);
      ByTypeOk(dated, KSK, false, c, newDs);
      PassElsewhere(dated, KSK, false, c, newDs);
      assert first.db.rows[i] == dated.rows[i];
      input, flag := first.db, first.newDs;
    }
    var out := ByType(input, ZSK, false, c, flag);
    SignerInPass(input, c, flag, i);
    Theorems.UpdatedStates(out.db, c.policy, c.zone);
  }

  lemma RetireDateWrittenOut(db: Db, c: Call, i: nat)
    requires i < |db.rows| && Zsk.Signs(db.rows[i], c.zone) && !HasFixedDate(db.pairs, db.rows[i])
    ensures WithDates(db, c).rows[i] ==
      db.rows[i].(retire := Later(db.rows[i].active, if c.policy.zskLife == 0 then 0x7fff_fffe else c.policy.zskLife))
  {
  }
}
