/** Exactly when a request fails. */
module Outcomes {
  import opened Tables
  import opened Update
  import opened Request
  import opened Moves
  import opened BackupHistory
  import opened Signers
  import Theorems
  import Zsk

  function Pool(zone: int): Clause {
    InStates(zone, ZSK, {Generate})
  }

  /** The status of a ZSK pass, told from the tables before it: only a zone's first pass can fail, when it has fewer
      generated keys than the signing key and the standby keys, or when the first of them lacks a backup. */
  function ZskStatus(db: Db, c: Call): Status {
    if !IsFirstPass(db.rows, ZSK, c.zone) then Ok
    else if Count(db.rows, Pool(c.zone)) < 1 + c.policy.standbyZsks then TooFewKeys
    else if BackupRefused(db, Pool(c.zone), 1, c.needsBackup) then BackupFatal
    else Ok
  }

  // ---- One pass ----

  lemma LaterPassSucceeds(db: Db, rolling: bool, c: Call)
    ensures Switched(db, ZSK, rolling, false, c).0 == Ok
  {
    hide BackupRefused, MovedN, Moved;
  }

  /** Before the first pass no ZSK of the zone is beyond generate. */
  lemma NoneBeyond(rows: seq<Row>, c: Call)
    requires IsFirstPass(rows, ZSK, c.zone)
    ensures Zsk.AllGenerated(rows, c.zone)
  {
    forall i | 0 <= i < |rows| && Zsk.IsZsk(rows[i], c.zone)
      ensures rows[i].state == Generate
    {
      if rows[i].state != Generate {
        CountPositive(rows, InStates(c.zone, ZSK, BEYOND_GENERATE), i);
      }
    }
  }

  lemma FirstMark(db: Db, c: Call)
    requires Zsk.AllGenerated(db.rows, c.zone)
    ensures Marked(db, ZSK, c) == db
  {
    var marked := Marked(db, ZSK, c);
    assert forall k :: k !in ActivePairs(db.rows, ZSK, c.zone);
    assert forall k :: k in marked.pairs <==> k in db.pairs;
    assert forall k :: k in marked.pairs ==> marked.pairs[k] == db.pairs[k];
    assert marked.pairs == db.pairs;
    assert marked.rows == db.rows;
  }

  /** What steps 1 to 3 make of a zone that has only generated ZSKs. */
  lemma FirstStage(rows: seq<Row>, c: Call, newDs: bool)
    requires Zsk.AllGenerated(rows, c.zone)
    ensures Staged(rows, ZSK, true, c, newDs) ==
      if 1 + c.policy.standbyZsks <= Count(rows, Pool(c.zone)) then
        MovedN(rows, Pool(c.zone), 1 + c.policy.standbyZsks, Publish, c.now)
      else rows
  {
    hide Count, MovedN;
    assert RetireDead(rows, ZSK, c) == rows;
    assert PublishReady(rows, ZSK, c) == rows;
    CountNone(rows, InStates(c.zone, ZSK, AVAILABLE));
    CountNone(rows, RetiresBy(c.zone, ZSK, c.now + (PublicationInterval(c.policy) + c.interval)));
  }

  /** The first published key is the first generated one. */
  lemma FirstPublished(rows: seq<Row>, c: Call, n: nat, i: nat)
    requires Zsk.AllGenerated(rows, c.zone) && n > 0 && i < |rows|
    ensures Picked(MovedN(rows, Pool(c.zone), n, Publish, c.now), InStates(c.zone, ZSK, {Publish}), 1, i) <==>
      Picked(rows, Pool(c.zone), 1, i)
  {
    hide Count, MovedN;
    var s, q := MovedN(rows, Pool(c.zone), n, Publish, c.now), InStates(c.zone, ZSK, {Publish});
    PublishedRows(rows, c, n);
    if Picked(rows, Pool(c.zone), 1, i) {
      forall j | 0 <= j < i
        ensures !Matches(q, s[j])
      {
        if Matches(q, s[j]) {
          CountPositive(rows[..i], Pool(c.zone), j);
        }
      }
      CountNone(s[..i], q);
    } else if Picked(s, q, 1, i) {
      var f := CountWitness(rows, Pool(c.zone));
      assert Picked(rows, Pool(c.zone), 1, f);
      if f < i {
        CountPositive(s[..i], q, f);
      } else if f > i {
        CountPositive(rows[..f], Pool(c.zone), i);
      }
    }
  }

  lemma PublishedRows(rows: seq<Row>, c: Call, n: nat)
    requires Zsk.AllGenerated(rows, c.zone) && n > 0
    ensures var s := MovedN(rows, Pool(c.zone), n, Publish, c.now); var q := InStates(c.zone, ZSK, {Publish});
      && |s| == |rows|
      && forall i :: 0 <= i < |rows| ==>
           && (Matches(q, s[i]) <==> Picked(rows, Pool(c.zone), n, i))
           && (Matches(q, s[i]) ==> Matches(Pool(c.zone), rows[i]) && Count(rows, Pool(c.zone)) > 0)
  {
    hide Count;
    forall i | 0 <= i < |rows| && Matches(Pool(c.zone), rows[i])
      ensures Count(rows, Pool(c.zone)) > 0
    {
      CountPositive(rows, Pool(c.zone), i);
    }
  }

  lemma FirstSwitch(db: Db, rows: seq<Row>, rolling: bool, c: Call)
    requires Zsk.AllGenerated(db.rows, c.zone)
    requires rows == MovedN(db.rows, Pool(c.zone), 1 + c.policy.standbyZsks, Publish, c.now) || rows == db.rows
    requires rows == db.rows ==> Count(db.rows, Pool(c.zone)) < 1 + c.policy.standbyZsks
    requires rows != db.rows ==> Count(db.rows, Pool(c.zone)) >= 1 + c.policy.standbyZsks
    ensures Switched(db.(rows := rows), ZSK, rolling, true, c).0 ==
      if Count(db.rows, Pool(c.zone)) < 1 + c.policy.standbyZsks then TooFewKeys
      else if BackupRefused(db, Pool(c.zone), 1, c.needsBackup) then BackupFatal
      else Ok
  {
    hide Count, MovedN;
    var n, q := 1 + c.policy.standbyZsks, InStates(c.zone, ZSK, {Publish});
    var s := db.(rows := rows);
    PublishedRows(db.rows, c, n);
    EarlyStates(db.rows, rows, c, n);
    CountNone(rows, ActiveAfter(c.zone, ZSK, c.now));
    CountNone(rows, InStates(c.zone, ZSK, {Ready}));
    if rows == db.rows {
      CountNone(rows, q);
    } else {
      var f := CountWitness(db.rows, Pool(c.zone));
      assert Picked(db.rows, Pool(c.zone), 1, f);
      FirstPublished(db.rows, c, n, f);
      CountPositive(rows, q, f);
      forall i | 0 <= i < |rows|
        ensures Picked(rows, q, 1, i) <==> Picked(db.rows, Pool(c.zone), 1, i)
        ensures rows[i].pair == db.rows[i].pair
      {
        FirstPublished(db.rows, c, n, i);
      }
      SameRefusals(s, q, db, Pool(c.zone), c.needsBackup);
    }
  }

  lemma EarlyStates(a: seq<Row>, rows: seq<Row>, c: Call, n: nat)
    requires Zsk.AllGenerated(a, c.zone) && (rows == MovedN(a, Pool(c.zone), n, Publish, c.now) || rows == a)
    ensures |rows| == |a| && forall i :: 0 <= i < |rows| ==>
      && rows[i].pair == a[i].pair && (Zsk.IsZsk(rows[i], c.zone) ==> rows[i].state in {Generate, Publish})
      && (rows == a && Zsk.IsZsk(rows[i], c.zone) ==> rows[i].state == Generate)
  {
    hide Count;
  }

  /** Refusal looks only at the chosen rows and the backups of their pairs. */
  lemma SameRefusals(a: Db, q: Clause, b: Db, o: Clause, needsBackup: set<int>)
    requires |a.rows| == |b.rows|
    requires forall i :: 0 <= i < |a.rows| ==> (Picked(a.rows, q, 1, i) <==> Picked(b.rows, o, 1, i))
    requires forall i :: 0 <= i < |a.rows| ==>
      (LacksBackup(a.pairs, a.rows[i].pair, needsBackup) <==> LacksBackup(b.pairs, b.rows[i].pair, needsBackup))
    ensures BackupRefused(a, q, 1, needsBackup) <==> BackupRefused(b, o, 1, needsBackup)
  {
    hide Picked, LacksBackup;
  }

  lemma PassStatus(db: Db, rollover: bool, c: Call, newDs: bool)
    ensures ByType(db, ZSK, rollover, c, newDs).status == ZskStatus(db, c)
  {
    hide Staged, Switched, StagedNewDs, Issue, Marked, Count, MovedN, BackupRefused;
    var firstPass := IsFirstPass(db.rows, ZSK, c.zone);
    var marked := if rollover then Marked(db, ZSK, c) else db;
    var rolling := rollover || Compromised(db, ZSK, c.zone);
    if firstPass {
      NoneBeyond(db.rows, c);
      FirstMark(db, c);
      assert marked == db;
      FirstStage(db.rows, c, newDs);
      var rows := Staged(db.rows, ZSK, true, c, newDs);
      if Count(db.rows, Pool(c.zone)) >= 1 + c.policy.standbyZsks {
        SomeMoved(db.rows, c);
      }
      FirstSwitch(db, rows, rolling, c);
      assert marked.(rows := rows) == db.(rows := rows);
    } else {
      LaterPassSucceeds(marked.(rows := Staged(marked.rows, ZSK, false, c, newDs)), rolling, c);
    }
  }

  lemma SomeMoved(rows: seq<Row>, c: Call)
    requires Count(rows, Pool(c.zone)) >= 1 + c.policy.standbyZsks
    ensures MovedN(rows, Pool(c.zone), 1 + c.policy.standbyZsks, Publish, c.now) != rows
  {
    hide Count;
    var f := CountWitness(rows, Pool(c.zone));
    assert MovedN(rows, Pool(c.zone), 1 + c.policy.standbyZsks, Publish, c.now)[f].state == Publish;
  }

  /** What a successful first pass makes: the keys to be published, of which the first generated one signs. */
  lemma FirstPassSigner(db: Db, rollover: bool, c: Call, newDs: bool) returns (f: nat)
    requires IsFirstPass(db.rows, ZSK, c.zone) && ZskStatus(db, c) == Ok
    ensures f < |db.rows| && Picked(db.rows, Pool(c.zone), 1, f)
    ensures
      var s := MovedN(db.rows, Pool(c.zone), 1 + c.policy.standbyZsks, Publish, c.now);
      var out := ByType(db, ZSK, rollover, c, newDs);
      && out.status == Ok && out.db == db.(rows := s[f := Enter(s[f], Active, c.now)])
      && out.issued == Issue(out.db.rows, ZSK, c.zone) && Zsk.OneActive(out.db.rows, c.zone, f)
  {
    hide Staged, StagedNewDs, Issue, Marked, Count, MovedN, BackupRefused;
    NoneBeyond(db.rows, c);
    FirstMark(db, c);
    FirstStage(db.rows, c, newDs);
    var n, q := 1 + c.policy.standbyZsks, InStates(c.zone, ZSK, {Publish});
    var s := MovedN(db.rows, Pool(c.zone), n, Publish, c.now);
    PublishedRows(db.rows, c, n);
    EarlyStates(db.rows, s, c, n);
    CountNone(s, ActiveAfter(c.zone, ZSK, c.now));
    CountNone(s, InStates(c.zone, ZSK, {Ready}));
    f := CountWitness(db.rows, Pool(c.zone));
    assert Picked(db.rows, Pool(c.zone), 1, f);
    FirstPublished(db.rows, c, n, f);
    CountPositive(s, q, f);
    var g := Zsk.MovedOneRow(s, q, Active, c.now);
    FirstPublished(db.rows, c, n, g);
    OnlyOnePicked(db.rows, Pool(c.zone), f, g);
    PassStatus(db, rollover, c, newDs);
    SwitchedFirst(db.(rows := s), rollover || Compromised(db, ZSK, c.zone), c);
  }

  lemma SwitchedFirst(db: Db, rolling: bool, c: Call)
    requires Count(db.rows, ActiveAfter(c.zone, ZSK, c.now)) == 0 && Count(db.rows, InStates(c.zone, ZSK, {Ready})) == 0
    ensures Switched(db, ZSK, rolling, true, c) == ChangeN(db, InStates(c.zone, ZSK, {Publish}), 1, Active, c)
  {
    hide ChangeN, Count;
  }

  // ---- The whole request ----

  /** Tables that agree on the zone's ZSKs, up to their dates, and on the backups. */
  ghost predicate SameZsks(a: Db, b: Db, zone: int) {
    && |a.rows| == |b.rows|
    && (forall i :: 0 <= i < |a.rows| ==> SameKey(a.rows[i], b.rows[i]))
    && (forall i :: 0 <= i < |a.rows| && Zsk.IsZsk(a.rows[i], zone) ==> a.rows[i].state == b.rows[i].state)
    && BackupsKept(a.pairs, b.pairs)
  }

  lemma SameStatus(a: Db, b: Db, c: Call)
    requires SameZsks(a, b, c.zone)
    ensures ZskStatus(a, c) == ZskStatus(b, c)
    ensures IsFirstPass(a.rows, ZSK, c.zone) <==> IsFirstPass(b.rows, ZSK, c.zone)
  {
    hide Count;
    assert forall i :: 0 <= i < |a.rows| ==> SameKey(a.rows[i], b.rows[i]);
    CountEq(a.rows, InStates(c.zone, ZSK, BEYOND_GENERATE), b.rows, InStates(c.zone, ZSK, BEYOND_GENERATE));
    CountEq(a.rows, Pool(c.zone), b.rows, Pool(c.zone));
    forall i | 0 <= i < |a.rows|
      ensures Picked(a.rows, Pool(c.zone), 1, i) <==> Picked(b.rows, Pool(c.zone), 1, i)
      ensures LacksBackup(a.pairs, a.rows[i].pair, c.needsBackup) <==>
          LacksBackup(b.pairs, b.rows[i].pair, c.needsBackup)
    {
      CountEq(a.rows[..i], Pool(c.zone), b.rows[..i], Pool(c.zone));
    }
    SameRefusals(a, Pool(c.zone), b, Pool(c.zone), c.needsBackup);
  }

  /** A request fails if and only if it handles ZSKs, the zone's ZSKs are all still generated, and there are fewer of
      them than the signing key and the standby keys, or the first lacks a required backup. */
  lemma RequestStatus(db: Db, kinds: Kinds, rollover: bool, c: Call, newDs: bool)
    requires Unique(db.rows)
    ensures Handled(db, kinds, rollover, c, newDs).status == if kinds == Only(KSK) then Ok else ZskStatus(db, c)
  {
    hide ByType, Updated, ZskStatus, SameZsks;
    UniqueDated(db, c);
    KskPassLeavesZsks(WithDates(db, c), rollover, c, newDs);
    if kinds != Only(KSK) {
      InputStatus(db, kinds, rollover, c, newDs);
      PassStatus(ZskInput(db, kinds, rollover, c, newDs), rollover, c, FlagInput(db, kinds, rollover, c, newDs));
      assert kinds.Only? ==> kinds.kind.ZSK? by { assert kinds.Only? && kinds.kind.KSK? ==> kinds == Only(KSK); }
    }
  }

  lemma InputStatus(db: Db, kinds: Kinds, rollover: bool, c: Call, newDs: bool)
    requires Unique(db.rows)
    ensures ZskStatus(ZskInput(db, kinds, rollover, c, newDs), c) == ZskStatus(db, c)
    ensures
      IsFirstPass(ZskInput(db, kinds, rollover, c, newDs).rows, ZSK, c.zone) <==> IsFirstPass(db.rows, ZSK, c.zone)
  {
    hide ByType, Updated, ZskStatus, SameZsks;
    var dated := WithDates(db, c);
    UniqueDated(db, c);
    UpdateKeepsZsks(db, c);
    SameStatus(db, dated, c);
    if kinds.Both? {
      PassKeepsZsks(dated, rollover, c, newDs);
      SameStatus(dated, ByType(dated, KSK, rollover, c, newDs).db, c);
    }
  }

  lemma UpdateKeepsZsks(db: Db, c: Call)
    ensures SameZsks(db, WithDates(db, c), c.zone)
  {
    Theorems.UpdatedStates(db, c.policy, c.zone);
  }

  lemma PassKeepsZsks(db: Db, rollover: bool, c: Call, newDs: bool)
    requires Unique(db.rows)
    ensures SameZsks(db, ByType(db, KSK, rollover, c, newDs).db, c.zone)
  {
    hide ByType;
    KskPassLeavesZsks(db, rollover, c, newDs);
    PassKeepsBackups(db, KSK, rollover, c, newDs);
  }

  /** Whatever pairs are shared, a zone's first successful request ends with exactly one signer. */
  lemma FirstRequestOneSigner(db: Db, kinds: Kinds, rollover: bool, c: Call, newDs: bool)
    requires Unique(db.rows) && kinds != Only(KSK) && IsFirstPass(db.rows, ZSK, c.zone)
    requires Handled(db, kinds, rollover, c, newDs).status == Ok
    ensures var out := Handled(db, kinds, rollover, c, newDs);
      && Count(out.db.rows, InStates(c.zone, ZSK, {Active})) == 1
      && Count(out.issued, InStates(c.zone, ZSK, {Active})) == 1
  {
    hide Handled, ByType, Updated, ZskStatus, Count, MovedN, IsFirstPass, ZskInput, FlagInput;
    var input, flag := ZskInput(db, kinds, rollover, c, newDs), FlagInput(db, kinds, rollover, c, newDs);
    RequestStatus(db, kinds, rollover, c, newDs);
    InputStatus(db, kinds, rollover, c, newDs);
    var f := FirstPassSigner(input, rollover, c, flag);
    var out := ByType(input, ZSK, rollover, c, flag);
    RequestOfPass(db, kinds, rollover, c, newDs);
    CountOne(out.db.rows, InStates(c.zone, ZSK, {Active}), f);
    SameActiveCount(out.db, c);
    IssuedSigners(out.db.rows, c);
  }
}
