/** What holds in every run that starts before the enforcer has handled the zone. */
module Theorems {
  import opened Tables
  import opened Update
  import opened Request
  import opened Moves
  import opened Invariant
  import opened Lifeline
  import opened Supply
  import opened Runs
  import opened RequestSteps
  import opened EventSteps
  import opened Availability
  import Zsk
  import Ksk

  // ---- One signing key ----

  /** Every ZSK list that is ever issued for the zone names exactly one signing key. */
  lemma EveryListHasOneSigner(ws: seq<World>, es: seq<Event>, z: int, n: nat, m: nat)
    requires Run(ws, es) && Initial(ws[0], z) && n < |ws|
    requires m < |ws[n].log| && About(ws[n].log[m], z, ZSK)
    ensures |ws[n].log[m].signers| == 1
  {
    RunInv(ws, es, z, n);
  }

  /** The zone has no active ZSK before its first list, and exactly one ever after. */
  lemma OneActiveZsk(ws: seq<World>, es: seq<Event>, z: int, n: nat)
    requires Run(ws, es) && Initial(ws[0], z) && n < |ws|
    ensures Count(ws[n].db.rows, InStates(z, ZSK, {Active})) == if FirstList(ws[n].log, z, |ws[n].log|) then 0 else 1
  {
    RunInv(ws, es, z, n);
    var rows := ws[n].db.rows;
    if FirstList(ws[n].log, z, |ws[n].log|) {
      CountNone(rows, InStates(z, ZSK, {Active}));
    } else {
      var a: nat :| Zsk.OneActive(rows, z, a);
      CountOne(rows, InStates(z, ZSK, {Active}), a);
    }
  }

  // ---- The life of a ZSK ----

  /** For every key pair there are positions p <= r <= a <= s <= d such that the zone's ZSK lists name the key
      exactly from p to d and let it sign exactly from a to s, with the publication interval before it signs
      and the retire interval before it leaves. */
  lemma ZskLifeline(ws: seq<World>, es: seq<Event>, z: int, n: nat, k: int) returns (l: Life)
    requires Run(ws, es) && Initial(ws[0], z) && n < |ws|
    ensures Lives(ws[n].log, z, k, l)
  {
    RunInv(ws, es, z, n);
    assert HasLife(ws[n], z, k);
    l :| Suits(ws[n], z, k, l);
  }

  /** A signing key was in every list since p, and either signs from the zone's first list on, or the request
      r that found it ready came at least zskttl + propdelay + pub_safety after p. */
  lemma SignerWasPublished(ws: seq<World>, es: seq<Event>, z: int, n: nat, m: nat, k: int) returns (p: nat, r: nat)
    requires Run(ws, es) && Initial(ws[0], z) && n < |ws|
    requires m < |ws[n].log| && About(ws[n].log[m], z, ZSK) && k in ws[n].log[m].signers
    ensures var log := ws[n].log;
      && p <= r <= m && About(log[p], z, ZSK) && About(log[r], z, ZSK)
      && (forall i :: p <= i <= m && About(log[i], z, ZSK) ==> k in log[i].listed)
      && (|| (FirstList(log, z, p) && forall i :: p <= i <= m && About(log[i], z, ZSK) ==> k in log[i].signers)
          || (var q := log[r].policy;
              log[p].time + (q.zskTtl + q.propDelay + q.pubSafety) <= log[r].time <= log[m].time))
  {
    var l := ZskLifeline(ws, es, z, n, k);
    RunInv(ws, es, z, n);
    p, r := l.p, l.r;
  }

  /** A key that has signed and is no longer listed had stayed in every list, without signing, from the
      request s that first dropped it as signer to the request d that dropped it, and d came at least
      zsksiglife + propdelay + ret_safety after s. */
  lemma RetiredStayedListed(ws: seq<World>, es: seq<Event>, z: int, n: nat, m: nat, k: int, gone: nat)
    returns (s: nat, d: nat)
    requires Run(ws, es) && Initial(ws[0], z) && n < |ws|
    requires m < gone < |ws[n].log| && About(ws[n].log[m], z, ZSK) && About(ws[n].log[gone], z, ZSK)
    requires k in ws[n].log[m].signers && k !in ws[n].log[gone].listed
    ensures var log := ws[n].log;
      && m < s <= d <= gone && About(log[s], z, ZSK) && About(log[d], z, ZSK)
      && (forall i :: m <= i < s && About(log[i], z, ZSK) ==> k in log[i].signers)
      && (forall i :: s <= i <= gone && About(log[i], z, ZSK) ==> k !in log[i].signers)
      && (forall i :: s <= i < d && About(log[i], z, ZSK) ==> k in log[i].listed)
      && (var q := log[d].policy; log[s].time + (q.zskSigLife + q.propDelay + q.retSafety) <= log[d].time)
  {
    var l := ZskLifeline(ws, es, z, n, k);
    s, d := l.s, l.d;
  }

  // ---- Standby KSKs ----

  /** A published standby KSK leaves that state only by becoming active, at a request a that comes at least
      zskttl + propdelay + pub_safety after its publication date; it was in every list since p. For every key
      that no roll command has moved on, that date is the time of list p. */
  lemma StandbyWasPublished(ws: seq<World>, es: seq<Event>, z: int, n: nat, m: nat, k: int, later: nat)
    returns (p: nat, a: nat, date: int)
    requires Run(ws, es) && Initial(ws[0], z) && n < |ws|
    requires m < later < |ws[n].log| && About(ws[n].log[m], z, KSK) && About(ws[n].log[later], z, KSK)
    requires k in ws[n].log[m].standby && k !in ws[n].log[later].standby
    ensures var log := ws[n].log;
      && p <= m < a <= later && About(log[p], z, KSK) && About(log[a], z, KSK)
      && (forall i :: p <= i < a && About(log[i], z, KSK) ==> k in log[i].standby && k in log[i].listed)
      && k in log[a].signers
      && (var q := log[a].policy; date + (q.zskTtl + q.propDelay + q.pubSafety) <= log[a].time)
      && (k !in ws[n].rushed ==> date == log[p].time)
  {
    RunInv(ws, es, z, n);
    assert HasKskLife(ws[n], z, k);
    var l :| KskSuits(ws[n], z, k, l);
    p, a, date := l.p, l.a, l.seen;
  }

  // ---- Dying takes two requests ----

  lemma ZskActiveRow(db: Db, rollover: bool, c: Call, newDs: bool, i: nat)
    requires Good(db, c.now) && i < |db.rows| && Zsk.IsZsk(db.rows[i], c.zone) && db.rows[i].state == Active
    ensures ByType(db, ZSK, rollover, c, newDs).db.rows[i].state in {Active, Retire}
  {
    hide Staged, Switched, StagedNewDs, Issue, Count, Marked;
    var firstPass := IsFirstPass(db.rows, ZSK, c.zone);
    var marked := if rollover then Marked(db, ZSK, c) else db;
    Zsk.MarkedRows(db, rollover, c);
    var s := Staged(marked.rows, ZSK, firstPass, c, newDs);
    Zsk.ZskStaged(marked.rows, firstPass, c, newDs);
    assert Zsk.StagedRow(marked.rows[i], s[i], c.now);
    SwitchedActiveRow(marked.(rows := s), rollover || Compromised(db, ZSK, c.zone), firstPass, c, i);
  }

  lemma SwitchedActiveRow(db: Db, rolling: bool, firstPass: bool, c: Call, i: nat)
    requires i < |db.rows| && Zsk.IsZsk(db.rows[i], c.zone) && db.rows[i].state == Active
    ensures var t := Switched(db, ZSK, rolling, firstPass, c).1;
      |t| == |db.rows| && t[i].state in {Active, Retire}
  {
    hide Count;
  }

  /** No key goes from active to dead inside one request, although step 0a retires KSKs before step 1 looks
      for keys to bury: a dead date exists only once a key has retired. */
  lemma ActiveNeverDiesAtOnce(db: Db, kinds: Kinds, rollover: bool, c: Call, newDs: bool, i: nat)
    requires Good(db, c.now) && i < |db.rows| && db.rows[i].state == Active
    ensures var rows := Handled(db, kinds, rollover, c, newDs).db.rows;
      |rows| == |db.rows| && rows[i].state in {Active, Retire}
  {
    hide ByType, Updated;
    var dated := WithDates(db, c);
    UpdatedOk(db, c.policy, c.zone, c.now);
    UpdatedStates(db, c.policy, c.zone);
    UpdatedRises(db, c.policy, c.zone);
    UnsharedRises(db.rows, dated.rows);
    var kind := if kinds.Both? then KSK else kinds.kind;
    var first := ByType(dated, kind, rollover, c, newDs);
    PassActiveRow(dated, kind, rollover, c, newDs, i);
    UpdatedStates(first.db, c.policy, c.zone);
    if kinds.Both? {
      ByTypeOk(dated, KSK, rollover, c, newDs);
      PassElsewhere(dated, KSK, rollover, c, newDs);
      var second := ByType(first.db, ZSK, rollover, c, first.newDs);
      PassElsewhere(first.db, ZSK, rollover, c, first.newDs);
      UpdatedStates(second.db, c.policy, c.zone);
      if Zsk.IsZsk(dated.rows[i], c.zone) {
        assert first.db.rows[i] == dated.rows[i];
        ZskActiveRow(first.db, rollover, c, first.newDs, i);
      } else {
        assert second.db.rows[i] == first.db.rows[i];
      }
    }
  }

  lemma UpdatedStates(db: Db, p: Policy, zone: int)
    ensures forall i :: 0 <= i < |db.rows| ==>
      Updated(db, p, zone)[i].state == db.rows[i].state && SameKey(db.rows[i], Updated(db, p, zone)[i])
  {
  }

  lemma PassActiveRow(db: Db, kind: KeyType, rollover: bool, c: Call, newDs: bool, i: nat)
    requires Good(db, c.now) && i < |db.rows| && db.rows[i].state == Active
    ensures var rows := ByType(db, kind, rollover, c, newDs).db.rows;
      |rows| == |db.rows| && rows[i].state in {Active, Retire}
  {
    hide ByType;
    PassElsewhere(db, kind, rollover, c, newDs);
    if db.rows[i].zone == c.zone && db.rows[i].kind == kind {
      if kind.ZSK? {
        ZskActiveRow(db, rollover, c, newDs, i);
      } else {
        Ksk.KskPass(db, rollover, c, newDs);
        assert Ksk.Evolves(db.rows[i], ByType(db, KSK, rollover, c, newDs).db.rows[i], c.policy, c.now);
      }
    }
  }

  // ---- Enough keys ----

  lemma PairOfRow(db: Db, clock: int, i: nat)
    requires Good(db, clock) && i < |db.rows|
    ensures db.rows[i].pair in db.pairs
  {
  }

  lemma SameStandby(db: Db, c: Call)
    ensures Count(Updated(db, c.policy, c.zone), InStates(c.zone, ZSK, {Publish, Ready, Active}))
      == Count(db.rows, InStates(c.zone, ZSK, {Publish, Ready, Active}))
  {
    UpdatedStates(db, c.policy, c.zone);
    var q := InStates(c.zone, ZSK, {Publish, Ready, Active});
    CountEq(Updated(db, c.policy, c.zone), q, db.rows, q);
  }

  /** Every successful request, forced or not, whose ZSK pass finds enough generated keys ends with the signing key and
      all standby ZSKs in publish, ready or active. */
  lemma CoveredRequestKeepsStandby(db: Db, kinds: Kinds, rollover: bool, c: Call, newDs: bool)
    requires Good(db, c.now) && kinds != Only(KSK)
    requires var input := ZskInput(db, kinds, rollover, c, newDs);
      Covered(BeforeReplenish((if rollover then Marked(input, ZSK, c) else input).rows, c), c)
    ensures Handled(db, kinds, rollover, c, newDs).status == Ok ==>
      Count(Handled(db, kinds, rollover, c, newDs).db.rows, InStates(c.zone, ZSK, {Publish, Ready, Active}))
        >= 1 + c.policy.standbyZsks
  {
    hide ByType, Updated, Count, Covered, BeforeReplenish, RowsOk, Marked;
    var dated := WithDates(db, c);
    UpdatedOk(db, c.policy, c.zone, c.now);
    UpdatedRises(db, c.policy, c.zone);
    UnsharedRises(db.rows, dated.rows);
    var input, flag := ZskInput(db, kinds, rollover, c, newDs), FlagInput(db, kinds, rollover, c, newDs);
    if kinds.Both? {
      ByTypeOk(dated, KSK, rollover, c, newDs);
    }
    CoveredPassKeepsStandby(input, rollover, c, flag);
    if Handled(db, kinds, rollover, c, newDs).status == Ok {
      var out := ByType(input, ZSK, rollover, c, flag);
      assert kinds.Only? ==> kinds.kind.ZSK? by { assert kinds.Only? && kinds.kind.KSK? ==> kinds == Only(KSK); }
      assert Handled(db, kinds, rollover, c, newDs).db.rows == Updated(out.db, c.policy, c.zone);
      SameStandby(out.db, c);
    }
  }

  /** Allocation followed by an unforced request at that instant, parameters unchanged: the ZSK pass finds at least
      as many generated keys as it must publish, and if the request succeeds the zone ends with its signing key and
      all its standby ZSKs in publish, ready or active, even if a key was activated and one retired. */
  lemma SuppliedRequest(db: Db, kinds: Kinds, c: Call, newDs: bool, scheme: RollScheme)
    requires Good(db, c.now) && RetireDatesCurrent(db, c.policy, c.zone)
    requires AllocationDemand(db.rows, ZSK, c, scheme) <= 0
    requires kinds != Only(KSK)
    ensures Covered(BeforeReplenish(ZskInput(db, kinds, false, c, newDs).rows, c), c)
    ensures Handled(db, kinds, false, c, newDs).status == Ok ==>
      Count(Handled(db, kinds, false, c, newDs).db.rows, InStates(c.zone, ZSK, {Publish, Ready, Active}))
        >= 1 + c.policy.standbyZsks
  {
    hide ByType, Updated, Count, AllocationDemand, Covered, BeforeReplenish, RowsOk, RetireDatesCurrent;
    var dated := WithDates(db, c);
    SupplyMeetsDemand(db, c, scheme);
    UpdatedOk(db, c.policy, c.zone, c.now);
    UpdatedRises(db, c.policy, c.zone);
    UnsharedRises(db.rows, dated.rows);
    var input, flag := ZskInput(db, kinds, false, c, newDs), FlagInput(db, kinds, false, c, newDs);
    if kinds.Both? {
      ByTypeOk(dated, KSK, false, c, newDs);
      PassElsewhere(dated, KSK, false, c, newDs);
      assert forall i :: 0 <= i < |dated.rows| ==> SameKey(dated.rows[i], input.rows[i]);
      SameDemand(dated.rows, input.rows, c, scheme);
    }
    DemandCovers(input, c, scheme);
    CoveredRequestKeepsStandby(db, kinds, false, c, newDs);
  }
}
