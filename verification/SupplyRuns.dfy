/** Supply meets demand in every run: between requests under one policy, no event spoils the retire dates that
    allocation counts with. */
module SupplyRuns {
  import opened Tables
  import opened Update
  import opened Request
  import opened Moves
  import opened Invariant
  import opened Supply
  import opened Availability
  import opened KeyRoll
  import opened RollSteps
  import opened Runs
  import opened RequestSteps
  import opened EventSteps
  import Theorems
  import Zsk

  /** The request is for another zone or under policy p. */
  predicate Under(e: Event, z: int, p: Policy) {
    e.KeyRequest? && e.call.zone == z ==> e.call.policy == p
  }

  // ---- Requests ----

  lemma OwnRequest(db: Db, kinds: Kinds, rollover: bool, c: Call, newDs: bool)
    requires RetireDatesCurrent(db, c.policy, c.zone)
    ensures RetireDatesCurrent(Handled(db, kinds, rollover, c, newDs).db, c.policy, c.zone)
  {
    hide Handled;
    var out := Handled(db, kinds, rollover, c, newDs);
    if out.status == Ok {
      RequestLeavesDates(db, kinds, rollover, c, newDs);
      CurrentFromUpToDate(out.db, c);
    } else {
      FailureKeeps(db, kinds, rollover, c, newDs);
    }
  }

  lemma CurrentFromUpToDate(db: Db, c: Call)
    requires UpToDate(db, c)
    ensures RetireDatesCurrent(db, c.policy, c.zone)
  {
    assert WithDates(db, c).rows == db.rows;
    forall i | 0 <= i < |db.rows| && Zsk.Signs(db.rows[i], c.zone)
      ensures UpdatedRow(db.rows[i], c.policy, HasFixedDate(db.pairs, db.rows[i])) == db.rows[i]
    {
      assert WithDates(db, c).rows[i] == db.rows[i];
    }
  }

  lemma FailureKeeps(db: Db, kinds: Kinds, rollover: bool, c: Call, newDs: bool)
    requires Handled(db, kinds, rollover, c, newDs).status != Ok
    ensures Handled(db, kinds, rollover, c, newDs).db == db
  {
    hide ByType, Updated;
  }

  /** Rows of other zones, and the flags of their pairs, are as they were. */
  ghost predicate Elsewhere(a: Db, b: Db, zone: int) {
    && |a.rows| == |b.rows| && (forall i :: 0 <= i < |a.rows| ==> SameKey(a.rows[i], b.rows[i]))
    && forall i :: 0 <= i < |a.rows| && a.rows[i].zone != zone ==>
         b.rows[i] == a.rows[i] && HasFixedDate(b.pairs, a.rows[i]) == HasFixedDate(a.pairs, a.rows[i])
  }

  lemma PassLeavesOthers(db: Db, kind: KeyType, rollover: bool, c: Call, newDs: bool)
    requires Good(db, c.now)
    ensures Elsewhere(db, ByType(db, kind, rollover, c, newDs).db, c.zone)
  {
    hide ByType, RowsOk;
    PassElsewhere(db, kind, rollover, c, newDs);
    PassPairs(db, kind, rollover, c, newDs);
    MarkedUnshared(db, kind, c);
  }

  lemma OtherRequest(db: Db, kinds: Kinds, rollover: bool, c: Call, newDs: bool, z: int, p: Policy)
    requires Good(db, c.now) && c.zone != z && RetireDatesCurrent(db, p, z)
    ensures RetireDatesCurrent(Handled(db, kinds, rollover, c, newDs).db, p, z)
  {
    hide ByType, RowsOk, Elsewhere, RetireDatesCurrent;
    var dated := WithDates(db, c);
    UpdatedOk(db, c.policy, c.zone, c.now);
    UpdatedRises(db, c.policy, c.zone);
    UnsharedRises(db.rows, dated.rows);
    UpdateLeavesOthers(db, c);
    var kind := if kinds.Both? then KSK else kinds.kind;
    var first := ByType(dated, kind, rollover, c, newDs);
    PassLeavesOthers(dated, kind, rollover, c, newDs);
    ByTypeOk(dated, kind, rollover, c, newDs);
    UpdateLeavesOthers(first.db, c);
    var second := ByType(first.db, ZSK, rollover, c, first.newDs);
    PassLeavesOthers(first.db, ZSK, rollover, c, first.newDs);
    UpdateLeavesOthers(second.db, c);
    CurrentElsewhere(db, dated, c.zone, z, p);
    CurrentElsewhere(dated, first.db, c.zone, z, p);
    CurrentElsewhere(first.db, WithDates(first.db, c), c.zone, z, p);
    CurrentElsewhere(first.db, second.db, c.zone, z, p);
    CurrentElsewhere(second.db, WithDates(second.db, c), c.zone, z, p);
  }

  lemma UpdateLeavesOthers(db: Db, c: Call)
    ensures Elsewhere(db, WithDates(db, c), c.zone)
  {
  }

  lemma CurrentElsewhere(a: Db, b: Db, zone: int, z: int, p: Policy)
    requires Elsewhere(a, b, zone) && zone != z && RetireDatesCurrent(a, p, z)
    ensures RetireDatesCurrent(b, p, z)
  {
    forall i | 0 <= i < |b.rows| && Zsk.Signs(b.rows[i], z)
      ensures UpdatedRow(b.rows[i], p, HasFixedDate(b.pairs, b.rows[i])) == b.rows[i]
    {
      assert SameKey(a.rows[i], b.rows[i]);
    }
  }

  // ---- The other events ----

  lemma RollKeepsCurrent(w: World, s: RollScope, now: int, loose: set<int>, z: int, p: Policy)
    requires Inv(w, z) && RetireDatesCurrent(w.db, p, z)
    ensures RetireDatesCurrent(KeyRolled(w.db, s, now, loose), p, z)
  {
    hide SignerOk, HasLife, HasKskLife, RowsOk, KeyRolled, Rolled;
    var after, ids := KeyRolled(w.db, s, now, loose), Targets(w.db, s);
    KeyRolledRolls(w.db, s, now, loose);
    RolledKeys(w.db, after, now, ids);
    forall i | 0 <= i < |after.rows| && Zsk.Signs(after.rows[i], z)
      ensures UpdatedRow(after.rows[i], p, HasFixedDate(after.pairs, after.rows[i])) == after.rows[i]
    {
      RolledAt(w.db, after, now, ids, i);
      RolledPairAt(w.db, after, now, ids, after.rows[i].pair);
      Theorems.PairOfRow(w.db, w.clock, i);
    }
  }

  lemma PurgeKeepsCurrent(db: Db, owner: Option<int>, limit: int, z: int, p: Policy)
    requires Unshared(db.rows) && RetireDatesCurrent(db, p, z)
    ensures RetireDatesCurrent(Purged(db, owner, limit), p, z)
  {
    hide Purged;
    var after := Purged(db, owner, limit);
    PurgeReduces(db, owner, limit);
    forall i | 0 <= i < |after.rows| && Zsk.Signs(after.rows[i], z)
      ensures UpdatedRow(after.rows[i], p, HasFixedDate(after.pairs, after.rows[i])) == after.rows[i]
    {
      assert after.rows[i] in after.rows;
      var j :| 0 <= j < |db.rows| && db.rows[j] == after.rows[i];
    }
  }

  lemma StepKeepsCurrent(w: World, e: Event, z: int, p: Policy)
    requires Inv(w, z) && Enabled(w, e) && Under(e, z, p) && RetireDatesCurrent(w.db, p, z)
    ensures RetireDatesCurrent(Exec(w, e).db, p, z)
  {
    hide Handled, KeyRolled, Purged, SignerOk, HasLife, HasKskLife, RowsOk;
    match e
    case KeyRequest(kinds, rollover, c, newDs) =>
      if c.zone == z {
        OwnRequest(w.db, kinds, rollover, c, newDs);
      } else {
        GoodLater(w.db, w.clock, c.now);
        OtherRequest(w.db, kinds, rollover, c, newDs, z, p);
      }
    case Create(s) =>
      CreateKeepsCurrent(w, s, z, p);
    case Roll(s, now, loose) =>
      RollKeepsCurrent(w, s, now, loose, z, p);
    case Purge(owner, limit) =>
      PurgeKeepsCurrent(w.db, owner, limit, z, p);
    case _ =>
      SmallStepKeepsCurrent(w, e, z, p);
  }

  lemma CreateKeepsCurrent(w: World, s: Spec, z: int, p: Policy)
    requires Inv(w, z) && RetireDatesCurrent(w.db, p, z)
    ensures RetireDatesCurrent(Exec(w, Create(s)).db, p, z)
  {
    hide SignerOk, HasLife, HasKskLife;
    assert forall i :: 0 <= i < |w.db.rows| ==> w.db.rows[i].pair != w.nextId;
  }

  lemma SmallStepKeepsCurrent(w: World, e: Event, z: int, p: Policy)
    requires Enabled(w, e) && RetireDatesCurrent(w.db, p, z)
    requires e.Allocate? || e.DsSeen? || e.RetireOld? || e.Prepare? || e.Rollback? || e.Commit?
    ensures RetireDatesCurrent(Exec(w, e).db, p, z)
  {
    hide Handled, KeyRolled, Purged;
    var after := Exec(w, e).db;
    forall i | 0 <= i < |after.rows| && Zsk.Signs(after.rows[i], z)
      ensures UpdatedRow(after.rows[i], p, HasFixedDate(after.pairs, after.rows[i])) == after.rows[i]
    {
      assert i < |w.db.rows| && after.rows[i] == w.db.rows[i];
    }
  }

  /** From event `start` on the requests for the zone are under policy p, and before that either the run begins or a
      request for the zone under p has just succeeded. */
  predicate SettledFrom(ws: seq<World>, es: seq<Event>, z: int, p: Policy, start: nat, n: nat)
    requires n < |ws| == |es| + 1
  {
    && start <= n && (forall m :: start <= m < n ==> Under(es[m], z, p))
    && (start == 0 || SucceededUnder(ws[start - 1], es[start - 1], z, p))
  }

  predicate SucceededUnder(w: World, e: Event, z: int, p: Policy) {
    && e.KeyRequest? && e.call.zone == z && e.call.policy == p
    && Handled(w.db, e.kinds, e.rollover, e.call, e.newDs).status == Ok
  }

  /** In every run: once the requests for the zone are under one policy, its retire dates are current. */
  lemma {:induction false} RunKeepsCurrent(ws: seq<World>, es: seq<Event>, z: int, p: Policy, start: nat, n: nat)
    requires Run(ws, es) && Initial(ws[0], z) && n < |ws| && SettledFrom(ws, es, z, p, start, n)
    ensures RetireDatesCurrent(ws[n].db, p, z)
  {
    hide Inv, Enabled, Handled, RetireDatesCurrent;
    if start < n {
      RunKeepsCurrent(ws, es, z, p, start, n - 1);
      RunInv(ws, es, z, n - 1);
      StepKeepsCurrent(ws[n - 1], es[n - 1], z, p);
    } else if start == 0 {
      InitialCurrent(ws[0], z, p);
    } else {
      var w, e := ws[n - 1], es[n - 1];
      RequestLeavesDates(w.db, e.kinds, e.rollover, e.call, e.newDs);
      CurrentFromUpToDate(Handled(w.db, e.kinds, e.rollover, e.call, e.newDs).db, e.call);
    }
  }

  lemma InitialCurrent(w: World, z: int, p: Policy)
    requires Initial(w, z)
    ensures RetireDatesCurrent(w.db, p, z)
  {
  }

  /** In every run, as soon as a request for the zone has succeeded under a policy and the later ones are under it too:
      when allocation has nothing more to add and an unforced request follows at that instant, the request finds at
      least as many generated ZSKs as it must publish, and if it succeeds the zone has 1 + standby ZSKs in publish,
      ready or active. */
  lemma SupplyMeetsDemandInRuns(ws: seq<World>, es: seq<Event>, start: nat, n: nat, scheme: RollScheme)
    requires Run(ws, es) && n < |es| && es[n].KeyRequest? && es[n].kinds != Only(KSK) && !es[n].rollover
    requires Initial(ws[0], es[n].call.zone) && SettledFrom(ws, es, es[n].call.zone, es[n].call.policy, start, n)
    requires AllocationDemand(ws[n].db.rows, ZSK, es[n].call, scheme) <= 0
    ensures var e := es[n];
      && Covered(BeforeReplenish(ZskInput(ws[n].db, e.kinds, false, e.call, e.newDs).rows, e.call), e.call)
      && (Handled(ws[n].db, e.kinds, false, e.call, e.newDs).status == Ok ==>
            Count(ws[n + 1].db.rows, InStates(e.call.zone, ZSK, {Publish, Ready, Active}))
              >= 1 + e.call.policy.standbyZsks)
  {
    hide Handled, SignerOk, HasLife, HasKskLife, RowsOk, Initial, Covered, BeforeReplenish, ZskInput;
    hide AllocationDemand, Count, SettledFrom;
    var w, e := ws[n], es[n];
    RunInv(ws, es, e.call.zone, n);
    RunKeepsCurrent(ws, es, e.call.zone, e.call.policy, start, n);
    GoodLater(w.db, w.clock, e.call.now);
    Theorems.SuppliedRequest(w.db, e.kinds, e.call, e.newDs, scheme);
  }
}
