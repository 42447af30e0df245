/** Enough keys: allocation covers what the next request must publish, and every request that is covered ends
    with the signing key and all standby keys in place. */
module Availability {
  import opened Tables
  import opened Update
  import opened Request
  import opened Moves
  import opened Invariant
  import opened Zsk
  import opened Supply

  /** The zone's rows when step 3 looks at them. */
  function BeforeReplenish(rows: seq<Row>, c: Call): (r: seq<Row>)
    ensures |r| == |rows|
  {
    PublishReady(RetireDead(rows, ZSK, c), ZSK, c)
  }

  /** The generate pool covers what must be published. */
  predicate Covered(rows: seq<Row>, c: Call) {
    Shortfall(rows, ZSK, c) <= Count(rows, InStates(c.zone, ZSK, {Generate}))
  }

  /** The estimated dates are those that the current parameters give. */
  predicate UpToDate(db: Db, c: Call) {
    WithDates(db, c) == db
  }

  /** The retire dates of the zone's active ZSKs are those that the parameters give. */
  predicate RetireDatesCurrent(db: Db, p: Policy, zone: int) {
    forall i :: 0 <= i < |db.rows| && Signs(db.rows[i], zone) ==>
      UpdatedRow(db.rows[i], p, HasFixedDate(db.pairs, db.rows[i])) == db.rows[i]
  }

  // ---- Allocation covers the next request ----

  /** A successful request leaves up-to-date dates behind. */
  lemma RequestLeavesDates(db: Db, kinds: Kinds, rollover: bool, c: Call, newDs: bool)
    requires Handled(db, kinds, rollover, c, newDs).status == Ok
    ensures UpToDate(Handled(db, kinds, rollover, c, newDs).db, c)
  {
    hide ByType, Updated;
    var dated := WithDates(db, c);
    var first := ByType(dated, if kinds.Both? then KSK else kinds.kind, rollover, c, newDs);
    UpdateIdempotent(first.db, c.policy, c.zone);
    UpdateIdempotent(ByType(first.db, ZSK, rollover, c, first.newDs).db, c.policy, c.zone);
  }

  /** Each allocated key lowers the demand by one. */
  lemma AllocationLowersDemand(rows: seq<Row>, kind: KeyType, c: Call, scheme: RollScheme, id: int)
    ensures AllocationDemand(rows + [NewRow(id, c.zone, kind)], kind, c, scheme)
      == AllocationDemand(rows, kind, c, scheme) - 1
  {
    hide Count, Predicted;
    var r := NewRow(id, c.zone, kind);
    CountAppend(rows, r, InStates(c.zone, kind, QUEUED));
    forall limit
      ensures Count(rows + [r], RetiresBy(c.zone, kind, limit)) == Count(rows, RetiresBy(c.zone, kind, limit))
    {
      CountAppend(rows, r, RetiresBy(c.zone, kind, limit));
    }
  }

  lemma BeforeReplenishCounts(rows: seq<Row>, c: Call, limit: int)
    requires forall i :: 0 <= i < |rows| && IsZsk(rows[i], c.zone) ==>
        rows[i].state in {Generate, Publish, Ready, Active, Retire, Dead}
    ensures var d := BeforeReplenish(rows, c);
      && Count(rows, InStates(c.zone, ZSK, QUEUED))
         == Count(d, InStates(c.zone, ZSK, AVAILABLE)) + Count(d, InStates(c.zone, ZSK, {Generate}))
      && Count(d, RetiresBy(c.zone, ZSK, limit)) == Count(rows, RetiresBy(c.zone, ZSK, limit))
  {
    var b := RetireDead(rows, ZSK, c);
    var d := PublishReady(b, ZSK, c);
    forall i | 0 <= i < |rows|
      ensures d[i] == rows[i]
              || (rows[i].state == Retire && d[i] == Enter(rows[i], Dead, c.now))
              || (rows[i].state == Publish && d[i] == Enter(rows[i], Ready, c.now))
    {
      assert b[i] == rows[i] || (rows[i].state == Retire && b[i] == Enter(rows[i], Dead, c.now));
    }
    var queued, available := InStates(c.zone, ZSK, QUEUED), InStates(c.zone, ZSK, AVAILABLE);
    CountSplit(rows, queued, d, available, d, InStates(c.zone, ZSK, {Generate}));
    CountEq(d, RetiresBy(c.zone, ZSK, limit), rows, RetiresBy(c.zone, ZSK, limit));
  }

  lemma DemandCovers(db: Db, c: Call, scheme: RollScheme)
    requires RowsOk(db.rows, db.pairs, c.now) && AllocationDemand(db.rows, ZSK, c, scheme) <= 0
    ensures Covered(BeforeReplenish(db.rows, c), c)
  {
    hide Count, BeforeReplenish;
    BeforeReplenishCounts(db.rows, c, c.now + (PublicationInterval(c.policy) + c.interval));
    assert Predicted(c.policy, ZSK, c.interval, scheme) >= 1 + c.policy.standbyZsks;
  }

  /** Supply meets demand: once allocation has nothing more to add, a request at that instant with the same
      parameters finds at least as many generated ZSKs as it must publish. */
  lemma SupplyMeetsDemand(db: Db, c: Call, scheme: RollScheme)
    requires Good(db, c.now) && RetireDatesCurrent(db, c.policy, c.zone)
    requires AllocationDemand(db.rows, ZSK, c, scheme) <= 0
    ensures AllocationDemand(WithDates(db, c).rows, ZSK, c, scheme) <= 0
    ensures Covered(BeforeReplenish(WithDates(db, c).rows, c), c)
  {
    hide AllocationDemand, Covered, BeforeReplenish;
    UpdatedOk(db, c.policy, c.zone, c.now);
    SameDemand(db.rows, WithDates(db, c).rows, c, scheme);
    DemandCovers(WithDates(db, c), c, scheme);
  }

  /** The demand looks only at the states of the zone's ZSKs and at the retire dates of the active ones. */
  lemma SameDemand(a: seq<Row>, b: seq<Row>, c: Call, scheme: RollScheme)
    requires |a| == |b|
    requires forall i :: 0 <= i < |a| ==> SameKey(a[i], b[i])
    requires forall i :: 0 <= i < |a| && IsZsk(a[i], c.zone) ==>
      a[i].state == b[i].state && (a[i].state == Active ==> a[i].retire == b[i].retire)
    ensures AllocationDemand(a, ZSK, c, scheme) == AllocationDemand(b, ZSK, c, scheme)
  {
    CountEq(a, InStates(c.zone, ZSK, QUEUED), b, InStates(c.zone, ZSK, QUEUED));
    var limit := c.now + (PublicationInterval(c.policy) + c.interval);
    CountEq(a, RetiresBy(c.zone, ZSK, limit), b, RetiresBy(c.zone, ZSK, limit));
  }

  // ---- A covered request keeps the zone supplied ----

  /** What `q` selects is covered by what `p` and `o` select. */
  lemma {:induction false} CountCover(a: seq<Row>, q: Clause, b: seq<Row>, p: Clause, c: seq<Row>, o: Clause)
    requires |a| == |b| == |c|
    requires forall i :: 0 <= i < |a| && Matches(q, a[i]) ==> Matches(p, b[i]) || Matches(o, c[i])
    ensures Count(a, q) <= Count(b, p) + Count(c, o)
  {
    if a != [] {
      CountCover(a[..|a| - 1], q, b[..|b| - 1], p, c[..|c| - 1], o);
    }
  }

  lemma PublishedOne(r: Row, c: Call)
    requires Matches(InStates(c.zone, ZSK, {Generate}), r)
    ensures !Matches(InStates(c.zone, ZSK, AVAILABLE), r)
    ensures Matches(InStates(c.zone, ZSK, AVAILABLE), Enter(r, Publish, c.now))
  {
  }

  lemma {:induction false} CountPublished(rows: seq<Row>, c: Call, n: nat)
    ensures var pool := InStates(c.zone, ZSK, {Generate});
      Count(MovedN(rows, pool, n, Publish, c.now), InStates(c.zone, ZSK, AVAILABLE))
      == Count(rows, InStates(c.zone, ZSK, AVAILABLE)) + if Count(rows, pool) < n then Count(rows, pool) else n
  {
    hide Matches, Enter;
    if rows != [] {
      var pool := InStates(c.zone, ZSK, {Generate});
      var last := |rows| - 1;
      CountPublished(rows[..last], c, n);
      MovedNFront(rows, pool, n, Publish, c.now);
      if Matches(pool, rows[last]) {
        PublishedOne(rows[last], c);
      }
    }
  }

  lemma ReplenishedCounts(d: seq<Row>, c: Call)
    requires Covered(d, c)
    ensures var s := Replenished(d, ZSK, c);
      Count(s, InStates(c.zone, ZSK, AVAILABLE)) - PendingRetire(s, ZSK, c) >= 1 + c.policy.standbyZsks
  {
    hide Count;
    var need := Shortfall(d, ZSK, c);
    if need > 0 {
      CountPublished(d, c, need);
      var s := Replenished(d, ZSK, c);
      PendingSame(d, s, c, c.now + (PublicationInterval(c.policy) + c.interval));
    }
  }

  lemma PendingSame(d: seq<Row>, s: seq<Row>, c: Call, limit: int)
    requires |s| == |d| && forall i :: 0 <= i < |d| ==>
        s[i] == d[i] || (d[i].state == Generate && s[i] == Enter(d[i], Publish, c.now))
    ensures Count(s, RetiresBy(c.zone, ZSK, limit)) == Count(d, RetiresBy(c.zone, ZSK, limit))
  {
    CountEq(s, RetiresBy(c.zone, ZSK, limit), d, RetiresBy(c.zone, ZSK, limit));
  }

  /** Whoever retires in the switch was counted as pending before it. */
  lemma SwitchLosesPending(db: Db, rolling: bool, firstPass: bool, c: Call)
    requires forall i :: 0 <= i < |db.rows| && Matches(InStates(c.zone, ZSK, {Ready}), db.rows[i]) ==>
        db.rows[i].retire.None?
    ensures var t := Switched(db, ZSK, rolling, firstPass, c).1;
      && |t| == |db.rows|
      && Count(db.rows, InStates(c.zone, ZSK, AVAILABLE))
         <= Count(t, InStates(c.zone, ZSK, AVAILABLE)) + PendingRetire(db.rows, ZSK, c)
  {
    hide Count;
    var s := db.rows;
    var t := Switched(db, ZSK, rolling, firstPass, c).1;
    var limit := c.now + (PublicationInterval(c.policy) + c.interval);
    var ready := InStates(c.zone, ZSK, {Ready});
    forall i | 0 <= i < |s| && Matches(InStates(c.zone, ZSK, AVAILABLE), s[i])
      ensures Matches(InStates(c.zone, ZSK, AVAILABLE), t[i]) || Matches(RetiresBy(c.zone, ZSK, limit), s[i])
    {
      var moved := MovedN(s, ready, 1, Active, c.now);
      assert moved[i] == s[i] || (s[i].state == Ready && moved[i] == Enter(s[i], Active, c.now));
    }
    var available := InStates(c.zone, ZSK, AVAILABLE);
    CountCover(s, available, t, available, s, RetiresBy(c.zone, ZSK, limit));
  }

  /** After every ZSK pass whose generate pool covered the shortfall, forced rollovers included, at least
      1 + standby keys are in publish, ready or active. */
  lemma CoveredPassKeepsStandby(db: Db, rollover: bool, c: Call, newDs: bool)
    requires Good(db, c.now)
    requires Covered(BeforeReplenish((if rollover then Marked(db, ZSK, c) else db).rows, c), c)
    ensures var t := ByType(db, ZSK, rollover, c, newDs).db.rows;
      Count(t, InStates(c.zone, ZSK, {Publish, Ready, Active})) >= 1 + c.policy.standbyZsks
  {
    hide Replenished, Switched, StagedNewDs, Issue, Marked, Count, BeforeReplenish, Covered, PendingRetire;
    var firstPass := IsFirstPass(db.rows, ZSK, c.zone);
    var marked := if rollover then Marked(db, ZSK, c) else db;
    var d := BeforeReplenish(marked.rows, c);
    var s := Staged(marked.rows, ZSK, firstPass, c, newDs);
    assert s == Replenished(d, ZSK, c) by { BeforeReplenishIs(marked.rows, c); }
    ReplenishedCounts(d, c);
    if rollover {
      MarkedOk(db, ZSK, c);
    }
    StagedOk(marked.rows, marked.pairs, ZSK, firstPass, c, newDs, c.now);
    var rolling := rollover || Compromised(db, ZSK, c.zone);
    SwitchLosesPending(marked.(rows := s), rolling, firstPass, c);
    var t := Switched(marked.(rows := s), ZSK, rolling, firstPass, c).1;
    SwitchedOk(marked.(rows := s), ZSK, rolling, firstPass, c, c.now);
    CountEq(t, InStates(c.zone, ZSK, AVAILABLE), t, InStates(c.zone, ZSK, {Publish, Ready, Active}));
  }

  lemma BeforeReplenishIs(rows: seq<Row>, c: Call)
    ensures BeforeReplenish(rows, c) == PublishReady(RetireDead(rows, ZSK, c), ZSK, c)
  {
  }
}
