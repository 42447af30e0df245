/** What a request does for a zone's KSKs, with the numbers written out: how many are submitted as standby keys and
    how many are published, which active ones retire, which standby keys are published, and when the parent has to be
    told of a new DS set. */
module KskSteps {
  import opened Tables
  import opened Update
  import opened Request
  import opened Moves
  import opened Invariant
  import opened Ksk
  import opened BackupHistory
  import opened Runs
  import EventSteps
  import Intervals
  import Theorems

  /** The zone's KSKs in the given states. */
  function Ksks(rows: seq<Row>, zone: int, states: set<State>): nat {
    Count(rows, InStates(zone, KSK, states))
  }

  // ---- Steps 3a and 3 ----

  /** The rows when step 3a begins, and when step 3 begins. */
  function BeforeSubmit(rows: seq<Row>, firstPass: bool, c: Call, newDs: bool): (r: seq<Row>)
    ensures |r| == |rows|
  {
    var b := RetireDead(StandbyActivated(rows, c, newDs), KSK, c);
    DsPublishReady(if c.policy.kskRoll.DoubleDnskey? || firstPass then PublishReady(b, KSK, c) else b, c)
  }

  function BeforePublish(rows: seq<Row>, firstPass: bool, c: Call, newDs: bool): (r: seq<Row>)
    ensures |r| == |rows|
  {
    StandbySubmitted(BeforeSubmit(rows, firstPass, c, newDs), c)
  }

  /** Step 3a: with s standby keys in dssub, dspublish and dsready and g generated keys, exactly standbyksks - s keys
      are submitted if that is positive and there are as many, and none otherwise. */
  lemma SubmittedExactly(rows: seq<Row>, c: Call)
    ensures
      var s, g := Ksks(rows, c.zone, {DsSub, DsPublish, DsReady}), Ksks(rows, c.zone, {Generate});
      var n := if 0 < c.policy.standbyKsks - s <= g then c.policy.standbyKsks - s else 0;
      var after := StandbySubmitted(rows, c);
      && Ksks(after, c.zone, {Generate}) == g - n
      && Ksks(after, c.zone, {DsSub}) == Ksks(rows, c.zone, {DsSub}) + n
      && forall i :: 0 <= i < |rows| ==>
           after[i] == rows[i] || (rows[i].state == Generate && after[i] == Enter(rows[i], DsSub, c.now))
  {
    hide Count;
    if StandbySupplied(rows, c) {
      var n := StandbyShortfall(rows, c);
      CountMovedN(rows, c.zone, KSK, Generate, n, DsSub, c.now, {Generate});
      CountMovedN(rows, c.zone, KSK, Generate, n, DsSub, c.now, {DsSub});
    }
  }

  /** Step 3: with a KSKs in publish, ready, active and keypublish, p active ones that retire within kskttl +
      kskpropdelay + pub_safety and the run interval, and g generated ones, exactly 1 + p - a keys are published if
      that is positive and there are as many, and none otherwise. */
  lemma PublishedExactly(rows: seq<Row>, c: Call)
    ensures
      var a, g := Ksks(rows, c.zone, {Publish, Ready, Active, KeyPublish}), Ksks(rows, c.zone, {Generate});
      var horizon := c.policy.kskTtl + c.policy.kskPropDelay + c.policy.pubSafety + c.interval;
      var p := Count(rows, RetiresBy(c.zone, KSK, c.now + horizon));
      var n := if 0 < 1 + p - a <= g then 1 + p - a else 0;
      var after := Replenished(rows, KSK, c);
      && Ksks(after, c.zone, {Generate}) == g - n
      && Ksks(after, c.zone, {Publish}) == Ksks(rows, c.zone, {Publish}) + n
      && forall i :: 0 <= i < |rows| ==>
           after[i] == rows[i] || (rows[i].state == Generate && after[i] == Enter(rows[i], Publish, c.now))
  {
    hide Count;
    var n := Shortfall(rows, KSK, c);
    if n > 0 {
      CountMovedN(rows, c.zone, KSK, Generate, n, Publish, c.now, {Generate});
      CountMovedN(rows, c.zone, KSK, Generate, n, Publish, c.now, {Publish});
    }
  }

  // ---- The whole pass ----

  /** The rows that the KSK pass of a request starts from. */
  function KskInput(db: Db, rollover: bool, c: Call): Db {
    if rollover then Marked(WithDates(db, c), KSK, c) else WithDates(db, c)
  }

  /** The rows of a KSK pass: after step 3 only the switch from dsready to keypublish follows. */
  lemma PassRows(db: Db, rollover: bool, c: Call, newDs: bool)
    ensures
      var firstPass := IsFirstPass(db.rows, KSK, c.zone);
      var marked := if rollover then Marked(db, KSK, c) else db;
      var s := Replenished(BeforePublish(marked.rows, firstPass, c, newDs), KSK, c);
      var out := ByType(db, KSK, rollover, c, newDs);
      && out.status == Ok && |out.db.rows| == |s| == |db.rows|
      && Staged(marked.rows, KSK, firstPass, c, newDs) == s
      && out.db.rows == Switched(marked.(rows := s), KSK, rollover || Compromised(db, KSK, c.zone), firstPass, c).1
      && forall i :: 0 <= i < |s| ==>
           || out.db.rows[i] == s[i]
           || (IsKsk(s[i], c.zone) && s[i].state == DsReady && out.db.rows[i] == Enter(s[i], KeyPublish, c.now))
  {
    hide StandbyActivated, RetireDead, PublishReady, DsPublishReady, StandbySubmitted, Replenished, Count;
    hide StagedNewDs, Issue, Marked;
    var firstPass := IsFirstPass(db.rows, KSK, c.zone);
    var marked := if rollover then Marked(db, KSK, c) else db;
    MarkedLength(db, c);
    var s := Staged(marked.rows, KSK, firstPass, c, newDs);
    var rolling := rollover || Compromised(db, KSK, c.zone);
    SwitchedStatus(marked.(rows := s), rolling, firstPass, c);
    forall i | 0 <= i < |s|
      ensures var t := Switched(marked.(rows := s), KSK, rolling, firstPass, c).1[i];
        t == s[i] || (IsKsk(s[i], c.zone) && s[i].state == DsReady && t == Enter(s[i], KeyPublish, c.now))
    {
      SwitchedKsk(marked.(rows := s), rolling, firstPass, c, i);
    }
  }

  lemma MarkedLength(db: Db, c: Call)
    ensures |Marked(db, KSK, c).rows| == |db.rows|
  {
  }

  /** The rest of a request after its KSK pass changes no KSK's state. */
  lemma RequestKeepsKskStates(db: Db, kinds: Kinds, rollover: bool, c: Call, newDs: bool)
    requires kinds != Only(ZSK) && Handled(db, kinds, rollover, c, newDs).status == Ok
    ensures
      var pass, out := ByType(WithDates(db, c), KSK, rollover, c, newDs), Handled(db, kinds, rollover, c, newDs);
      && |pass.db.rows| == |out.db.rows| == |db.rows| && out.newDs == pass.newDs
      && forall i :: 0 <= i < |db.rows| ==>
           && SameKey(db.rows[i], out.db.rows[i])
           && (db.rows[i].kind.KSK? ==> out.db.rows[i].state == pass.db.rows[i].state)
  {
    hide ByType, Updated;
    Theorems.UpdatedStates(db, c.policy, c.zone);
    var dated := WithDates(db, c);
    PassKeepsStates(dated, KSK, rollover, c, newDs);
    var pass := ByType(dated, KSK, rollover, c, newDs);
    var last := pass.db;
    if kinds.Both? {
      PassKeepsStates(pass.db, ZSK, rollover, c, pass.newDs);
      last := ByType(pass.db, ZSK, rollover, c, pass.newDs).db;
      ZskPassKeepsFlag(pass.db, rollover, c, pass.newDs);
    } else {
      assert kinds.kind.ZSK? ==> kinds == Only(ZSK);
    }
    Theorems.UpdatedStates(last, c.policy, c.zone);
    assert Handled(db, kinds, rollover, c, newDs).db == WithDates(last, c);
  }

  lemma ZskPassKeepsFlag(db: Db, rollover: bool, c: Call, newDs: bool)
    ensures ByType(db, ZSK, rollover, c, newDs).newDs == newDs
  {
    hide Staged, Switched, Issue, Marked;
  }

  lemma SameKskCounts(a: seq<Row>, b: seq<Row>, zone: int, states: set<State>)
    requires |a| == |b|
    requires forall i :: 0 <= i < |a| ==> SameKey(a[i], b[i]) && (a[i].kind.KSK? ==> a[i].state == b[i].state)
    ensures Ksks(a, zone, states) == Ksks(b, zone, states)
  {
    assert forall i :: 0 <= i < |a| ==> SameKey(a[i], b[i]);
    CountEq(a, InStates(zone, KSK, states), b, InStates(zone, KSK, states));
  }

  /** The KSKs in generate, dssub and publish after a request are those after step 3. */
  lemma RequestKskCounts(db: Db, kinds: Kinds, rollover: bool, c: Call, newDs: bool, states: set<State>)
    requires kinds != Only(ZSK) && Handled(db, kinds, rollover, c, newDs).status == Ok
    requires DsReady !in states && KeyPublish !in states
    ensures
      var firstPass := IsFirstPass(WithDates(db, c).rows, KSK, c.zone);
      var s := Replenished(BeforePublish(KskInput(db, rollover, c).rows, firstPass, c, newDs), KSK, c);
      Ksks(Handled(db, kinds, rollover, c, newDs).db.rows, c.zone, states) == Ksks(s, c.zone, states)
  {
    hide ByType, Updated, Handled, Count, Marked, BeforePublish, Replenished, Staged, Switched;
    PassRows(WithDates(db, c), rollover, c, newDs);
    RequestKeepsKskStates(db, kinds, rollover, c, newDs);
    PassKeepsStates(WithDates(db, c), KSK, rollover, c, newDs);
    Theorems.UpdatedStates(db, c.policy, c.zone);
    var pass := ByType(WithDates(db, c), KSK, rollover, c, newDs).db.rows;
    var out := Handled(db, kinds, rollover, c, newDs).db.rows;
    var firstPass := IsFirstPass(WithDates(db, c).rows, KSK, c.zone);
    var s := Replenished(BeforePublish(KskInput(db, rollover, c).rows, firstPass, c, newDs), KSK, c);
    forall i | 0 <= i < |pass|
      ensures SameKey(pass[i], out[i]) && (pass[i].kind.KSK? ==> pass[i].state == out[i].state)
    {
      assert SameKey(db.rows[i], out[i]);
    }
    SameKskCounts(pass, out, c.zone, states);
    CountEq(pass, InStates(c.zone, KSK, states), s, InStates(c.zone, KSK, states));
  }

  // ---- The first request ----

  /** A zone's first request for KSKs, whatever is shared: with g generated KSKs it submits the standby keys if there
      are enough, and publishes exactly one of the others if there is one. */
  lemma FirstKskRequest(db: Db, kinds: Kinds, rollover: bool, c: Call, newDs: bool)
    requires kinds != Only(ZSK) && Handled(db, kinds, rollover, c, newDs).status == Ok
    requires Ksks(db.rows, c.zone, {Publish, Ready, Active, Retire, Dead, DsSub, DsPublish, DsReady, KeyPublish}) == 0
    ensures
      var g, out := Ksks(db.rows, c.zone, {Generate}), Handled(db, kinds, rollover, c, newDs).db.rows;
      var submitted := if c.policy.standbyKsks <= g then c.policy.standbyKsks else 0;
      var published := if submitted < g then 1 else 0;
      && Ksks(out, c.zone, {DsSub}) == submitted && Ksks(out, c.zone, {Publish}) == published
      && Ksks(out, c.zone, {Generate}) == g - submitted - published
  {
    hide ByType, Updated, Handled, Count, StandbySubmitted, Replenished;
    var input, firstPass := KskInput(db, rollover, c).rows, IsFirstPass(WithDates(db, c).rows, KSK, c.zone);
    InputStates(db, rollover, c);
    SameKskCounts(db.rows, input, c.zone, {Generate});
    SameKskCounts(db.rows, WithDates(db, c).rows, c.zone, BEYOND_GENERATE);
    SameKskCounts(db.rows, input, c.zone, BEYOND_GENERATE);
    assert firstPass;
    NothingWaits(input, c, newDs);
    var b := StandbySubmitted(input, c);
    NoneIn(input, c, {DsSub, DsPublish, DsReady});
    NoneIn(input, c, {DsSub});
    SubmittedExactly(input, c);
    FreshRows(input, b, c);
    PublishedExactly(b, c);
    RequestKskCounts(db, kinds, rollover, c, newDs, {Generate});
    RequestKskCounts(db, kinds, rollover, c, newDs, {DsSub});
    RequestKskCounts(db, kinds, rollover, c, newDs, {Publish});
    OthersStay(b, c);
  }

  lemma InputStates(db: Db, rollover: bool, c: Call)
    ensures var a, b := WithDates(db, c).rows, KskInput(db, rollover, c).rows;
      && |a| == |b| == |db.rows|
      && forall i :: 0 <= i < |b| ==>
           && SameKey(db.rows[i], a[i]) && a[i].state == db.rows[i].state
           && SameKey(db.rows[i], b[i]) && b[i].state == db.rows[i].state
  {
    Theorems.UpdatedStates(db, c.policy, c.zone);
  }

  /** None of the zone's KSKs is beyond generate, in particular not in the given states. */
  lemma NoneIn(rows: seq<Row>, c: Call, states: set<State>)
    requires Ksks(rows, c.zone, BEYOND_GENERATE) == 0 && states <= BEYOND_GENERATE
    ensures Ksks(rows, c.zone, states) == 0
  {
    CountLe(rows, InStates(c.zone, KSK, states), rows, InStates(c.zone, KSK, BEYOND_GENERATE));
  }

  lemma AllFresh(rows: seq<Row>, c: Call)
    requires Ksks(rows, c.zone, BEYOND_GENERATE) == 0
    ensures forall i :: 0 <= i < |rows| && IsKsk(rows[i], c.zone) ==> rows[i].state == Generate
  {
    forall i | 0 <= i < |rows| && IsKsk(rows[i], c.zone)
      ensures rows[i].state == Generate
    {
      if rows[i].state != Generate {
        CountPositive(rows, InStates(c.zone, KSK, BEYOND_GENERATE), i);
      }
    }
  }

  lemma NothingWaits(rows: seq<Row>, c: Call, newDs: bool)
    requires Ksks(rows, c.zone, BEYOND_GENERATE) == 0
    ensures BeforeSubmit(rows, true, c, newDs) == rows
  {
    hide Count;
    AllFresh(rows, c);
    assert Moved(rows, DueFor(c.zone, KSK, KeyPublish, Active, c.now), Active, c.now) == rows;
    assert ActiveRetired(rows, KSK, c) == rows;
    assert RetireDead(rows, KSK, c) == rows;
    assert PublishReady(rows, KSK, c) == rows;
    assert DsPublishReady(rows, c) == rows;
  }

  /** After step 3a of a first pass nothing is available or about to retire. */
  lemma FreshRows(rows: seq<Row>, b: seq<Row>, c: Call)
    requires Ksks(rows, c.zone, BEYOND_GENERATE) == 0 && |b| == |rows|
    requires forall i :: 0 <= i < |rows| ==>
      b[i] == rows[i] || (rows[i].state == Generate && b[i] == Enter(rows[i], DsSub, c.now))
    ensures Ksks(b, c.zone, {Publish, Ready, Active, KeyPublish}) == 0 && Ksks(b, c.zone, {Publish}) == 0
    ensures forall limit :: Count(b, RetiresBy(c.zone, KSK, limit)) == 0
  {
    hide Count;
    AllFresh(rows, c);
    CountNone(b, InStates(c.zone, KSK, {Publish, Ready, Active, KeyPublish}));
    CountNone(b, InStates(c.zone, KSK, {Publish}));
    forall limit
      ensures Count(b, RetiresBy(c.zone, KSK, limit)) == 0
    {
      CountNone(b, RetiresBy(c.zone, KSK, limit));
    }
  }

  lemma OthersStay(rows: seq<Row>, c: Call)
    ensures Ksks(Replenished(rows, KSK, c), c.zone, {DsSub}) == Ksks(rows, c.zone, {DsSub})
  {
    hide Count;
    CountEq(Replenished(rows, KSK, c), InStates(c.zone, KSK, {DsSub}), rows, InStates(c.zone, KSK, {DsSub}));
  }

  // ---- Active KSKs ----

  /** A standby KSK of the zone is due to become active. */
  predicate StandbyDue(rows: seq<Row>, c: Call) {
    exists j :: 0 <= j < |rows| && IsKsk(rows[j], c.zone) && rows[j].state == KeyPublish && Due(rows[j].active, c.now)
  }

  lemma StandbyDueCount(rows: seq<Row>, c: Call)
    ensures Count(rows, DueFor(c.zone, KSK, KeyPublish, Active, c.now)) > 0 <==> StandbyDue(rows, c)
  {
    hide Count;
    var q := DueFor(c.zone, KSK, KeyPublish, Active, c.now);
    if Count(rows, q) > 0 {
      var i := CountWitness(rows, q);
    }
    if j :| 0 <= j < |rows| && IsKsk(rows[j], c.zone) && rows[j].state == KeyPublish && Due(rows[j].active, c.now) {
      CountPositive(rows, q, j);
    }
  }

  /** Steps 0a to 2a, seen from an active KSK: it retires if it is due and the caller or a new active key asks for
      it. */
  lemma ActiveKskStep(rows: seq<Row>, firstPass: bool, c: Call, newDs: bool, i: nat)
    requires i < |rows| && IsKsk(rows[i], c.zone) && rows[i].state == Active && rows[i].dead.None?
    ensures BeforeSubmit(rows, firstPass, c, newDs)[i]
      == if (newDs || StandbyDue(rows, c)) && Due(rows[i].retire, c.now) then Enter(rows[i], Retire, c.now) else rows[i]
  {
    hide Count;
    StandbyDueCount(rows, c);
  }

  /** The retire date of an active KSK when step 0a looks at it, written out. */
  function KskRetireDate(db: Db, r: Row, rollover: bool, p: Policy, now: int): Option<int> {
    if rollover then Some(now)
    else if HasFixedDate(db.pairs, r) then r.retire
    else if r.active.None? then None
    else Some(r.active.value + if p.kskLife == 0 then 0x7fff_fffe else p.kskLife)
  }

  /** In a successful request an active KSK retires if and only if its date is due, and either the caller says that the
      DS set is new or a standby key has waited for zskttl + propdelay + pub_safety and becomes active. */
  lemma ActiveKskRetiresIff(db: Db, kinds: Kinds, rollover: bool, c: Call, newDs: bool, i: nat)
    requires Good(db, c.now) && kinds != Only(ZSK) && Handled(db, kinds, rollover, c, newDs).status == Ok
    requires i < |db.rows| && IsKsk(db.rows[i], c.zone) && db.rows[i].state == Active
    ensures
      var wait := c.policy.zskTtl + c.policy.propDelay + c.policy.pubSafety;
      var heir := exists j :: 0 <= j < |db.rows| && IsKsk(db.rows[j], c.zone) && db.rows[j].state == KeyPublish
                              && db.rows[j].publish.Some? && db.rows[j].publish.value + wait <= c.now;
      |Handled(db, kinds, rollover, c, newDs).db.rows| == |db.rows| &&
      (Handled(db, kinds, rollover, c, newDs).db.rows[i].state == Retire <==>
        (newDs || heir) && Due(KskRetireDate(db, db.rows[i], rollover, c.policy, c.now), c.now))
  {
    hide ByType, Handled, RowsOk, Replenished, StandbySubmitted, Count, Staged, Switched, Updated, Marked;
    hide KskInput, StandbyDue, KskRetireDate;
    RequestKeepsKskStates(db, kinds, rollover, c, newDs);
    InputHeirs(db, rollover, c);
    ActiveKskPass(db, rollover, c, newDs, i);
  }

  /** The KSK pass of a request, seen from an active KSK. */
  lemma ActiveKskPass(db: Db, rollover: bool, c: Call, newDs: bool, i: nat)
    requires Good(db, c.now) && i < |db.rows| && IsKsk(db.rows[i], c.zone) && db.rows[i].state == Active
    ensures
      var out := ByType(WithDates(db, c), KSK, rollover, c, newDs).db.rows;
      var due := Due(KskRetireDate(db, db.rows[i], rollover, c.policy, c.now), c.now);
      && |out| == |db.rows|
      && (out[i].state == Retire <==> (newDs || StandbyDue(KskInput(db, rollover, c).rows, c)) && due)
  {
    hide ByType, RowsOk, Replenished, StandbySubmitted, Count, Staged, Switched, Updated, Marked, BeforeSubmit;
    hide StandbyDue, KskRetireDate, IsFirstPass;
    var dated, input := WithDates(db, c), KskInput(db, rollover, c);
    var firstPass := IsFirstPass(dated.rows, KSK, c.zone);
    PassRows(dated, rollover, c, newDs);
    KskInputRow(db, rollover, c, i);
    ActiveKskStep(input.rows, firstPass, c, newDs, i);
    SubmittedExactly(BeforeSubmit(input.rows, firstPass, c, newDs), c);
    PublishedExactly(BeforePublish(input.rows, firstPass, c, newDs), c);
  }

  lemma KskInputRow(db: Db, rollover: bool, c: Call, i: nat)
    requires Good(db, c.now) && i < |db.rows| && IsKsk(db.rows[i], c.zone) && db.rows[i].state == Active
    ensures var r := KskInput(db, rollover, c).rows[i];
      && |KskInput(db, rollover, c).rows| == |db.rows| && r.dead.None? && r.state == Active && IsKsk(r, c.zone)
      && r.retire == KskRetireDate(db, db.rows[i], rollover, c.policy, c.now)
  {
    assert Matches(InStates(c.zone, KSK, {Active}), WithDates(db, c).rows[i]);
  }

  lemma InputHeirs(db: Db, rollover: bool, c: Call)
    ensures
      var wait := c.policy.zskTtl + c.policy.propDelay + c.policy.pubSafety;
      var heir := exists j :: 0 <= j < |db.rows| && IsKsk(db.rows[j], c.zone) && db.rows[j].state == KeyPublish
                              && db.rows[j].publish.Some? && db.rows[j].publish.value + wait <= c.now;
      StandbyDue(KskInput(db, rollover, c).rows, c) <==> heir
  {
    var rows := KskInput(db, rollover, c).rows;
    forall j | 0 <= j < |db.rows|
      ensures
        IsKsk(rows[j], c.zone) && rows[j].state == KeyPublish && Due(rows[j].active, c.now) <==>
        && IsKsk(db.rows[j], c.zone) && db.rows[j].state == KeyPublish && db.rows[j].publish.Some?
        && db.rows[j].publish.value + (c.policy.zskTtl + c.policy.propDelay + c.policy.pubSafety) <= c.now
    {
      var dated := WithDates(db, c).rows[j];
      assert rows[j] == dated || rows[j] == dated.(retire := Some(c.now));
    }
  }

  // ---- Publishing standby keys ----

  /** In a KSK pass a standby key goes from dsready (or dspublish, if it is due) to keypublish if and only if its
      publication date is due, no KSK of the zone is ready, and a rollover is forced or no active KSK lasts beyond
      now. */
  lemma StandbyPublishedIff(db: Db, rollover: bool, c: Call, newDs: bool, i: nat)
    requires Good(db, c.now) && i < |db.rows| && IsKsk(db.rows[i], c.zone) && db.rows[i].state in {DsReady, DsPublish}
    ensures
      var out := ByType(db, KSK, rollover, c, newDs).db.rows;
      var ready := db.rows[i].state == DsReady || Due(db.rows[i].ready, c.now);
      var blocked := exists j :: 0 <= j < |out| && IsKsk(out[j], c.zone) && out[j].state == Ready;
      var lasting := exists j :: 0 <= j < |out| && IsKsk(out[j], c.zone) && out[j].state == Active
                                 && out[j].retire.Some? && out[j].retire.value > c.now;
      |out| == |db.rows| &&
      (out[i].state == KeyPublish <==>
        && ready && Due(db.rows[i].publish, c.now) && !blocked
        && (rollover || Compromised(db, KSK, c.zone) || !lasting))
  {
    hide Replenished, BeforePublish, Count, StagedNewDs, Issue, Marked, Staged, RowsOk, Switched, ByType;
    var firstPass := IsFirstPass(db.rows, KSK, c.zone);
    CountPositive(db.rows, InStates(c.zone, KSK, BEYOND_GENERATE), i);
    var marked := if rollover then Marked(db, KSK, c) else db;
    var rolling := rollover || Compromised(db, KSK, c.zone);
    PassRows(db, rollover, c, newDs);
    var s := Replenished(BeforePublish(marked.rows, firstPass, c, newDs), KSK, c);
    StandbyStaged(db, rollover, c, newDs, i);
    SwitchOutcome(marked.(rows := s), rolling, c, i);
    SameOthers(s, ByType(db, KSK, rollover, c, newDs).db.rows, c);
  }

  /** The row of a standby key when the switch looks at it. */
  lemma StandbyStaged(db: Db, rollover: bool, c: Call, newDs: bool, i: nat)
    requires Good(db, c.now) && i < |db.rows| && IsKsk(db.rows[i], c.zone) && db.rows[i].state in {DsReady, DsPublish}
    ensures
      var marked := if rollover then Marked(db, KSK, c) else db;
      var s := Replenished(BeforePublish(marked.rows, false, c, newDs), KSK, c);
      && |s| == |db.rows| && IsKsk(s[i], c.zone) && s[i].publish == db.rows[i].publish
      && s[i].state == if db.rows[i].state == DsReady || Due(db.rows[i].ready, c.now) then DsReady else DsPublish
  {
    hide Replenished, StandbySubmitted, Count, RowsOk, StandbyActivated;
    var marked := if rollover then Marked(db, KSK, c) else db;
    MarkedUnshared(db, KSK, c);
    assert marked.rows[i] == db.rows[i];
    StandbyEarly(marked.rows, c, newDs, i);
    SubmittedExactly(BeforeSubmit(marked.rows, false, c, newDs), c);
    PublishedExactly(BeforePublish(marked.rows, false, c, newDs), c);
  }

  lemma StandbyEarly(rows: seq<Row>, c: Call, newDs: bool, i: nat)
    requires i < |rows| && IsKsk(rows[i], c.zone) && rows[i].state in {DsReady, DsPublish}
    ensures BeforeSubmit(rows, false, c, newDs)[i]
      == if rows[i].state == DsPublish && Due(rows[i].ready, c.now) then Enter(rows[i], DsReady, c.now) else rows[i]
  {
    hide Count;
  }

  lemma SwitchOutcome(db: Db, rolling: bool, c: Call, i: nat)
    requires i < |db.rows| && IsKsk(db.rows[i], c.zone) && db.rows[i].state in {DsReady, DsPublish}
    ensures
      var blocked := exists j :: 0 <= j < |db.rows| && IsKsk(db.rows[j], c.zone) && db.rows[j].state == Ready;
      var lasting := exists j :: 0 <= j < |db.rows| && IsKsk(db.rows[j], c.zone) && db.rows[j].state == Active
                                 && db.rows[j].retire.Some? && db.rows[j].retire.value > c.now;
      |Switched(db, KSK, rolling, false, c).1| == |db.rows| &&
      (Switched(db, KSK, rolling, false, c).1[i].state == KeyPublish <==>
        db.rows[i].state == DsReady && Due(db.rows[i].publish, c.now) && !blocked && (rolling || !lasting))
  {
    hide Count;
    var after, ready := ActiveAfter(c.zone, KSK, c.now), InStates(c.zone, KSK, {Ready});
    CountIff(db.rows, after);
    CountIff(db.rows, ready);
  }

  lemma CountIff(rows: seq<Row>, q: Clause)
    ensures Count(rows, q) > 0 <==> exists j :: 0 <= j < |rows| && Matches(q, rows[j])
  {
    hide Count;
    if Count(rows, q) > 0 {
      var i := CountWitness(rows, q);
    }
    if j :| 0 <= j < |rows| && Matches(q, rows[j]) {
      CountPositive(rows, q, j);
    }
  }

  /** The switch leaves ready and active KSKs as they are. */
  lemma SameOthers(s: seq<Row>, out: seq<Row>, c: Call)
    requires |out| == |s| && forall i :: 0 <= i < |s| ==>
      out[i] == s[i] || (IsKsk(s[i], c.zone) && s[i].state == DsReady && out[i] == Enter(s[i], KeyPublish, c.now))
    ensures forall j :: 0 <= j < |s| && (s[j].state in {Ready, Active} || out[j].state in {Ready, Active}) ==>
      out[j] == s[j]
  {
  }

  // ---- The new-DS flag ----

  /** A move that changes the DS set at the parent: a key became ready, a standby key was submitted, or, when DS
      records are doubled, a retired key died. */
  predicate ChangesDs(from: State, to: State, p: Policy) {
    || (from == Publish && to == Ready)
    || (from == Generate && to == DsSub)
    || (p.kskRoll.DoubleDs? && from == Retire && to == Dead)
  }

  /** After a successful request for KSKs the flag is set if and only if the request was not the zone's first and some
      KSK of the zone made such a move. */
  lemma NewDsMeans(db: Db, kinds: Kinds, rollover: bool, c: Call, newDs: bool)
    requires Good(db, c.now) && kinds != Only(ZSK) && Handled(db, kinds, rollover, c, newDs).status == Ok
    ensures
      var out := Handled(db, kinds, rollover, c, newDs);
      && |out.db.rows| == |db.rows|
      && (out.newDs <==>
            && (exists i :: 0 <= i < |db.rows| && IsKsk(db.rows[i], c.zone) && db.rows[i].state != Generate)
            && (exists i :: 0 <= i < |db.rows| && IsKsk(db.rows[i], c.zone)
                            && ChangesDs(db.rows[i].state, out.db.rows[i].state, c.policy)))
  {
    hide ByType, Handled, RowsOk, Count, Updated, Marked, ChangesDs;
    RequestKeepsKskStates(db, kinds, rollover, c, newDs);
    var dated := WithDates(db, c);
    InputStates(db, rollover, c);
    UpdatedOk(db, c.policy, c.zone, c.now);
    UpdatedRises(db, c.policy, c.zone);
    UnsharedRises(db.rows, dated.rows);
    PassFlag(dated, rollover, c, newDs);
    var pass, out := ByType(dated, KSK, rollover, c, newDs).db.rows, Handled(db, kinds, rollover, c, newDs).db.rows;
    assert forall i :: 0 <= i < |db.rows| ==>
      (IsKsk(dated.rows[i], c.zone) <==> IsKsk(db.rows[i], c.zone)) && dated.rows[i].state == db.rows[i].state;
    assert forall i :: 0 <= i < |db.rows| && IsKsk(db.rows[i], c.zone) ==> pass[i].state == out[i].state;
  }

  lemma PassFlag(db: Db, rollover: bool, c: Call, newDs: bool)
    requires Good(db, c.now)
    ensures
      var out := ByType(db, KSK, rollover, c, newDs);
      && |out.db.rows| == |db.rows|
      && (out.newDs <==>
            && (exists i :: 0 <= i < |db.rows| && IsKsk(db.rows[i], c.zone) && db.rows[i].state != Generate)
            && (exists i :: 0 <= i < |db.rows| && IsKsk(db.rows[i], c.zone)
                            && ChangesDs(db.rows[i].state, out.db.rows[i].state, c.policy)))
  {
    hide Replenished, BeforePublish, Count, StagedNewDs, Issue, Marked, Staged, RowsOk, Switched, IsFirstPass;
    var firstPass := IsFirstPass(db.rows, KSK, c.zone);
    var marked := if rollover then Marked(db, KSK, c) else db;
    PassRows(db, rollover, c, newDs);
    FirstPassIff(db.rows, c);
    if !firstPass {
      var out := ByType(db, KSK, rollover, c, newDs).db.rows;
      MarkedForKsks(db, rollover, c);
      FlagRows(marked.rows, c, newDs);
      forall i | 0 <= i < |db.rows| && IsKsk(db.rows[i], c.zone)
        ensures ChangesDs(db.rows[i].state, out[i].state, c.policy) <==> FlagRow(marked.rows, c, newDs, i)
      {
        FlagRowOutcome(marked.rows, out[i], c, newDs, i);
      }
      assert ByType(db, KSK, rollover, c, newDs).newDs == StagedNewDs(marked.rows, KSK, false, c, newDs);
    } else {
      FirstFlag(marked.rows, c, newDs);
    }
  }

  lemma FirstFlag(rows: seq<Row>, c: Call, newDs: bool)
    ensures !StagedNewDs(rows, KSK, true, c, newDs)
  {
  }

  lemma FirstPassIff(rows: seq<Row>, c: Call)
    ensures IsFirstPass(rows, KSK, c.zone) <==>
      !exists i :: 0 <= i < |rows| && IsKsk(rows[i], c.zone) && rows[i].state != Generate
  {
    hide Count;
    CountIff(rows, InStates(c.zone, KSK, BEYOND_GENERATE));
  }

  /** Marked rows keep their states and what the dates say of keys that do not sign. */
  lemma MarkedForKsks(db: Db, rollover: bool, c: Call)
    requires Good(db, c.now)
    ensures var rows := (if rollover then Marked(db, KSK, c) else db).rows;
      && |rows| == |db.rows|
      && forall i :: 0 <= i < |rows| ==>
           SameKey(db.rows[i], rows[i]) && rows[i].state == db.rows[i].state
    ensures Plain((if rollover then Marked(db, KSK, c) else db).rows)
  {
    MarkedUnshared(db, KSK, c);
  }

  /** The row makes a move that sets the flag. */
  predicate FlagRow(rows: seq<Row>, c: Call, newDs: bool, i: nat)
    requires i < |rows|
  {
    && IsKsk(rows[i], c.zone)
    && (|| (rows[i].state == Publish && c.policy.kskRoll.DoubleDnskey? && Due(rows[i].ready, c.now))
        || (rows[i].state == Generate && BeforePublish(rows, false, c, newDs)[i].state == DsSub)
        || (rows[i].state == Retire && c.policy.kskRoll.DoubleDs? && Due(rows[i].dead, c.now)))
  }

  predicate Plain(rows: seq<Row>) {
    forall i :: 0 <= i < |rows| ==>
      && (rows[i].state in {KeyPublish, Active} ==> rows[i].dead.None?)
      && (rows[i].state == KeyPublish ==> rows[i].retire.None?)
  }

  /** What the three queries behind the flag say of one row. */
  lemma FlagMatches(rows: seq<Row>, c: Call, newDs: bool, i: nat)
    requires Plain(rows) && i < |rows|
    ensures
      var a := StandbyActivated(rows, c, newDs);
      var b, e := RetireDead(a, KSK, c), BeforeSubmit(rows, false, c, newDs);
      && (Matches(DueFor(c.zone, KSK, Retire, Dead, c.now), a[i]) <==>
            IsKsk(rows[i], c.zone) && rows[i].state == Retire && Due(rows[i].dead, c.now))
      && (Matches(DueFor(c.zone, KSK, Publish, Ready, c.now), b[i]) <==>
            IsKsk(rows[i], c.zone) && rows[i].state == Publish && Due(rows[i].ready, c.now))
      && (IsKsk(e[i], c.zone) && e[i].state == Generate <==> IsKsk(rows[i], c.zone) && rows[i].state == Generate)
  {
    hide Count, StandbyActivated;
    ActivatedRow(rows, c, newDs, i);
    EarlyRow(rows, false, c, newDs, i);
  }

  lemma FlagRows(rows: seq<Row>, c: Call, newDs: bool)
    requires Plain(rows)
    ensures StagedNewDs(rows, KSK, false, c, newDs) <==> exists i :: 0 <= i < |rows| && FlagRow(rows, c, newDs, i)
  {
    hide Count, StandbyActivated, StandbySubmitted, Matches, RetireDead, PublishReady, DsPublishReady, Plain;
    var a := StandbyActivated(rows, c, newDs);
    var b, e := RetireDead(a, KSK, c), BeforeSubmit(rows, false, c, newDs);
    var dead, ready := DueFor(c.zone, KSK, Retire, Dead, c.now), DueFor(c.zone, KSK, Publish, Ready, c.now);
    CountIff(a, dead);
    CountIff(b, ready);
    SuppliedIff(e, c);
    forall i | 0 <= i < |rows|
      ensures Matches(dead, a[i]) <==> IsKsk(rows[i], c.zone) && rows[i].state == Retire && Due(rows[i].dead, c.now)
      ensures Matches(ready, b[i]) <==> IsKsk(rows[i], c.zone) && rows[i].state == Publish && Due(rows[i].ready, c.now)
      ensures IsKsk(e[i], c.zone) && e[i].state == Generate <==> IsKsk(rows[i], c.zone) && rows[i].state == Generate
    {
      FlagMatches(rows, c, newDs, i);
    }
    if i :| 0 <= i < |rows| && FlagRow(rows, c, newDs, i) {
      assert Matches(dead, a[i]) || Matches(ready, b[i]) || StandbySubmitted(e, c)[i].state == DsSub;
    }
    if StagedNewDs(rows, KSK, false, c, newDs) {
      FlagWitness(rows, a, b, e, c, newDs);
    }
  }

  lemma FlagWitness(rows: seq<Row>, a: seq<Row>, b: seq<Row>, e: seq<Row>, c: Call, newDs: bool)
    requires StagedNewDs(rows, KSK, false, c, newDs)
    requires a == StandbyActivated(rows, c, newDs) && b == RetireDead(a, KSK, c)
    requires e == BeforeSubmit(rows, false, c, newDs)
    requires forall i :: 0 <= i < |rows| ==>
      (Matches(DueFor(c.zone, KSK, Retire, Dead, c.now), a[i]) <==>
         IsKsk(rows[i], c.zone) && rows[i].state == Retire && Due(rows[i].dead, c.now))
    requires forall i :: 0 <= i < |rows| ==>
      (Matches(DueFor(c.zone, KSK, Publish, Ready, c.now), b[i]) <==>
         IsKsk(rows[i], c.zone) && rows[i].state == Publish && Due(rows[i].ready, c.now))
    requires forall i :: 0 <= i < |rows| ==>
      (IsKsk(e[i], c.zone) && e[i].state == Generate <==> IsKsk(rows[i], c.zone) && rows[i].state == Generate)
    ensures exists i :: 0 <= i < |rows| && FlagRow(rows, c, newDs, i)
  {
    hide Count, StandbyActivated, StandbySubmitted, Matches;
    var dead, ready := DueFor(c.zone, KSK, Retire, Dead, c.now), DueFor(c.zone, KSK, Publish, Ready, c.now);
    CountIff(a, dead);
    CountIff(b, ready);
    SuppliedIff(e, c);
    if c.policy.kskRoll.DoubleDs? && Count(a, dead) > 0 {
      var i :| 0 <= i < |a| && Matches(dead, a[i]);
      assert FlagRow(rows, c, newDs, i);
    } else if c.policy.kskRoll.DoubleDnskey? && Count(b, ready) > 0 {
      var i :| 0 <= i < |b| && Matches(ready, b[i]);
      assert FlagRow(rows, c, newDs, i);
    } else {
      assert StandbySupplied(e, c);
      var i :| 0 <= i < |e| && IsKsk(e[i], c.zone) && e[i].state == Generate
               && StandbySubmitted(e, c)[i].state == DsSub;
      assert FlagRow(rows, c, newDs, i);
    }
  }

  /** Standby keys are supplied if and only if some generated key is submitted. */
  lemma SuppliedIff(rows: seq<Row>, c: Call)
    ensures StandbySupplied(rows, c) <==>
      exists i :: 0 <= i < |rows| && IsKsk(rows[i], c.zone) && rows[i].state == Generate
                  && StandbySubmitted(rows, c)[i].state == DsSub
  {
    hide Count;
    if StandbySupplied(rows, c) {
      var f := CountWitness(rows, InStates(c.zone, KSK, {Generate}));
      assert Picked(rows, InStates(c.zone, KSK, {Generate}), StandbyShortfall(rows, c), f);
      assert StandbySubmitted(rows, c)[f].state == DsSub;
    }
  }

  lemma FlagRowOutcome(rows: seq<Row>, out: Row, c: Call, newDs: bool, i: nat)
    requires Plain(rows) && i < |rows| && IsKsk(rows[i], c.zone)
    requires var s := Replenished(BeforePublish(rows, false, c, newDs), KSK, c)[i];
      out == s || (s.state == DsReady && out == Enter(s, KeyPublish, c.now))
    ensures ChangesDs(rows[i].state, out.state, c.policy) <==> FlagRow(rows, c, newDs, i)
  {
    hide Count, StandbyActivated, Replenished, StandbySubmitted;
    EarlyRow(rows, false, c, newDs, i);
    SubmittedExactly(BeforeSubmit(rows, false, c, newDs), c);
    PublishedExactly(BeforePublish(rows, false, c, newDs), c);
  }

  // ---- The parent ----

  /** The `ds-seen` command at time d. A ready KSK is active from then on, until its lifetime is over. A submitted one
      waits for the parent: any successful request for the zone's KSKs at a time now finds it ready, or publishes it,
      if and only if kskttl + kskpropdelay + pub_safety have passed since d. */
  lemma DsSeenThenRequest(w: World, id: int, d: int, p: Policy, kinds: Kinds, rollover: bool, c: Call, newDs: bool,
      i: nat)
    requires Inv(w, c.zone) && Enabled(w, DsSeen(c.zone, id, d, p)) && d <= c.now && kinds != Only(ZSK)
    requires i < |w.db.rows| && IsKey(w.db.rows[i], c.zone, id)
    requires Handled(Exec(w, DsSeen(c.zone, id, d, p)).db, kinds, rollover, c, newDs).status == Ok
    ensures
      var seen := Exec(w, DsSeen(c.zone, id, d, p)).db;
      var out := Handled(seen, kinds, rollover, c, newDs).db.rows;
      && |seen.rows| == |out| == |w.db.rows|
      && (w.db.rows[i].state == Ready ==>
            seen.rows[i] == w.db.rows[i].(state := Active, active := Some(d), retire := Some(d + p.kskLife)))
      && (w.db.rows[i].state != Ready ==>
            (out[i].state in {DsReady, KeyPublish} <==>
               d + c.policy.kskTtl + c.policy.kskPropDelay + c.policy.pubSafety <= c.now))
  {
    hide Inv, Handled, Good;
    var seen := Exec(w, DsSeen(c.zone, id, d, p)).db;
    EventSteps.SeenGood(w, c.zone, id, d, p, c.zone);
    GoodLater(seen, d, c.now);
    Intervals.RequestIsOnTime(seen, kinds, rollover, c, newDs, i);
  }

  /** The `ds-seen` command retires the zone's old KSK at time d: it is dead after a successful request for the zone's
      KSKs at a time now if and only if dsttl + kskpropdelay + ret_safety have passed since d. */
  lemma RetireOldThenRequest(w: World, id: int, d: int, p: Policy, kinds: Kinds, rollover: bool, c: Call, newDs: bool,
      i: nat)
    requires Inv(w, c.zone) && Enabled(w, RetireOld(c.zone, id, d, p)) && d <= c.now && kinds != Only(ZSK)
    requires i < |w.db.rows| && IsKey(w.db.rows[i], c.zone, id)
    requires Handled(Exec(w, RetireOld(c.zone, id, d, p)).db, kinds, rollover, c, newDs).status == Ok
    ensures
      var out := Handled(Exec(w, RetireOld(c.zone, id, d, p)).db, kinds, rollover, c, newDs).db.rows;
      && |out| == |w.db.rows|
      && (out[i].state == Dead <==> d + c.policy.dsTtl + c.policy.kskPropDelay + c.policy.retSafety <= c.now)
  {
    hide Inv, Handled, Good;
    var retired := Exec(w, RetireOld(c.zone, id, d, p)).db;
    EventSteps.RetiredGood(w, c.zone, id, d, p, c.zone);
    GoodLater(retired, d, c.now);
    Intervals.RequestIsOnTime(retired, kinds, rollover, c, newDs, i);
  }
}
