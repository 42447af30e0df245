/** Standby KSKs and the roll command: when a key is activated too early, and when the command promotes one. */
module Standby {
  import opened Tables
  import opened Update
  import opened Request
  import opened Invariant
  import opened Lifeline
  import opened KeyRoll
  import opened Moves
  import opened RequestSteps
  import opened RollSteps
  import opened Runs
  import opened EventSteps
  import opened Intervals
  import Ksk

  // ---- The keys that the command has moved on ----

  predicate Promotes(w: World, e: Event, k: int) {
    e.Roll? && k in Hurried(w.db.rows, Exec(w, e).db.rows)
  }

  /** A key counts as rushed if and only if a roll command of the run has promoted it. */
  lemma {:induction false} RushedMeans(ws: seq<World>, es: seq<Event>, n: nat, k: int)
    requires Run(ws, es) && n < |ws| && k !in ws[0].rushed
    ensures k in ws[n].rushed <==> exists m :: 0 <= m < n && Promotes(ws[m], es[m], k)
  {
    hide Handled, KeyRolled, Enabled, Hurried;
    if n > 0 {
      RushedMeans(ws, es, n - 1, k);
      assert ws[n] == Exec(ws[n - 1], es[n - 1]);
      assert k in ws[n].rushed <==> k in ws[n - 1].rushed || Promotes(ws[n - 1], es[n - 1], k);
    }
  }

  // ---- Activation in a run ----

  /** How long a standby key has to be in the lists. */
  function Wait(c: Call): nat {
    c.policy.zskTtl + c.policy.propDelay + c.policy.pubSafety
  }

  /** The key is activated although it has not been in the lists for that long: its stretch of lists begins at
      position p, or it has never been listed. */
  predicate TooEarly(r: Row, log: seq<KeyList>, p: nat, c: Call)
    requires p <= |log|
  {
    r.state == Active && (p == |log| || c.now < log[p].time + Wait(c))
  }

  /** In every run, a successful request makes a standby KSK of its zone active if and only if the interval has
      passed since the key's publication date d. So it does so too early if and only if, moreover, the key has not
      been listed or now is before the interval after its first list. That needs a roll command: for every other
      key the publication date is the time of its first list. */
  lemma StandbyActivation(ws: seq<World>, es: seq<Event>, n: nat, i: nat) returns (p: nat)
    requires Run(ws, es) && n < |es| && es[n].KeyRequest? && es[n].kinds != Only(ZSK)
    requires Initial(ws[0], es[n].call.zone)
    requires i < |ws[n].db.rows| && Ksk.IsKsk(ws[n].db.rows[i], es[n].call.zone) && ws[n].db.rows[i].state == KeyPublish
    requires Handled(ws[n].db, es[n].kinds, es[n].rollover, es[n].call, es[n].newDs).status == Ok
    ensures var log, c, r := ws[n].log, es[n].call, ws[n].db.rows[i];
      && p <= |log| && r.publish.Some? && i < |ws[n + 1].db.rows|
      && (p < |log| ==> About(log[p], c.zone, KSK))
      && (forall m :: 0 <= m < |log| && About(log[m], c.zone, KSK) ==>
            (r.pair in log[m].listed <==> p <= m) && (r.pair in log[m].standby <==> p <= m))
      && (ws[n + 1].db.rows[i].state == Active <==> r.publish.value + Wait(c) <= c.now)
      && (TooEarly(ws[n + 1].db.rows[i], log, p, c) <==>
            r.publish.value + Wait(c) <= c.now && (p == |log| || c.now < log[p].time + Wait(c)))
      && (r.pair !in ws[n].rushed ==>
            p < |log| && r.publish.value == log[p].time && !TooEarly(ws[n + 1].db.rows[i], log, p, c))
  {
    hide Handled, Initial, SignerOk, HasLife, RowsOk;
    var w, e := ws[n], es[n];
    var r, z := w.db.rows[i], e.call.zone;
    RunInv(ws, es, z, n);
    GoodLater(w.db, w.clock, e.call.now);
    RequestIsOnTime(w.db, e.kinds, e.rollover, e.call, e.newDs, i);
    assert HasKskLife(w, z, r.pair);
    var l :| KskSuits(w, z, r.pair, l);
    p := l.p;
  }

  // ---- The same on tables ----

  /** Whenever the command has promoted the key of row i, the next request that handles it makes it active, never
      having been listed, if and only if the interval has passed since its DS record was seen; and if not, a
      request at a later time does so if and only if it has passed by then, however short the key was listed. */
  lemma ShortCutSkipsPublication(db: Db, s: RollScope, now: int, loose: set<int>, c: Call, next: Call,
      newDs: bool, i: nat)
    requires Good(KeyRolled(db, s, now, loose), c.now) && c.now <= next.now && next.zone == c.zone
    requires i < |db.rows| == |KeyRolled(db, s, now, loose).rows|
    requires Ksk.IsKsk(KeyRolled(db, s, now, loose).rows[i], c.zone)
    requires db.rows[i].state == DsReady && KeyRolled(db, s, now, loose).rows[i] == db.rows[i].(state := KeyPublish)
    ensures db.rows[i].publish.Some?
    ensures
      var seen := db.rows[i].publish.value;
      var first := Handled(KeyRolled(db, s, now, loose), Only(KSK), false, c, newDs);
      var second := Handled(first.db, Only(KSK), false, next, first.newDs);
      && |first.db.rows| == |db.rows| && |second.db.rows| == |db.rows|
      && (first.db.rows[i].state == Active <==> seen + Wait(c) <= c.now)
      && (c.now < seen + Wait(c) ==>
            && first.db.rows[i].state == KeyPublish
            && (second.db.rows[i].state == Active <==> seen + Wait(next) <= next.now))
  {
    hide Handled, KeyRolled, RowOk;
    var rolled := KeyRolled(db, s, now, loose);
    PublishDate(rolled, c.now, i);
    KskRequest(rolled, c, newDs, i);
    var first := Handled(rolled, Only(KSK), false, c, newDs);
    RequestKeepsDates(rolled, Only(KSK), false, c, newDs);
    GoodLater(first.db, c.now, next.now);
    if first.db.rows[i].state == KeyPublish {
      KskRequest(first.db, next, first.newDs, i);
    } else {
      KskRequestLength(first.db, next, first.newDs);
    }
  }

  lemma PublishDate(db: Db, clock: int, i: nat)
    requires Good(db, clock) && i < |db.rows| && db.rows[i].state == KeyPublish
    ensures db.rows[i].publish.Some?
  {
  }

  lemma KskRequestLength(db: Db, c: Call, newDs: bool)
    requires Good(db, c.now)
    ensures Handled(db, Only(KSK), false, c, newDs).status == Ok
    ensures |Handled(db, Only(KSK), false, c, newDs).db.rows| == |db.rows|
  {
    hide ByType, Updated;
    InputGood(db, c);
    Ksk.KskPass(WithDates(db, c), false, c, newDs);
  }

  lemma InputGood(db: Db, c: Call)
    requires Good(db, c.now)
    ensures Good(WithDates(db, c), c.now) && |WithDates(db, c).rows| == |db.rows|
  {
    hide RowsOk;
    UpdatedOk(db, c.policy, c.zone, c.now);
    UnsharedUpdated(db, c);
  }

  lemma UnsharedUpdated(db: Db, c: Call)
    requires Unshared(db.rows)
    ensures Unshared(WithDates(db, c).rows)
  {
    assert forall i :: 0 <= i < |db.rows| ==> WithDates(db, c).rows[i].pair == db.rows[i].pair;
  }

  /** A request for KSKs, seen from a standby key: active if it is time, otherwise as before. */
  lemma KskRequest(db: Db, c: Call, newDs: bool, i: nat)
    requires Good(db, c.now) && i < |db.rows| && Ksk.IsKsk(db.rows[i], c.zone) && db.rows[i].state == KeyPublish
    ensures var out := Handled(db, Only(KSK), false, c, newDs);
      && out.status == Ok && |out.db.rows| == |db.rows| && db.rows[i].publish.Some?
      && (out.db.rows[i].state == Active <==> db.rows[i].publish.value + Wait(c) <= c.now)
      && (out.db.rows[i].state != Active ==>
            && out.db.rows[i].state == KeyPublish && out.db.rows[i].publish == db.rows[i].publish
            && Ksk.IsKsk(out.db.rows[i], c.zone))
  {
    hide ByType, RowsOk;
    PublishDate(db, c.now, i);
    InputGood(db, c);
    var dated := WithDates(db, c);
    DatesWrittenOut(db, c, i);
    Ksk.KskPass(dated, false, c, newDs);
    var out := ByType(dated, KSK, false, c, newDs);
    assert Ksk.Evolves(dated.rows[i], out.db.rows[i], c.policy, c.now);
    assert Handled(db, Only(KSK), false, c, newDs).db == WithDates(out.db, c);
  }

  // ---- The guard ----

  /** Tables that meet the guard: pair 1 signs zone 1, where pair 2 stands by, and zone 2 of the same policy has a
      KSK in publish. Rolling the policy's KSKs promotes pair 2. */
  lemma GuardCanBeMet(now: int)
    requires now >= 0
    ensures
      var k := KeyPair(7, 1, 2048, 8, false, false, None, None);
      var rows := [
        Row(1, 1, KSK, Active, Some(0), Some(0), Some(0), Some(100), None),
        Row(2, 1, KSK, DsReady, Some(0), Some(0), None, None, None),
        Row(3, 2, KSK, Publish, Some(0), None, None, None, None)];
      var db := Db(map[1 := k, 2 := k, 3 := k], rows);
      && Good(db, now)
      && KeyRolled(db, RollScope(None, Some(7), Some(KSK)), now, {}).rows
         == [rows[0].(retire := Some(now)), rows[1].(state := KeyPublish), rows[2]]
  {
    hide KeyRolled;
    var k := KeyPair(7, 1, 2048, 8, false, false, None, None);
    var rows := [
      Row(1, 1, KSK, Active, Some(0), Some(0), Some(0), Some(100), None),
      Row(2, 1, KSK, DsReady, Some(0), Some(0), None, None, None),
      Row(3, 2, KSK, Publish, Some(0), None, None, None, None)];
    var db := Db(map[1 := k, 2 := k, 3 := k], rows);
    assert Good(db, now);
    RollOfThree(db, rows[0], rows[1], rows[2], now);
  }

  /** Row a is the only active one, b stands by in its zone, and d bars its own zone. */
  predicate Three(db: Db, a: Row, b: Row, d: Row) {
    && db.rows == [a, b, d] && a.pair == 1 && b.pair == 2 && d.pair == 3 && a.zone == b.zone == 1 && d.zone == 2
    && a.kind.KSK? && b.kind.KSK? && d.kind.KSK? && a.state == Active && b.state == DsReady && d.state == Publish
    && 1 in db.pairs && 3 in db.pairs && db.pairs[1].policy == db.pairs[3].policy == 7
  }

  lemma RollOfThree(db: Db, a: Row, b: Row, d: Row, now: int)
    requires Three(db, a, b, d)
    ensures KeyRolled(db, RollScope(None, Some(7), Some(KSK)), now, {}).rows
      == [a.(retire := Some(now)), b.(state := KeyPublish), d]
  {
    hide MarkedPair, Extended, Promoted, Selection, RolledAll;
    SelectionOf(db, RollScope(None, Some(7), Some(KSK)), a, b, d);
    SingleRoll(db, a, Some(7), now, {});
    MarkedThree(db, a, b, d, now);
    GuardOfThree(MarkedPair(db, 1, now), a.(retire := Some(now)), b, d, now);
    PromotedThree(a.(retire := Some(now)), b, d);
  }

  lemma MarkedThree(db: Db, a: Row, b: Row, d: Row, now: int)
    requires Three(db, a, b, d)
    ensures Three(MarkedPair(db, 1, now), a.(retire := Some(now)), b, d)
  {
    assert MarkedPair(db, 1, now).rows == [a.(retire := Some(now)), b, d];
  }

  lemma GuardOfThree(db: Db, a: Row, b: Row, d: Row, now: int)
    requires Three(db, a, b, d) && a.retire == Some(now)
    ensures Extended(EMPTY, db, 1, Some(7), now) == Guard([1], [2], 1)
  {
    hide RetiringZones, ServedZones;
    RetiringOf(a, b, d, now);
    ServedOf(db, a, b, d);
    assert AppendedAll([], [1], 0) == [1] && AppendedAll([], [2], 0) == [2];
  }

  lemma PromotedThree(a: Row, b: Row, d: Row)
    requires a.state == Active && b.state == DsReady && b.zone == 1 && d.state == Publish
    ensures Promoted([a, b, d], Guard([1], [2], 1), {}) == [a, b.(state := KeyPublish), d]
  {
  }

  lemma SelectionOf(db: Db, s: RollScope, a: Row, b: Row, d: Row)
    requires Selects(db, s, a) && !Selects(db, s, b) && !Selects(db, s, d)
    ensures Selection(db, s, [a, b, d]) == [a]
  {
    hide Selects;
    assert [a, b, d][..2] == [a, b] && [a, b][..1] == [a] && [a][..0] == [];
    assert Selection(db, s, [a]) == [a];
    assert Selection(db, s, [a, b]) == [a];
  }

  lemma RetiringOf(a: Row, b: Row, d: Row, now: int)
    requires a.pair == 1 && a.zone == 1 && a.retire == Some(now) && b.pair != 1 && d.pair != 1
    ensures RetiringZones([a, b, d], 1, now) == [1]
  {
    assert [a, b, d][..2] == [a, b] && [a, b][..1] == [a] && [a][..0] == [];
    assert RetiringZones([a], 1, now) == [1];
    assert RetiringZones([a, b], 1, now) == [1];
  }

  lemma ServedOf(db: Db, a: Row, b: Row, d: Row)
    requires a.state == Active && b.state == DsReady && d.kind.KSK? && d.state == Publish && d.zone == 2
    requires OfPolicy(db, d, Some(7))
    ensures ServedZones(db, Some(7), [a, b, d]) == [2]
  {
    assert [a, b, d][..2] == [a, b] && [a, b][..1] == [a] && [a][..0] == [];
    assert ServedZones(db, Some(7), [a]) == [];
    assert ServedZones(db, Some(7), [a, b]) == [];
  }

  /** With a second KSK the guard fails. Pairs 1 and 2 sign zones 1 and 2; in zone 2 pair 3 stands by and pair 4 is
      ready. Rolling the policy's KSKs bars zone 2 for the first KSK and zone 22 for the second, so that pair 3 is
      promoted although pair 4 could take over. */
  lemma SecondKskForgetsZone(now: int)
    requires now >= 0
    ensures
      var k := KeyPair(7, 1, 2048, 8, false, false, None, None);
      var rows := [
        Row(1, 1, KSK, Active, Some(0), Some(0), Some(0), Some(100), None),
        Row(2, 2, KSK, Active, Some(0), Some(0), Some(0), Some(100), None),
        Row(3, 2, KSK, DsReady, Some(0), Some(0), None, None, None),
        Row(4, 2, KSK, Ready, Some(0), Some(0), None, None, None)];
      var db := Db(map[1 := k, 2 := k, 3 := k, 4 := k], rows);
      && Good(db, now)
      && KeyRolled(db, RollScope(None, Some(7), Some(KSK)), now, {}).rows
         == [rows[0].(retire := Some(now)), rows[1].(retire := Some(now)), rows[2].(state := KeyPublish), rows[3]]
  {
    hide KeyRolled;
    var k := KeyPair(7, 1, 2048, 8, false, false, None, None);
    var a := Row(1, 1, KSK, Active, Some(0), Some(0), Some(0), Some(100), None);
    var b := Row(2, 2, KSK, Active, Some(0), Some(0), Some(0), Some(100), None);
    var s := Row(3, 2, KSK, DsReady, Some(0), Some(0), None, None, None);
    var r := Row(4, 2, KSK, Ready, Some(0), Some(0), None, None, None);
    var db := Db(map[1 := k, 2 := k, 3 := k, 4 := k], [a, b, s, r]);
    assert Good(db, now);
    RollOfTwo(db, a, b, s, r, now);
  }

  /** Rows a and b sign zones 1 and 2, s stands by in zone 2, and r is ready there. */
  predicate Four(db: Db, a: Row, b: Row, s: Row, r: Row) {
    && db.rows == [a, b, s, r] && a.pair == 1 && b.pair == 2 && s.pair == 3 && r.pair == 4
    && a.zone == 1 && b.zone == s.zone == r.zone == 2
    && a.kind.KSK? && b.kind.KSK? && s.kind.KSK? && r.kind.KSK?
    && a.state == b.state == Active && s.state == DsReady && r.state == Ready && s.retire.None? && r.retire.None?
    && (forall k :: 1 <= k <= 4 ==> k in db.pairs && db.pairs[k].policy == 7)
  }

  lemma RollOfTwo(db: Db, a: Row, b: Row, s: Row, r: Row, now: int)
    requires Four(db, a, b, s, r)
    ensures KeyRolled(db, RollScope(None, Some(7), Some(KSK)), now, {}).rows
      == [a.(retire := Some(now)), b.(retire := Some(now)), s.(state := KeyPublish), r]
  {
    hide Four, Extended, Promoted, RolledAll, Selection, MarkedPair;
    var a', b' := a.(retire := Some(now)), b.(retire := Some(now));
    SelectionOfFour(db, a, b, s, r);
    FourMarked(db, a, b, s, r, now);
    var first := MarkedPair(db, 1, now);
    FourGuard(EMPTY, first, a', b, s, r, 1, now);
    assert Promoted(first.rows, Guard([1], [2], 1), {}) == first.rows by {
      FourPromoted(first, a', b, s, r);
    }
    var second := MarkedPair(first, 2, now);
    FourGuard(Guard([1], [2], 1), second, a', b', s, r, 2, now);
    assert Promoted(second.rows, Guard([1, 2], [22], 1), {}) == [a', b', s.(state := KeyPublish), r] by {
      FourPromoted(second, a', b', s, r);
    }
    TwoRolls(db, a, b, now);
  }

  lemma TwoRolls(db: Db, a: Row, b: Row, now: int)
    ensures var (before, g) := RolledOne(db, EMPTY, a, Some(7), now, {});
      RolledAll(db, [a, b], Some(7), now, {}) == RolledOne(before, g, b, Some(7), now, {})
  {
    hide RolledOne;
    assert [a, b][..1] == [a];
    SingleRoll(db, a, Some(7), now, {});
  }

  lemma SelectionOfFour(db: Db, a: Row, b: Row, s: Row, r: Row)
    requires Four(db, a, b, s, r)
    ensures a.pair == 1 && b.pair == 2 && a.kind.KSK? && b.kind.KSK?
    ensures Selection(db, RollScope(None, Some(7), Some(KSK)), db.rows) == [a, b]
  {
    hide Selection;
    var scope := RollScope(None, Some(7), Some(KSK));
    SelectionMore(db, scope, [], a);
    SelectionMore(db, scope, [a], b);
    SelectionMore(db, scope, [a, b], s);
    SelectionMore(db, scope, [a, b, s], r);
    assert [] + [a] == [a] && [a] + [b] == [a, b] && [a, b] + [s] == [a, b, s] && [a, b, s] + [r] == [a, b, s, r];
  }

  lemma SelectionMore(db: Db, scope: RollScope, rows: seq<Row>, r: Row)
    ensures Selection(db, scope, rows + [r]) == Selection(db, scope, rows) + if Selects(db, scope, r) then [r] else []
    ensures Selection(db, scope, []) == []
  {
    hide Selects;
    assert (rows + [r])[..|rows|] == rows;
  }

  lemma FourMarked(db: Db, a: Row, b: Row, s: Row, r: Row, now: int)
    requires Four(db, a, b, s, r)
    ensures Four(MarkedPair(db, 1, now), a.(retire := Some(now)), b, s, r)
    ensures Four(MarkedPair(MarkedPair(db, 1, now), 2, now), a.(retire := Some(now)), b.(retire := Some(now)), s, r)
  {
    assert MarkedPair(db, 1, now).rows == [a.(retire := Some(now)), b, s, r];
    assert MarkedPair(MarkedPair(db, 1, now), 2, now).rows
      == [a.(retire := Some(now)), b.(retire := Some(now)), s, r];
  }

  /** The guard after the first and after the second KSK. */
  lemma FourGuard(g: Guard, db: Db, a: Row, b: Row, s: Row, r: Row, id: int, now: int)
    requires Four(db, a, b, s, r) && a.retire == Some(now) && (id == 2 ==> b.retire == Some(now))
    requires (g == EMPTY && id == 1) || (g == Guard([1], [2], 1) && id == 2)
    ensures Extended(g, db, id, Some(7), now) == if id == 1 then Guard([1], [2], 1) else Guard([1, 2], [22], 1)
  {
    hide RetiringZones, ServedZones;
    FourZones(db, a, b, s, r, id, now);
    GuardGrows(g, db, id, Some(7), now);
    assert RunTogether(2, 2) == 22;
  }

  lemma FourZones(db: Db, a: Row, b: Row, s: Row, r: Row, id: int, now: int)
    requires Four(db, a, b, s, r) && a.retire == Some(now) && 1 <= id <= 2 && (id == 2 ==> b.retire == Some(now))
    ensures RetiringZones(db.rows, id, now) == [id]
    ensures ServedZones(db, Some(7), db.rows) == [2]
  {
    var rows := db.rows;
    assert rows[..3] == [a, b, s] && rows[..3][..2] == [a, b] && [a, b][..1] == [a] && [a][..0] == [];
    assert RetiringZones([a, b, s], id, now) == RetiringZones([a, b], id, now);
    assert RetiringZones([a], id, now) == if id == 1 then [1] else [];
    assert ServedZones(db, Some(7), [a]) == [];
    assert ServedZones(db, Some(7), [a, b]) == [];
    assert ServedZones(db, Some(7), [a, b, s]) == [];
  }

  lemma FourPromoted(db: Db, a: Row, b: Row, s: Row, r: Row)
    requires Four(db, a, b, s, r)
    ensures Promoted(db.rows, Guard([1], [2], 1), {}) == db.rows
    ensures Promoted(db.rows, Guard([1, 2], [22], 1), {}) == [a, b, s.(state := KeyPublish), r]
  {
  }

  /** A key that becomes active without ever having been listed: with the tables above, the command promotes pair 2,
      whose DS record was seen at time 0, and the next request for KSKs of zone 1 makes it active if the interval has
      passed by then; before that it is not in the list. */
  lemma ActiveUnlisted(p: Policy, now: int)
    requires now >= p.zskTtl + p.propDelay + p.pubSafety
    ensures
      var k := KeyPair(7, 1, 2048, 8, false, false, None, None);
      var db := Db(map[1 := k, 2 := k, 3 := k], [
        Row(1, 1, KSK, Active, Some(0), Some(0), Some(0), Some(100), None),
        Row(2, 1, KSK, DsReady, Some(0), Some(0), None, None, None),
        Row(3, 2, KSK, Publish, Some(0), None, None, None, None)]);
      var rolled := KeyRolled(db, RollScope(None, Some(7), Some(KSK)), now, {});
      var out := Handled(rolled, Only(KSK), false, Call(now, 1, p, 0, {}), false);
      && (forall r :: r in Issue(db.rows, KSK, 1) ==> r.pair != 2)
      && out.status == Ok && |out.db.rows| == 3 && out.db.rows[1].pair == 2 && out.db.rows[1].state == Active
  {
    hide KeyRolled, Handled, Issue;
    var k := KeyPair(7, 1, 2048, 8, false, false, None, None);
    var rows := [
      Row(1, 1, KSK, Active, Some(0), Some(0), Some(0), Some(100), None),
      Row(2, 1, KSK, DsReady, Some(0), Some(0), None, None, None),
      Row(3, 2, KSK, Publish, Some(0), None, None, None, None)];
    var db, s := Db(map[1 := k, 2 := k, 3 := k], rows), RollScope(None, Some(7), Some(KSK));
    var c := Call(now, 1, p, 0, {});
    GuardCanBeMet(now);
    KeyRolledRolls(db, s, now, {});
    RolledGood(db, KeyRolled(db, s, now, {}), now, Targets(db, s));
    KskRequest(KeyRolled(db, s, now, {}), c, false, 1);
    RequestConservesKeys(KeyRolled(db, s, now, {}), Only(KSK), false, c, false);
    var rolled := KeyRolled(db, s, now, {});
    assert SameKey(rolled.rows[1], Handled(rolled, Only(KSK), false, c, false).db.rows[1]);
    IssueMembers(rows, KSK, 1);
  }

  /** The command on a single zone never finds a list of zones to bar; where NULL prints as "(null)" it promotes
      nothing. */
  lemma ZoneRollPromotesNothing(db: Db, s: RollScope, now: int)
    requires s.policy.None?
    ensures forall k :: k !in Hurried(db.rows, KeyRolled(db, s, now, {}).rows)
  {
    NothingPromoted(db, Selection(db, s, db.rows), now);
  }

  /** Nor does a command for ZSKs, whatever an unwritten list lets through. */
  lemma ZskRollPromotesNothing(db: Db, s: RollScope, now: int, loose: set<int>)
    requires s.kind == Some(ZSK)
    ensures forall k :: k !in Hurried(db.rows, KeyRolled(db, s, now, loose).rows)
  {
    hide Selects, RolledAll;
    SelectionMembers(db, s, db.rows);
    var keys := Selection(db, s, db.rows);
    forall i | 0 <= i < |keys|
      ensures keys[i].kind.ZSK?
    {
      assert keys[i] in keys;
      SelectsKind(db, s, keys[i]);
    }
    ZsksPromoteNothing(db, keys, s.policy, now, loose);
  }

  lemma SelectsKind(db: Db, s: RollScope, r: Row)
    requires Selects(db, s, r) && s.kind.Some?
    ensures r.kind == s.kind.value
  {
  }

  lemma {:induction false} ZsksPromoteNothing(db: Db, keys: seq<Row>, policy: Option<int>, now: int, loose: set<int>)
    requires forall i :: 0 <= i < |keys| ==> keys[i].kind.ZSK?
    ensures var after := RolledAll(db, keys, policy, now, loose).0;
      && |after.rows| == |db.rows|
      && forall i :: 0 <= i < |db.rows| && after.rows[i].state == KeyPublish ==> db.rows[i].state == KeyPublish
  {
    hide Extended, Promoted;
    if keys != [] {
      ZsksPromoteNothing(db, keys[..|keys| - 1], policy, now, loose);
    }
  }

  lemma {:induction false} NothingPromoted(db: Db, keys: seq<Row>, now: int)
    ensures var (after, g) := RolledAll(db, keys, None, now, {});
      && g.barred == [] && |after.rows| == |db.rows|
      && forall i :: 0 <= i < |db.rows| && after.rows[i].state == KeyPublish ==> db.rows[i].state == KeyPublish
  {
    if keys != [] {
      NothingPromoted(db, keys[..|keys| - 1], now);
      var (before, g) := RolledAll(db, keys[..|keys| - 1], None, now, {});
      var marked := MarkedPair(before, keys[|keys| - 1].pair, now);
      assert ServedZones(marked, None, marked.rows) == [];
    }
  }
}
