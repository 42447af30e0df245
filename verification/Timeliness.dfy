/** Rollovers come on time: if the requests for a zone come often enough and find enough keys, the first one at or
    after the signer's retire date finds a ready successor. This is what the horizon of the pending retirements is
    for. */
module Timeliness {
  import opened Tables
  import opened Update
  import opened Request
  import opened Moves
  import opened Invariant
  import opened Lifeline
  import opened Zsk
  import opened Supply
  import opened Availability
  import opened KeyRoll
  import opened RollSteps
  import opened Runs
  import opened RequestSteps
  import opened EventSteps
  import opened Histories
  import opened Signers
  import Theorems
  import ForcedRollovers

  /** The term of a signing key: its zone, its pair, when it became active, and the policy and run interval. */
  datatype Term = Term(zone: int, key: int, since: int, policy: Policy, interval: nat)

  /** The retire date of the key. */
  function End(t: Term): int {
    t.since + Lifetime(t.policy, ZSK)
  }

  function Wait(t: Term): nat {
    PublicationInterval(t.policy)
  }

  predicate ServesAt(db: Db, t: Term, i: nat) {
    && i < |db.rows| && Signs(db.rows[i], t.zone) && db.rows[i].pair == t.key && db.rows[i].active == Some(t.since)
    && !HasFixedDate(db.pairs, db.rows[i])
  }

  /** The key signs, and its retire date is not fixed. */
  ghost predicate Serves(db: Db, t: Term) {
    exists i: nat :: ServesAt(db, t, i)
  }

  /** Another key that is ready, or will be when the term ends. */
  predicate IsHeir(r: Row, t: Term) {
    && IsZsk(r, t.zone) && r.pair != t.key
    && (r.state == Ready || (r.state == Publish && r.publish.Some? && r.publish.value + Wait(t) <= End(t)))
  }

  predicate HasHeir(db: Db, t: Term) {
    exists i :: 0 <= i < |db.rows| && IsHeir(db.rows[i], t)
  }

  /** A request no later than one interval after `last` still comes in time to publish an heir. */
  predicate Slack(t: Term, last: int) {
    last + t.interval + Wait(t) <= End(t) && last + t.interval < End(t)
  }

  ghost predicate OnTrack(db: Db, t: Term, last: int) {
    Serves(db, t) && (Slack(t, last) || HasHeir(db, t))
  }

  predicate ZoneRequest(e: Event, zone: int) {
    e.KeyRequest? && e.call.zone == zone && e.kinds != Only(KSK)
  }

  // ---- Events that do not handle the zone's ZSKs ----

  /** Every ZSK of the zone that is published, ready or active is still so, with the same dates. */
  ghost predicate KeepsKeys(a: seq<Row>, b: seq<Row>, zone: int) {
    forall r :: r in a && IsZsk(r, zone) && r.state in {Publish, Ready, Active} ==>
      exists s :: s in b && SameDates(r, s)
  }

  predicate SameDates(r: Row, s: Row) {
    SameKey(r, s) && s.state == r.state && s.publish == r.publish && s.active == r.active
  }

  /** The pair's date is not fixed by the event. */
  predicate KeepsFree(a: Db, b: Db, k: int) {
    (k in b.pairs && b.pairs[k].fixedDate) ==> (k in a.pairs && a.pairs[k].fixedDate)
  }

  lemma TrackKept(a: Db, b: Db, t: Term, last: int)
    requires OnTrack(a, t, last) && KeepsKeys(a.rows, b.rows, t.zone) && KeepsFree(a, b, t.key)
    ensures OnTrack(b, t, last)
  {
    var i: nat :| ServesAt(a, t, i);
    assert a.rows[i] in a.rows;
    var s :| s in b.rows && SameDates(a.rows[i], s);
    var j :| 0 <= j < |b.rows| && b.rows[j] == s;
    assert ServesAt(b, t, j);
    if HasHeir(a, t) {
      var x :| 0 <= x < |a.rows| && IsHeir(a.rows[x], t);
      assert a.rows[x] in a.rows;
      var y :| y in b.rows && SameDates(a.rows[x], y);
      var m :| 0 <= m < |b.rows| && b.rows[m] == y;
      assert IsHeir(b.rows[m], t);
    }
  }

  /** Row by row: what keeps the keys when rows stay in their places. */
  lemma RowsKeepKeys(a: seq<Row>, b: seq<Row>, zone: int)
    requires |a| <= |b|
    requires forall i :: 0 <= i < |a| && IsZsk(a[i], zone) && a[i].state in {Publish, Ready, Active} ==>
      SameDates(a[i], b[i])
    ensures KeepsKeys(a, b, zone)
  {
    forall r | r in a && IsZsk(r, zone) && r.state in {Publish, Ready, Active}
      ensures exists s :: s in b && SameDates(r, s)
    {
      var i :| 0 <= i < |a| && a[i] == r;
      assert b[i] in b;
    }
  }

  /** A request that does not handle the zone's ZSKs. */
  lemma OtherRequestKeeps(db: Db, kinds: Kinds, rollover: bool, c: Call, newDs: bool, zone: int, i: nat)
    requires Good(db, c.now) && i < |db.rows| && IsZsk(db.rows[i], zone)
    requires c.zone != zone || kinds == Only(KSK)
    ensures var out := Handled(db, kinds, rollover, c, newDs).db;
      && |out.rows| == |db.rows| && SameKey(db.rows[i], out.rows[i]) && out.rows[i].state == db.rows[i].state
      && out.rows[i].publish == db.rows[i].publish
      && (db.rows[i].state in {Publish, Ready, Active} ==> out.rows[i].active == db.rows[i].active)
      && KeepsFree(db, out, db.rows[i].pair)
  {
    hide ByType, Updated, RowsOk;
    var dated := WithDates(db, c);
    UpdatedOk(db, c.policy, c.zone, c.now);
    UpdatedRises(db, c.policy, c.zone);
    UnsharedRises(db.rows, dated.rows);
    QuietUpdate(db, c, i);
    var kind := if kinds.Both? then KSK else kinds.kind;
    var first := ByType(dated, kind, rollover, c, newDs);
    QuietPass(dated, kind, rollover, c, newDs, i);
    ByTypeOk(dated, kind, rollover, c, newDs);
    QuietUpdate(first.db, c, i);
    if kinds.Both? {
      var second := ByType(first.db, ZSK, rollover, c, first.newDs);
      QuietPass(first.db, ZSK, rollover, c, first.newDs, i);
      QuietUpdate(second.db, c, i);
    }
  }

  lemma QuietUpdate(db: Db, c: Call, i: nat)
    requires i < |db.rows| && db.rows[i].kind.ZSK?
    ensures var s := WithDates(db, c).rows[i];
      && SameKey(db.rows[i], s) && s.state == db.rows[i].state && s.publish == db.rows[i].publish
      && (s.state != KeyPublish ==> s.active == db.rows[i].active)
  {
  }

  lemma QuietPass(db: Db, kind: KeyType, rollover: bool, c: Call, newDs: bool, i: nat)
    requires Good(db, c.now) && i < |db.rows| && db.rows[i].kind.ZSK? && (c.zone != db.rows[i].zone || kind.KSK?)
    ensures var out := ByType(db, kind, rollover, c, newDs).db;
      |out.rows| == |db.rows| && out.rows[i] == db.rows[i] && KeepsFree(db, out, db.rows[i].pair)
  {
    hide ByType, RowsOk;
    PassElsewhere(db, kind, rollover, c, newDs);
    PassPairs(db, kind, rollover, c, newDs);
    MarkedUnshared(db, kind, c);
  }

  lemma OtherOnTrack(w: World, e: Event, t: Term, last: int)
    requires Inv(w, t.zone) && Enabled(w, e) && OnTrack(w.db, t, last)
    requires !ZoneRequest(e, t.zone) && !ForcesAgain(w, e, t.zone, t.key)
    ensures OnTrack(Exec(w, e).db, t, last)
  {
    hide Handled, KeyRolled, Purged, OnTrack, SignerOk, HasLife, HasKskLife, RowsOk;
    var w' := Exec(w, e);
    KeepsByEvent(w, e, t.zone);
    if Serves(w.db, t) {
      FreeByEvent(w, e, t);
    }
    assert Serves(w.db, t) by { TrackServes(w.db, t, last); }
    TrackKept(w.db, w'.db, t, last);
  }

  lemma TrackServes(db: Db, t: Term, last: int)
    requires OnTrack(db, t, last)
    ensures Serves(db, t)
  {
  }

  lemma KeepsByEvent(w: World, e: Event, zone: int)
    requires Inv(w, zone) && Enabled(w, e) && !ZoneRequest(e, zone)
    ensures KeepsKeys(w.db.rows, Exec(w, e).db.rows, zone)
  {
    hide Handled, KeyRolled, Purged, SignerOk, HasLife, HasKskLife, RowsOk, KeepsKeys;
    var a, b := w.db.rows, Exec(w, e).db.rows;
    match e
    case KeyRequest(kinds, rollover, c, newDs) =>
      GoodLater(w.db, w.clock, c.now);
      RequestConservesKeys(w.db, kinds, rollover, c, newDs);
      forall i | 0 <= i < |a| && IsZsk(a[i], zone) && a[i].state in {Publish, Ready, Active}
        ensures SameDates(a[i], b[i])
      {
        OtherRequestKeeps(w.db, kinds, rollover, c, newDs, zone, i);
      }
      RowsKeepKeys(a, b, zone);
    case Roll(s, now, loose) =>
      KeyRolledRolls(w.db, s, now, loose);
      RolledKeys(w.db, KeyRolled(w.db, s, now, loose), now, Targets(w.db, s));
      forall i | 0 <= i < |a| && IsZsk(a[i], zone) && a[i].state in {Publish, Ready, Active}
        ensures SameDates(a[i], b[i])
      {
        RolledAt(w.db, KeyRolled(w.db, s, now, loose), now, Targets(w.db, s), i);
      }
      RowsKeepKeys(a, b, zone);
    case Purge(owner, limit) =>
      PurgeReduces(w.db, owner, limit);
      PurgeKeepsKeys(w.db, Purged(w.db, owner, limit), PurgeSet(w.db, owner, limit), zone);
    case _ =>
      RowsKeepKeys(a, b, zone);
  }

  lemma PurgeKeepsKeys(a: Db, b: Db, gone: set<int>, zone: int)
    requires Reduced(a, b, gone)
    ensures KeepsKeys(a.rows, b.rows, zone)
  {
    forall r | r in a.rows && IsZsk(r, zone) && r.state in {Publish, Ready, Active}
      ensures r in b.rows
    {
    }
  }

  lemma FreeByEvent(w: World, e: Event, t: Term)
    requires Inv(w, t.zone) && Enabled(w, e) && Serves(w.db, t)
    requires !ZoneRequest(e, t.zone) && !ForcesAgain(w, e, t.zone, t.key)
    ensures KeepsFree(w.db, Exec(w, e).db, t.key)
  {
    hide Handled, KeyRolled, Purged, SignerOk, HasLife, HasKskLife, RowsOk;
    var i: nat :| ServesAt(w.db, t, i);
    Theorems.PairOfRow(w.db, w.clock, i);
    match e
    case KeyRequest(kinds, rollover, c, newDs) =>
      GoodLater(w.db, w.clock, c.now);
      OtherRequestKeeps(w.db, kinds, rollover, c, newDs, t.zone, i);
    case Roll(s, now, loose) =>
      KeyRolledRolls(w.db, s, now, loose);
      RolledPairAt(w.db, KeyRolled(w.db, s, now, loose), now, Targets(w.db, s), t.key);
    case Purge(owner, limit) =>
      PurgeReduces(w.db, owner, limit);
    case _ =>
  }

  // ---- Requests before the end of the term ----

  /** The input of the ZSK pass is in order, with the signing key's retire date at the end of its term. */
  lemma InputInTerm(w: World, kinds: Kinds, c: Call, newDs: bool, t: Term, i: nat)
    requires Inv(w, c.zone) && w.clock <= c.now && kinds != Only(KSK)
    requires ServesAt(w.db, t, i) && c.zone == t.zone && c.policy == t.policy
    ensures var input := ZskInput(w.db, kinds, false, c, newDs);
      && Good(input, c.now) && SameView(w.db, input, c) && Unique(input.rows) && OneActive(input.rows, c.zone, i)
      && input.rows[i] == w.db.rows[i].(retire := Some(End(t))) && !HasFixedDate(input.pairs, input.rows[i])
      && input.pairs == w.db.pairs
  {
    hide ByType, Updated, HasLife, HasKskLife, RowsOk;
    UniqueFromUnshared(w.db.rows);
    InputView(w.db, kinds, false, c, newDs);
    UpdateStep(w, c, c.zone);
    ForcedRollovers.TheActiveOne(w, c.zone, i);
    if kinds.Both? {
      PassFrame(Redated(w, c), KSK, false, c, newDs, c.zone);
      PassPairs(WithDates(w.db, c), KSK, false, c, newDs);
    }
    OneActiveView(w.db, ZskInput(w.db, kinds, false, c, newDs), c, i);
  }

  lemma UniqueFromUnshared(rows: seq<Row>)
    requires Unshared(rows)
    ensures Unique(rows)
  {
  }

  lemma OneActiveView(db: Db, input: Db, c: Call, i: nat)
    requires SameView(db, input, c) && OneActive(db.rows, c.zone, i)
    ensures OneActive(input.rows, c.zone, i)
  {
    forall j | 0 <= j < |db.rows|
      ensures Signs(input.rows[j], c.zone) <==> Signs(db.rows[j], c.zone)
    {
      assert SameKey(db.rows[j], input.rows[j]);
    }
  }

  /** Before the end of the term the pass stages keys and switches nothing. */
  lemma PassInTerm(db: Db, c: Call, newDs: bool, i: nat)
    requires Good(db, c.now) && OneActive(db.rows, c.zone, i) && !HasFixedDate(db.pairs, db.rows[i])
    requires db.rows[i].retire.Some? && c.now < db.rows[i].retire.value
    ensures var out := ByType(db, ZSK, false, c, newDs);
      && out.status == Ok && out.db == db.(rows := Staged(db.rows, ZSK, false, c, newDs))
      && |out.db.rows| == |db.rows| && out.db.rows[i] == db.rows[i]
  {
    hide Staged, StagedNewDs, Issue, Count, Switched;
    CountPositive(db.rows, InStates(c.zone, ZSK, BEYOND_GENERATE), i);
    var s := Staged(db.rows, ZSK, false, c, newDs);
    ZskStaged(db.rows, false, c, newDs);
    assert StagedRow(db.rows[i], s[i], c.now);
    CountPositive(s, ActiveAfter(c.zone, ZSK, c.now), i);
    NotCompromised(db, c, i);
    NoSwitch(db.(rows := s), false, c);
  }

  lemma NotCompromised(db: Db, c: Call, i: nat)
    requires Good(db, c.now) && OneActive(db.rows, c.zone, i) && !HasFixedDate(db.pairs, db.rows[i])
    ensures !Compromised(db, ZSK, c.zone)
  {
  }

  /** Two selected rows when one is known. */
  lemma SecondRow(rows: seq<Row>, q: Clause, i: nat) returns (j: nat)
    requires Count(rows, q) >= 2 && i < |rows| && Matches(q, rows[i])
    ensures j < |rows| && j != i && Matches(q, rows[j])
  {
    hide Count;
    if forall j :: 0 <= j < |rows| && j != i ==> !Matches(q, rows[j]) {
      CountOne(rows, q, i);
    }
    j :| 0 <= j < |rows| && j != i && Matches(q, rows[j]);
  }

  /** A covered pass that sees the end of the term within its horizon leaves another key published or ready. */
  lemma PassLeavesHeir(db: Db, c: Call, newDs: bool, i: nat) returns (j: nat)
    requires Good(db, c.now) && OneActive(db.rows, c.zone, i) && Covered(BeforeReplenish(db.rows, c), c)
    requires Due(db.rows[i].retire, c.now + (PublicationInterval(c.policy) + c.interval))
    ensures var s := Staged(db.rows, ZSK, false, c, newDs);
      && j < |s| == |db.rows| && j != i && IsZsk(s[j], c.zone) && s[j].state in {Publish, Ready}
  {
    hide Staged, Count, Covered, BeforeReplenish, Replenished;
    var s := Staged(db.rows, ZSK, false, c, newDs);
    StagedIsReplenished(db.rows, c, newDs);
    ReplenishedCounts(BeforeReplenish(db.rows, c), c);
    ZskStaged(db.rows, false, c, newDs);
    assert StagedRow(db.rows[i], s[i], c.now);
    CountPositive(s, RetiresBy(c.zone, ZSK, c.now + (PublicationInterval(c.policy) + c.interval)), i);
    j := SecondRow(s, InStates(c.zone, ZSK, AVAILABLE), i);
    StagedOk(db.rows, db.pairs, ZSK, false, c, newDs, c.now);
    assert StagedAs(db.rows, s, c);
    OtherStates(db, s, c, i, j);
  }

  lemma StagedIsReplenished(rows: seq<Row>, c: Call, newDs: bool)
    ensures Staged(rows, ZSK, false, c, newDs) == Replenished(BeforeReplenish(rows, c), ZSK, c)
  {
    hide Replenished;
  }

  lemma OtherStates(db: Db, s: seq<Row>, c: Call, i: nat, j: nat)
    requires RowsOk(s, db.pairs, c.now) && StagedAs(db.rows, s, c) && OneActive(db.rows, c.zone, i)
    requires j < |s| && j != i && Matches(InStates(c.zone, ZSK, AVAILABLE), s[j])
    ensures s[j].state in {Publish, Ready}
  {
  }

  /** A published key was listed before now. */
  lemma PublishedBefore(w: World, z: int, j: nat)
    requires Inv(w, z) && j < |w.db.rows| && IsZsk(w.db.rows[j], z) && w.db.rows[j].state == Publish
    ensures w.db.rows[j].publish.Some? && w.db.rows[j].publish.value <= w.clock
  {
    hide Good, SignerOk, HasKskLife;
    assert HasLife(w, z, w.db.rows[j].pair);
    var l :| Suits(w, z, w.db.rows[j].pair, l);
    assert Tied(w.log, w.db.rows[j], l);
  }

  lemma RequestOnTrack(w: World, e: Event, t: Term, last: int)
    requires Inv(w, t.zone) && Enabled(w, e) && ZoneRequest(e, t.zone) && !e.rollover && OnTrack(w.db, t, last)
    requires e.call.policy == t.policy && e.call.interval == t.interval
    requires Covered(BeforeReplenish(ZskInput(w.db, e.kinds, false, e.call, e.newDs).rows, e.call), e.call)
    requires e.call.now <= last + t.interval && e.call.now < End(t)
    ensures OnTrack(Exec(w, e).db, t, e.call.now)
  {
    hide Handled, SignerOk, HasLife, HasKskLife, RowsOk, ByType, Covered, BeforeReplenish, ZskInput, FlagInput;
    hide SameView;
    var c := e.call;
    var i: nat :| ServesAt(w.db, t, i);
    InputInTerm(w, e.kinds, c, e.newDs, t, i);
    var input, flag := ZskInput(w.db, e.kinds, false, c, e.newDs), FlagInput(w.db, e.kinds, false, c, e.newDs);
    PassInTerm(input, c, flag, i);
    UniqueFromUnshared(w.db.rows);
    RequestOfPass(w.db, e.kinds, false, c, e.newDs);
    var s, w' := Staged(input.rows, ZSK, false, c, flag), Exec(w, e);
    assert w'.db == WithDates(input.(rows := s), c);
    StepInv(w, e, t.zone);
    FinalRow(input.(rows := s), c, i);
    assert ServesAt(w'.db, t, i);
    if HasHeir(w.db, t) {
      var x :| 0 <= x < |w.db.rows| && IsHeir(w.db.rows[x], t);
      HeirStays(w.db, input, c, flag, t, x);
      FinalRow(input.(rows := s), c, x);
      assert IsHeir(w'.db.rows[x], t);
    } else if End(t) <= c.now + (Wait(t) + t.interval) {
      var j := PassLeavesHeir(input, c, flag, i);
      FinalRow(input.(rows := s), c, j);
      HeirFound(w', t, i, j);
    }
  }

  lemma FinalRow(db: Db, c: Call, j: nat)
    requires j < |db.rows| && IsZsk(db.rows[j], c.zone)
    ensures var r := WithDates(db, c).rows[j];
      && SameKey(db.rows[j], r) && r.state == db.rows[j].state && r.publish == db.rows[j].publish
      && (r.state == Active ==> r.active == db.rows[j].active)
  {
  }

  lemma HeirStays(db: Db, input: Db, c: Call, newDs: bool, t: Term, x: nat)
    requires SameView(db, input, c) && x < |db.rows| && IsHeir(db.rows[x], t) && c.zone == t.zone
    ensures var s := Staged(input.rows, ZSK, false, c, newDs); |s| == |db.rows| && IsHeir(s[x], t)
  {
    hide Staged;
    assert SameKey(db.rows[x], input.rows[x]);
    ZskStaged(input.rows, false, c, newDs);
    assert StagedRow(input.rows[x], Staged(input.rows, ZSK, false, c, newDs)[x], c.now);
  }

  lemma HeirFound(w: World, t: Term, i: nat, j: nat)
    requires Inv(w, t.zone) && ServesAt(w.db, t, i) && j < |w.db.rows| && j != i && IsZsk(w.db.rows[j], t.zone)
    requires w.db.rows[j].state in {Publish, Ready} && w.clock + Wait(t) <= End(t)
    ensures HasHeir(w.db, t)
  {
    hide SignerOk, HasLife, HasKskLife, RowsOk;
    if w.db.rows[j].state == Publish {
      PublishedBefore(w, t.zone, j);
    }
    assert IsHeir(w.db.rows[j], t);
  }

  // ---- The whole term ----

  /** The time of the last request for the zone's ZSKs among the events from j up to m. */
  function Last(es: seq<Event>, zone: int, j: nat, m: nat): int
    requires j < m <= |es| && ZoneRequest(es[j], zone)
    decreases m
  {
    if m == j + 1 then es[j].call.now
    else if ZoneRequest(es[m - 1], zone) then es[m - 1].call.now
    else Last(es, zone, j, m - 1)
  }

  /** Event m: no rollover of the key is forced, and a request for the zone's ZSKs is under the policy and the interval
      of the term, finds enough generated keys, and comes at most one interval after the request before it. */
  predicate Regular(ws: seq<World>, es: seq<Event>, t: Term, j: nat, m: nat)
    requires |ws| == |es| + 1 && j < m < |es| && ZoneRequest(es[j], t.zone)
  {
    var e := es[m];
    && !ForcesAgain(ws[m], e, t.zone, t.key)
    && (ZoneRequest(e, t.zone) ==>
          && e.call.policy == t.policy && e.call.interval == t.interval
          && e.call.now <= Last(es, t.zone, j, m) + t.interval
          && Covered(BeforeReplenish(ZskInput(ws[m].db, e.kinds, false, e.call, e.newDs).rows, e.call), e.call))
  }

  lemma {:induction false} TermOnTrack(ws: seq<World>, es: seq<Event>, t: Term, j: nat, m: nat)
    requires Run(ws, es) && Initial(ws[0], t.zone) && j < m < |ws| && ZoneRequest(es[j], t.zone)
    requires es[j].call.now == t.since && Serves(ws[j + 1].db, t) && Slack(t, t.since)
    requires forall x :: j < x < m ==> Regular(ws, es, t, j, x)
    requires forall x :: j < x < m && ZoneRequest(es[x], t.zone) ==> es[x].call.now < End(t)
    ensures OnTrack(ws[m].db, t, Last(es, t.zone, j, m))
  {
    hide Inv, Exec, Enabled, Initial, ForcesAgain, Covered, BeforeReplenish, ZskInput, Serves, HasHeir;
    if m > j + 1 {
      TermOnTrack(ws, es, t, j, m - 1);
      RunInv(ws, es, t.zone, m - 1);
      assert Regular(ws, es, t, j, m - 1);
      var w, e, last := ws[m - 1], es[m - 1], Last(es, t.zone, j, m - 1);
      if ZoneRequest(e, t.zone) {
        Unforced(w, e, t);
        RequestOnTrack(w, e, t, last);
      } else {
        OtherOnTrack(w, e, t, last);
      }
    }
  }

  lemma Unforced(w: World, e: Event, t: Term)
    requires ZoneRequest(e, t.zone) && !ForcesAgain(w, e, t.zone, t.key)
    ensures !e.rollover
  {
  }

  /** In every run: let a key become the signer of a zone at request j, under a policy whose key lifetime leaves room
      for the publication interval and one run interval. If from then on no rollover of it is forced, and the requests
      for the zone are regular, then the first request n at or after its retire date finds a ready successor. Unless
      that lacks a required backup or rollovers are manual, the request retires the key and the successor signs. */
  lemma RolloverIsTimely(ws: seq<World>, es: seq<Event>, t: Term, j: nat, n: nat) returns (i: nat, a: nat)
    requires Run(ws, es) && Initial(ws[0], t.zone)
    requires j < n < |es| && ZoneRequest(es[j], t.zone) && ZoneRequest(es[n], t.zone)
    requires es[j].call.now == t.since && Serves(ws[j + 1].db, t)
    requires Lifetime(t.policy, ZSK) >= t.policy.zskTtl + t.policy.propDelay + t.policy.pubSafety + t.interval
    requires Lifetime(t.policy, ZSK) > t.interval
    requires forall x :: j < x <= n ==> Regular(ws, es, t, j, x)
    requires forall x :: j < x < n && ZoneRequest(es[x], t.zone) ==> es[x].call.now < End(t)
    requires End(t) <= es[n].call.now
    ensures i < |ws[n].db.rows| && Signs(ws[n].db.rows[i], t.zone) && ws[n].db.rows[i].pair == t.key
    ensures FirstReady(ws[n].db.rows, es[n].call, a) && a != i
    ensures !t.policy.zskManual && !LacksBackup(ws[n].db.pairs, ws[n].db.rows[a].pair, es[n].call.needsBackup) ==>
      var rows := ws[n + 1].db.rows;
      && |rows| == |ws[n].db.rows| && rows[i].state == Retire && rows[a].state == Active
      && Count(rows, InStates(t.zone, ZSK, {Active})) == 1
  {
    hide Handled, SignerOk, HasLife, HasKskLife, RowsOk, Covered, BeforeReplenish, ZskInput, Count, Initial;
    var w, e := ws[n], es[n];
    var c, last := e.call, Last(es, t.zone, j, n);
    TermOnTrack(ws, es, t, j, n);
    RunInv(ws, es, t.zone, n);
    assert Regular(ws, es, t, j, n);
    Unforced(w, e, t);
    i :| ServesAt(w.db, t, i);
    assert !Slack(t, last);
    a := HeirIsReady(w.db, t, c);
    ForcedRollovers.TheActiveOne(w, t.zone, i);
    if !t.policy.zskManual && !LacksBackup(w.db.pairs, w.db.rows[a].pair, c.needsBackup) {
      UniqueFromUnshared(w.db.rows);
      ReadyHasNoDate(w.db, w.clock, c, a);
      SwitchedKeys(w.db, e.kinds, false, c, e.newDs, i, a);
      RequestKeepsSignerIff(w.db, e.kinds, false, c, e.newDs, i, a);
    }
  }

  lemma HeirIsReady(db: Db, t: Term, c: Call) returns (a: nat)
    requires HasHeir(db, t) && c.zone == t.zone && c.policy == t.policy && End(t) <= c.now
    ensures FirstReady(db.rows, c, a) && SomeReady(db.rows, c)
  {
    var x: nat :| x < |db.rows| && IsHeir(db.rows[x], t);
    assert WillBeReady(db.rows[x], c);
    a := LeastReady(db.rows, c, x);
  }

  lemma {:induction false} LeastReady(rows: seq<Row>, c: Call, x: nat) returns (a: nat)
    requires x < |rows| && WillBeReady(rows[x], c)
    ensures FirstReady(rows, c, a)
    decreases x
  {
    hide WillBeReady;
    if y: nat :| y < x && WillBeReady(rows[y], c) {
      a := LeastReady(rows, c, y);
    } else {
      a := x;
    }
  }

  lemma ReadyHasNoDate(db: Db, clock: int, c: Call, a: nat)
    requires Good(db, clock) && FirstReady(db.rows, c, a)
    ensures db.rows[a].retire.None?
  {
  }
}
