/** The parts of a request, one by one, keep the invariant of every zone. */
module RequestSteps {
  import opened Tables
  import opened Update
  import opened Request
  import opened Moves
  import opened Invariant
  import opened Lifeline
  import opened Supply
  import opened Runs
  import Zsk
  import Ksk

  // ---- What is issued ----

  lemma {:induction false} IssueMembers(rows: seq<Row>, kind: KeyType, zone: int)
    ensures forall r :: r in Issue(rows, kind, zone) <==> r in rows && Matches(InStates(zone, kind, ISSUED), r)
  {
    if rows != [] {
      var front := rows[..|rows| - 1];
      IssueMembers(front, kind, zone);
      assert rows == front + [rows[|rows| - 1]];
    }
  }

  /** The list of a pass names exactly the keys in the issued states. */
  lemma ListMembers(rows: seq<Row>, kind: KeyType, c: Call, k: int)
    ensures
      var e := ListOf(Issue(rows, kind, c.zone), kind, c);
      && (k in e.listed <==>
            exists i :: 0 <= i < |rows| && Matches(InStates(c.zone, kind, ISSUED), rows[i]) && rows[i].pair == k)
      && (k in e.signers <==>
            exists i :: 0 <= i < |rows| && Matches(InStates(c.zone, kind, {Active}), rows[i]) && rows[i].pair == k)
      && (k in e.standby <==>
            exists i :: 0 <= i < |rows| && Matches(InStates(c.zone, kind, {KeyPublish}), rows[i]) && rows[i].pair == k)
  {
    hide Issue;
    IssueMembers(rows, kind, c.zone);
  }

  /** With unshared pairs, a key with row i is listed by its state, a key without row not at all. */
  lemma ListedByState(rows: seq<Row>, kind: KeyType, c: Call, i: nat)
    requires Unshared(rows) && i < |rows| && rows[i].zone == c.zone && rows[i].kind == kind
    ensures
      var e := ListOf(Issue(rows, kind, c.zone), kind, c);
      var k := rows[i].pair;
      && (k in e.listed <==> rows[i].state in ISSUED)
      && (k in e.signers <==> rows[i].state == Active)
      && (k in e.standby <==> rows[i].state == KeyPublish)
  {
    hide Issue, ListOf;
    ListMembers(rows, kind, c, rows[i].pair);
  }

  lemma UnlistedKey(rows: seq<Row>, kind: KeyType, c: Call, k: int)
    requires forall i :: 0 <= i < |rows| && rows[i].zone == c.zone && rows[i].kind == kind ==> rows[i].pair != k
    ensures
      var e := ListOf(Issue(rows, kind, c.zone), kind, c);
      k !in e.listed && k !in e.signers && k !in e.standby
  {
    hide Issue, ListOf;
    ListMembers(rows, kind, c, k);
  }

  // ---- Frames ----

  /** A pass touches only rows of its zone and type. */
  lemma PassElsewhere(db: Db, kind: KeyType, rollover: bool, c: Call, newDs: bool)
    requires Good(db, c.now)
    ensures RisesIn(db.rows, ByType(db, kind, rollover, c, newDs).db.rows, c.zone, kind)
    ensures ByType(db, kind, rollover, c, newDs).db.pairs.Keys == db.pairs.Keys
  {
    hide Staged, Switched, StagedNewDs, Issue, Count, RowsOk;
    var firstPass := IsFirstPass(db.rows, kind, c.zone);
    var marked := if rollover then Marked(db, kind, c) else db;
    MarkedUnshared(db, kind, c);
    assert RisesIn(db.rows, marked.rows, c.zone, kind);
    var staged := marked.(rows := Staged(marked.rows, kind, firstPass, c, newDs));
    StagedRises(marked.rows, kind, firstPass, c, newDs);
    RisesInTrans(db.rows, marked.rows, staged.rows, c.zone, kind);
    var rolling := rollover || Compromised(db, kind, c.zone);
    SwitchedRises(staged, kind, rolling, firstPass, c);
    RisesInTrans(db.rows, staged.rows, Switched(staged, kind, rolling, firstPass, c).1, c.zone, kind);
  }

  /** The same keys in the same places. */
  predicate SameKeys(a: seq<Row>, b: seq<Row>) {
    |a| == |b| && forall i :: 0 <= i < |a| ==> SameKey(a[i], b[i])
  }

  lemma FreshSame(w: World, w': World, k: int)
    requires SameKeys(w.db.rows, w'.db.rows) && w'.nextId == w.nextId && w'.db.pairs.Keys == w.db.pairs.Keys
    ensures Fresh(w, k) <==> Fresh(w', k)
  {
    hide SameKey;
    if Allocated(w.db.rows, k) {
      var i :| 0 <= i < |w.db.rows| && w.db.rows[i].pair == k;
      assert SameKey(w.db.rows[i], w'.db.rows[i]);
      SameKeyPair(w.db.rows[i], w'.db.rows[i]);
    }
    if Allocated(w'.db.rows, k) {
      var i :| 0 <= i < |w'.db.rows| && w'.db.rows[i].pair == k;
      assert SameKey(w.db.rows[i], w'.db.rows[i]);
      SameKeyPair(w.db.rows[i], w'.db.rows[i]);
    }
  }

  lemma SameKeyPair(r: Row, s: Row)
    requires SameKey(r, s)
    ensures r.pair == s.pair && r.zone == s.zone && r.kind == s.kind
  {
  }

  // ---- Lives through a step that issues no list of the kind ----

  /** ZSK rows of the zone keep state, publish and retire dates, and the log does not grow. */
  predicate QuietZsks(a: seq<Row>, b: seq<Row>, z: int) {
    && SameKeys(a, b)
    && forall i :: 0 <= i < |a| && Zsk.IsZsk(a[i], z) ==>
         a[i].state == b[i].state && a[i].publish == b[i].publish && (a[i].state == Retire ==>
             a[i].retire == b[i].retire)
  }

  predicate QuietKsks(a: seq<Row>, b: seq<Row>, z: int) {
    && SameKeys(a, b)
    && forall i :: 0 <= i < |a| && Ksk.IsKsk(a[i], z) ==> a[i].state == b[i].state && a[i].publish == b[i].publish
  }

  predicate SameTable(w: World, w': World) {
    w'.nextId == w.nextId && w'.db.pairs.Keys == w.db.pairs.Keys && w'.rushed == w.rushed
  }

  lemma QuietLife(w: World, w': World, z: int, k: int)
    requires HasLife(w, z, k) && QuietZsks(w.db.rows, w'.db.rows, z) && SameTable(w, w') && w'.log == w.log
    ensures HasLife(w', z, k)
  {
    var l :| Suits(w, z, k, l);
    FreshSame(w, w', k);
    assert Suits(w', z, k, l) by {
      forall i | 0 <= i < |w'.db.rows| && Zsk.IsZsk(w'.db.rows[i], z) && w'.db.rows[i].pair == k
        ensures Tied(w'.log, w'.db.rows[i], l)
      {
        assert SameKey(w.db.rows[i], w'.db.rows[i]);
        assert Tied(w.log, w.db.rows[i], l);
      }
      if forall i :: 0 <= i < |w'.db.rows| && Zsk.IsZsk(w'.db.rows[i], z) ==> w'.db.rows[i].pair != k {
        assert forall i :: 0 <= i < |w.db.rows| ==> SameKey(w.db.rows[i], w'.db.rows[i]);
      }
    }
  }

  lemma OtherListLife(w: World, w': World, e: KeyList, z: int, k: int)
    requires HasLife(w, z, k) && QuietZsks(w.db.rows, w'.db.rows, z) && SameTable(w, w')
    requires w'.log == w.log + [e] && !About(e, z, ZSK)
    ensures HasLife(w', z, k)
  {
    var q := w'.(log := w.log);
    QuietLife(w, q, z, k);
    var l :| Suits(q, z, k, l);
    OtherList(w.log, e, z, k, l);
    assert Suits(w', z, k, Longer(l, |w.log|)) by {
      assert Fresh(w', k) == Fresh(q, k);
      forall i | 0 <= i < |w'.db.rows| && Zsk.IsZsk(w'.db.rows[i], z) && w'.db.rows[i].pair == k
        ensures Tied(w'.log, w'.db.rows[i], Longer(l, |w.log|))
      {
        assert Tied(q.log, q.db.rows[i], l);
      }
    }
  }

  lemma QuietKskLife(w: World, w': World, z: int, k: int)
    requires HasKskLife(w, z, k) && QuietKsks(w.db.rows, w'.db.rows, z) && SameTable(w, w') && w'.log == w.log
    ensures HasKskLife(w', z, k)
  {
    var l :| KskSuits(w, z, k, l);
    FreshSame(w, w', k);
    assert KskSuits(w', z, k, l) by {
      forall i | 0 <= i < |w'.db.rows| && Ksk.IsKsk(w'.db.rows[i], z) && w'.db.rows[i].pair == k
        ensures KskTied(w'.log, w'.db.rows[i], l)
      {
        assert SameKey(w.db.rows[i], w'.db.rows[i]);
        assert KskTied(w.log, w.db.rows[i], l);
      }
      if forall i :: 0 <= i < |w'.db.rows| && Ksk.IsKsk(w'.db.rows[i], z) ==> w'.db.rows[i].pair != k {
        assert forall i :: 0 <= i < |w.db.rows| ==> SameKey(w.db.rows[i], w'.db.rows[i]);
      }
    }
  }

  lemma OtherListKskLife(w: World, w': World, e: KeyList, z: int, k: int)
    requires HasKskLife(w, z, k) && QuietKsks(w.db.rows, w'.db.rows, z) && SameTable(w, w')
    requires w'.log == w.log + [e] && !About(e, z, KSK)
    ensures HasKskLife(w', z, k)
  {
    var q := w'.(log := w.log);
    QuietKskLife(w, q, z, k);
    var l :| KskSuits(q, z, k, l);
    KskOtherList(w.log, e, z, k, l);
    assert KskSuits(w', z, k, KskLonger(l, |w.log|)) by {
      assert Fresh(w', k) == Fresh(q, k);
      forall i | 0 <= i < |w'.db.rows| && Ksk.IsKsk(w'.db.rows[i], z) && w'.db.rows[i].pair == k
        ensures KskTied(w'.log, w'.db.rows[i], KskLonger(l, |w.log|))
      {
        assert KskTied(q.log, q.db.rows[i], l);
      }
    }
  }

  // ---- Signers through a step that issues no ZSK list for the zone ----

  lemma QuietSigner(w: World, w': World, z: int)
    requires SignerOk(w, z) && QuietZsks(w.db.rows, w'.db.rows, z)
    requires
      || w'.log == w.log
      || (|w'.log| == |w.log| + 1 && w'.log[..|w.log|] == w.log && !About(w'.log[|w.log|], z, ZSK))
    ensures SignerOk(w', z)
  {
    assert forall m :: 0 <= m < |w.log| ==> w'.log[m] == w.log[m] by {
      if w'.log != w.log {
        forall m | 0 <= m < |w.log|
          ensures w'.log[m] == w.log[m]
        {
          assert w'.log[..|w.log|][m] == w.log[m];
        }
      }
    }
    assert FirstList(w'.log, z, |w'.log|) == FirstList(w.log, z, |w.log|);
    assert forall i :: 0 <= i < |w.db.rows| ==> SameKey(w.db.rows[i], w'.db.rows[i]);
    if !FirstList(w.log, z, |w.log|) {
      var a :| Zsk.OneActive(w.db.rows, z, a);
      assert Zsk.OneActive(w'.db.rows, z, a);
    }
  }

  // ---- The update of the dates ----

  function Redated(w: World, c: Call): World {
    w.(db := WithDates(w.db, c), clock := c.now)
  }

  lemma UpdateQuiet(db: Db, c: Call, z: int)
    requires RowsOk(db.rows, db.pairs, c.now)
    ensures QuietZsks(db.rows, Updated(db, c.policy, c.zone), z)
    ensures QuietKsks(db.rows, Updated(db, c.policy, c.zone), z)
    ensures StandbyDated(Updated(db, c.policy, c.zone), c)
  {
  }

  /** Steps that change no key and issue no list keep all lives. */
  lemma QuietStep(w: World, w': World, z: int)
    requires Inv(w, z) && Good(w'.db, w'.clock) && IdsOk(w') && SameTable(w, w') && w'.log == w.log
    requires w.clock <= w'.clock
    requires QuietZsks(w.db.rows, w'.db.rows, z) && QuietKsks(w.db.rows, w'.db.rows, z)
    ensures Inv(w', z)
  {
    hide Good, SignerOk, HasLife, HasKskLife, QuietZsks, QuietKsks;
    QuietSigner(w, w', z);
    forall k
      ensures HasLife(w', z, k) && HasKskLife(w', z, k)
    {
      QuietLife(w, w', z, k);
      QuietKskLife(w, w', z, k);
    }
  }

  lemma UpdateStep(w: World, c: Call, z: int)
    requires Inv(w, z) && w.clock <= c.now
    ensures Inv(Redated(w, c), z)
    ensures Zsk.Dated(Redated(w, c).db.rows, c.zone, c.policy)
    ensures StandbyDated(Redated(w, c).db.rows, c)
  {
    hide Updated, RowsOk, HasLife, HasKskLife, SignerOk;
    var w' := Redated(w, c);
    GoodLater(w.db, w.clock, c.now);
    UpdatedOk(w.db, c.policy, c.zone, c.now);
    UpdatedRises(w.db, c.policy, c.zone);
    UnsharedRises(w.db.rows, w'.db.rows);
    Zsk.UpdatedDated(w.db, c.policy, c.zone, c.now);
    UpdateQuiet(w.db, c, z);
    forall k | Allocated(w.db.rows, k)
      ensures Allocated(w'.db.rows, k)
    {
      SameKeysAllocated(w.db.rows, w'.db.rows, k);
    }
    QuietStep(w, w', z);
  }

  /** The activation dates of published standby keys. */
  predicate StandbyDated(rows: seq<Row>, c: Call) {
    forall i :: 0 <= i < |rows| && Ksk.IsKsk(rows[i], c.zone) && rows[i].state == KeyPublish ==>
      rows[i].active == Later(rows[i].publish, PublicationInterval(c.policy))
  }

  // ---- A pass and its list ----

  function Passed(w: World, out: Pass, kind: KeyType, c: Call): World {
    w.(db := out.db, log := w.log + [ListOf(out.issued, kind, c)])
  }

  predicate OtherRowsSame(a: seq<Row>, b: seq<Row>, zone: int, kind: KeyType) {
    && SameKeys(a, b)
    && forall i :: 0 <= i < |a| && (a[i].zone != zone || a[i].kind != kind) ==> b[i] == a[i]
  }

  lemma QuietFromFrame(a: seq<Row>, b: seq<Row>, zone: int, kind: KeyType, z: int)
    requires OtherRowsSame(a, b, zone, kind)
    ensures zone != z || kind.KSK? ==> QuietZsks(a, b, z)
    ensures zone != z || kind.ZSK? ==> QuietKsks(a, b, z)
  {
  }

  /** Everything a pass keeps for a zone other than its own, and for the other key type. */
  lemma PassFrame(w: World, kind: KeyType, rollover: bool, c: Call, newDs: bool, z: int)
    requires Inv(w, z) && w.clock == c.now
    ensures var out := ByType(w.db, kind, rollover, c, newDs);
      var w' := Passed(w, out, kind, c);
      && Good(w'.db, c.now) && IdsOk(w') && SameTable(w, w') && Chronological(w')
      && OtherRowsSame(w.db.rows, w'.db.rows, c.zone, kind)
      && (c.zone != z || kind.KSK? ==> SignerOk(w', z) && forall k :: HasLife(w', z, k))
      && (c.zone != z || kind.ZSK? ==> forall k :: HasKskLife(w', z, k))
  {
    hide ByType, ListOf, Good;
    var out := ByType(w.db, kind, rollover, c, newDs);
    var w' := Passed(w, out, kind, c);
    var e := ListOf(out.issued, kind, c);
    ListAbout(out.issued, kind, c);
    ByTypeOk(w.db, kind, rollover, c, newDs);
    PassElsewhere(w.db, kind, rollover, c, newDs);
    assert OtherRowsSame(w.db.rows, w'.db.rows, c.zone, kind);
    PassIds(w, kind, rollover, c, newDs);
    QuietFromFrame(w.db.rows, w'.db.rows, c.zone, kind, z);
    if c.zone != z || kind.KSK? {
      QuietSigner(w, w', z);
      forall k
        ensures HasLife(w', z, k)
      {
        OtherListLife(w, w', e, z, k);
      }
    }
    if c.zone != z || kind.ZSK? {
      forall k
        ensures HasKskLife(w', z, k)
      {
        OtherListKskLife(w, w', e, z, k);
      }
    }
  }

  lemma PassPairs(db: Db, kind: KeyType, rollover: bool, c: Call, newDs: bool)
    ensures ByType(db, kind, rollover, c, newDs).db.pairs == (if rollover then Marked(db, kind, c) else db).pairs
  {
    hide Staged, Switched, StagedNewDs, Issue;
  }

  lemma SameKeysAllocated(a: seq<Row>, b: seq<Row>, k: int)
    requires SameKeys(a, b) && Allocated(a, k)
    ensures Allocated(b, k)
  {
    var i :| 0 <= i < |a| && a[i].pair == k;
    assert SameKey(a[i], b[i]);
  }

  lemma PassIds(w: World, kind: KeyType, rollover: bool, c: Call, newDs: bool)
    requires IdsOk(w)
    requires SameKeys(w.db.rows, ByType(w.db, kind, rollover, c, newDs).db.rows)
    ensures IdsOk(w.(db := ByType(w.db, kind, rollover, c, newDs).db))
  {
    hide ByType;
    var out := ByType(w.db, kind, rollover, c, newDs);
    PassPairs(w.db, kind, rollover, c, newDs);
    forall k | k in out.db.pairs
      ensures k < w.nextId
      ensures (Allocated(out.db.rows, k) || (!out.db.pairs[k].fixedDate && !out.db.pairs[k].compromised))
    {
      if Allocated(w.db.rows, k) {
        SameKeysAllocated(w.db.rows, out.db.rows, k);
      } else {
        assert k !in ActivePairs(w.db.rows, kind, c.zone);
      }
    }
  }

  lemma ListAbout(issued: seq<Row>, kind: KeyType, c: Call)
    ensures var e := ListOf(issued, kind, c);
      e.time == c.now && e.policy == c.policy && forall z, t :: About(e, z, t) <==> z == c.zone && t == kind
  {
  }

  // ---- The KSK pass ----

  lemma KskListLife(w: World, w': World, c: Call, k: int)
    requires Good(w.db, c.now) && IdsOk(w) && Unshared(w'.db.rows) && StandbyDated(w.db.rows, c)
    requires HasKskLife(w, c.zone, k) && SameTable(w, w') && SameKeys(w.db.rows, w'.db.rows)
    requires forall i :: 0 <= i < |w.db.rows| && Ksk.IsKsk(w.db.rows[i], c.zone) ==>
      Ksk.Evolves(w.db.rows[i], w'.db.rows[i], c.policy, c.now)
    requires w'.log == w.log + [ListOf(Issue(w'.db.rows, KSK, c.zone), KSK, c)]
    ensures HasKskLife(w', c.zone, k)
  {
    hide Issue, ListOf, KskLives, Ksk.Evolves, RowOk;
    var z := c.zone;
    var e := ListOf(Issue(w'.db.rows, KSK, c.zone), KSK, c);
    ListAbout(Issue(w'.db.rows, KSK, c.zone), KSK, c);
    var l :| KskSuits(w, z, k, l);
    FreshSame(w, w', k);
    if i :| 0 <= i < |w.db.rows| && Ksk.IsKsk(w.db.rows[i], z) && w.db.rows[i].pair == k {
      var r, t := w.db.rows[i], w'.db.rows[i];
      assert SameKey(r, t) && Allocated(w.db.rows, k);
      ListedByState(w'.db.rows, KSK, c, i);
      KskNextList(w.log, e, z, k, l, r, t, w.db.pairs[k]);
      AllocatedNotFresh(w, k);
      var l' := NextKskLife(l, |w.log|, t);
      assert KskSuits(w', z, k, l') by {
        assert forall j :: 0 <= j < |w'.db.rows| && w'.db.rows[j].pair == k ==> j == i;
      }
    } else {
      assert forall i :: 0 <= i < |w.db.rows| ==> SameKey(w.db.rows[i], w'.db.rows[i]);
      UnlistedKey(w'.db.rows, KSK, c, k);
      KskUnnamedList(w.log, e, z, k, l);
      assert KskSuits(w', z, k, KskLonger(l, |w.log|));
    }
  }

  /** A key with a row is not fresh. */
  lemma AllocatedNotFresh(w: World, k: int)
    requires IdsOk(w) && k in w.db.pairs && Allocated(w.db.rows, k)
    ensures !Fresh(w, k)
  {
  }

  lemma KskStep(w: World, rollover: bool, c: Call, newDs: bool, z: int)
    requires Inv(w, z) && w.clock == c.now && StandbyDated(w.db.rows, c)
    ensures var out := ByType(w.db, KSK, rollover, c, newDs);
      out.status == Ok && Inv(Passed(w, out, KSK, c), z)
  {
    hide ByType, ListOf, Issue, Ksk.Evolves;
    var out := ByType(w.db, KSK, rollover, c, newDs);
    var w' := Passed(w, out, KSK, c);
    PassFrame(w, KSK, rollover, c, newDs, z);
    Ksk.KskPass(w.db, rollover, c, newDs);
    if c.zone == z {
      IssuedByPass(w.db, KSK, rollover, c, newDs);
      forall k
        ensures HasKskLife(w', z, k)
      {
        KskListLife(w, w', c, k);
      }
    }
  }

  lemma IssuedByPass(db: Db, kind: KeyType, rollover: bool, c: Call, newDs: bool)
    requires ByType(db, kind, rollover, c, newDs).status == Ok
    ensures var out := ByType(db, kind, rollover, c, newDs);
      out.issued == Issue(out.db.rows, kind, c.zone)
  {
  }

  // ---- The ZSK pass ----

  lemma ZskListLife(w: World, w': World, c: Call, a: nat, k: int)
    requires Good(w.db, c.now) && IdsOk(w) && Unshared(w'.db.rows)
    requires Zsk.Dated(w.db.rows, c.zone, c.policy) && SignerOk(w, c.zone)
    requires HasLife(w, c.zone, k) && SameTable(w, w') && SameKeys(w.db.rows, w'.db.rows)
    requires Zsk.EvolvedAs(w.db.rows, w'.db.rows, c)
    requires Zsk.OneActive(w'.db.rows, c.zone, a)
    requires w.db.rows[a].state == Generate ==> Zsk.AllGenerated(w.db.rows, c.zone)
    requires w'.log == w.log + [ListOf(Issue(w'.db.rows, ZSK, c.zone), ZSK, c)]
    ensures HasLife(w', c.zone, k)
  {
    hide Issue, ListOf, Lives, Zsk.Evolves, RowOk, Zsk.DatedRow, NextLife, FirstList;
    var z := c.zone;
    var e := ListOf(Issue(w'.db.rows, ZSK, c.zone), ZSK, c);
    ListAbout(Issue(w'.db.rows, ZSK, c.zone), ZSK, c);
    var l :| Suits(w, z, k, l);
    FreshSame(w, w', k);
    if i :| 0 <= i < |w.db.rows| && Zsk.IsZsk(w.db.rows[i], z) && w.db.rows[i].pair == k {
      var r, t := w.db.rows[i], w'.db.rows[i];
      assert SameKey(r, t) && Allocated(w.db.rows, k);
      ListedByState(w'.db.rows, ZSK, c, i);
      if r.state == Generate && t.state == Active {
        assert i == a;
        GeneratedMeansFirst(w, z);
      }
      NextList(w.log, e, z, k, l, r, t, w.db.pairs[k]);
      AllocatedNotFresh(w, k);
      var l' := NextLife(l, |w.log|, t.state);
      assert Suits(w', z, k, l') by {
        assert forall j :: 0 <= j < |w'.db.rows| && w'.db.rows[j].pair == k ==> j == i;
      }
    } else {
      assert forall i :: 0 <= i < |w.db.rows| ==> SameKey(w.db.rows[i], w'.db.rows[i]);
      UnlistedKey(w'.db.rows, ZSK, c, k);
      UnnamedList(w.log, e, z, k, l);
      assert Suits(w', z, k, Longer(l, |w.log|));
    }
  }

  lemma GeneratedMeansFirst(w: World, z: int)
    requires SignerOk(w, z) && Zsk.AllGenerated(w.db.rows, z)
    ensures FirstList(w.log, z, |w.log|)
  {
  }

  /** The new list has exactly one signer. */
  lemma OneSigner(rows: seq<Row>, c: Call, a: nat)
    requires Unshared(rows) && Zsk.OneActive(rows, c.zone, a)
    ensures ListOf(Issue(rows, ZSK, c.zone), ZSK, c).signers == {rows[a].pair}
  {
    hide Issue, ListOf;
    forall k
      ensures k in ListOf(Issue(rows, ZSK, c.zone), ZSK, c).signers <==> k == rows[a].pair
    {
      ListMembers(rows, ZSK, c, k);
    }
  }

  lemma ZskSigner(w: World, w': World, c: Call, a: nat)
    requires SignerOk(w, c.zone) && Unshared(w'.db.rows) && Zsk.OneActive(w'.db.rows, c.zone, a)
    requires w'.log == w.log + [ListOf(Issue(w'.db.rows, ZSK, c.zone), ZSK, c)]
    ensures SignerOk(w', c.zone)
  {
    hide Issue, ListOf;
    var e := ListOf(Issue(w'.db.rows, ZSK, c.zone), ZSK, c);
    ListAbout(Issue(w'.db.rows, ZSK, c.zone), ZSK, c);
    OneSigner(w'.db.rows, c, a);
    assert |e.signers| == 1;
    assert w'.log[|w.log|] == e && About(e, c.zone, ZSK);
  }

  lemma ZskStep(w: World, rollover: bool, c: Call, newDs: bool, z: int)
    requires Inv(w, z) && w.clock == c.now && Zsk.Dated(w.db.rows, c.zone, c.policy)
    requires ByType(w.db, ZSK, rollover, c, newDs).status == Ok
    ensures Inv(Passed(w, ByType(w.db, ZSK, rollover, c, newDs), ZSK, c), z)
  {
    hide ByType, ListOf, Issue, Zsk.Evolves;
    var out := ByType(w.db, ZSK, rollover, c, newDs);
    var w' := Passed(w, out, ZSK, c);
    PassFrame(w, ZSK, rollover, c, newDs, z);
    if c.zone == z {
      var old': nat := 0;
      if !FirstList(w.log, z, |w.log|) {
        old' :| Zsk.OneActive(w.db.rows, z, old');
      }
      var a := Zsk.ZskPass(w.db, rollover, c, newDs, old');
      IssuedByPass(w.db, ZSK, rollover, c, newDs);
      ZskSigner(w, w', c, a);
      forall k
        ensures HasLife(w', z, k)
      {
        ZskListLife(w, w', c, a, k);
      }
    }
  }

  // ---- The whole request ----

  /** A pass issues keys of its own type only, so the lists of a joint request are those of its passes. */
  lemma {:induction false} IssuedKinds(rows: seq<Row>, kind: KeyType, zone: int)
    ensures forall r :: r in Issue(rows, kind, zone) ==> r.kind == kind
  {
    IssueMembers(rows, kind, zone);
  }

  lemma JointLists(a: seq<Row>, b: seq<Row>, c: Call)
    requires forall r :: r in a ==> r.kind == KSK
    requires forall r :: r in b ==> r.kind == ZSK
    ensures ListOf(a + b, KSK, c) == ListOf(a, KSK, c)
    ensures ListOf(a + b, ZSK, c) == ListOf(b, ZSK, c)
  {
  }

  lemma RequestStep(w: World, kinds: Kinds, rollover: bool, c: Call, newDs: bool, z: int)
    requires Inv(w, z) && w.clock <= c.now
    ensures Inv(Exec(w, KeyRequest(kinds, rollover, c, newDs)), z)
  {
    hide ByType, ListOf, WithDates, Inv;
    var w' := Exec(w, KeyRequest(kinds, rollover, c, newDs));
    var kind := if kinds.Both? then KSK else kinds.kind;
    UpdateStep(w, c, z);
    var w1 := Redated(w, c);
    var first := ByType(w1.db, kind, rollover, c, newDs);
    if Handled(w.db, kinds, rollover, c, newDs).status != Ok {
      LaterStep(w, c.now, z);
      return;
    }
    if kind.KSK? {
      KskStep(w1, rollover, c, newDs, z);
    } else {
      ZskStep(w1, rollover, c, newDs, z);
    }
    var w2 := Passed(w1, first, kind, c);
    if kinds.Only? {
      UpdateStep(w2, c, z);
      assert w' == Redated(w2, c);
    } else {
      var second := ByType(first.db, ZSK, rollover, c, first.newDs);
      DatedAfterKsk(w1, rollover, c, newDs, z);
      ZskStep(w2, rollover, c, first.newDs, z);
      var w3 := Passed(w2, second, ZSK, c);
      UpdateStep(w3, c, z);
      IssuedByPass(w1.db, KSK, rollover, c, newDs);
      IssuedByPass(first.db, ZSK, rollover, c, first.newDs);
      IssuedKinds(first.db.rows, KSK, c.zone);
      IssuedKinds(second.db.rows, ZSK, c.zone);
      JointLists(first.issued, second.issued, c);
      assert w'.log == w3.log;
      assert w' == Redated(w3, c);
    }
  }

  lemma DatedAfterKsk(w: World, rollover: bool, c: Call, newDs: bool, z: int)
    requires Inv(w, z) && w.clock == c.now && Zsk.Dated(w.db.rows, c.zone, c.policy)
    ensures Zsk.Dated(ByType(w.db, KSK, rollover, c, newDs).db.rows, c.zone, c.policy)
  {
    hide ByType;
    PassFrame(w, KSK, rollover, c, newDs, z);
  }

  lemma LaterStep(w: World, now: int, z: int)
    requires Inv(w, z) && w.clock <= now
    ensures Inv(w.(clock := now), z)
  {
    GoodLater(w.db, w.clock, now);
    QuietStep(w, w.(clock := now), z);
  }
}
