/** Every event of a run keeps the invariant of every zone. */
module EventSteps {
  import opened Tables
  import opened Request
  import opened Moves
  import opened Invariant
  import opened Lifeline
  import opened Supply
  import opened Runs
  import opened RequestSteps
  import opened RollSteps
  import Zsk
  import Ksk
  import Backup

  // ---- Steps that leave the ZSK and KSK rows of every zone as they are, up to what lives look at ----

  lemma SameRowsQuiet(w: World, w': World, z: int)
    requires w'.db.rows == w.db.rows
    ensures QuietZsks(w.db.rows, w'.db.rows, z) && QuietKsks(w.db.rows, w'.db.rows, z)
  {
  }

  /** Changing only backup dates. */
  lemma BackupStep(w: World, pairs: map<int, KeyPair>, now: int, z: int)
    requires Inv(w, z) && w.clock <= now && pairs.Keys == w.db.pairs.Keys
    requires forall k :: k in pairs ==> pairs[k].compromised == w.db.pairs[k].compromised
    requires forall k :: k in pairs ==> pairs[k].fixedDate == w.db.pairs[k].fixedDate
    ensures Inv(w.(clock := now, db := w.db.(pairs := pairs)), z)
  {
    var w' := w.(clock := now, db := w.db.(pairs := pairs));
    GoodLater(w.db, w.clock, now);
    SameRowsQuiet(w, w', z);
    QuietStep(w, w', z);
  }

  // ---- Creation and allocation ----

  lemma CreateStep(w: World, s: Spec, z: int)
    requires Inv(w, z)
    ensures Inv(Exec(w, Create(s)), z)
  {
    var w' := Exec(w, Create(s));
    SameRowsQuiet(w, w', z);
    QuietSigner(w, w', z);
    assert forall i :: 0 <= i < |w.db.rows| ==> w.db.rows[i].pair != w.nextId;
    forall k
      ensures HasLife(w', z, k) && HasKskLife(w', z, k)
    {
      assert Fresh(w', k) ==> Fresh(w, k);
      assert HasLife(w, z, k) && HasKskLife(w, z, k);
      var l :| Suits(w, z, k, l);
      assert Suits(w', z, k, l);
      var m :| KskSuits(w, z, k, m);
      assert KskSuits(w', z, k, m);
    }
  }

  lemma AllocatedAppend(rows: seq<Row>, r: Row, k: int)
    ensures Allocated(rows + [r], k) <==> Allocated(rows, k) || r.pair == k
  {
    if Allocated(rows, k) {
      var i :| 0 <= i < |rows| && rows[i].pair == k;
      assert (rows + [r])[i].pair == k;
    }
    assert (rows + [r])[|rows|] == r;
  }

  lemma AllocateLife(w: World, w': World, r: Row, z: int, k: int)
    requires HasLife(w, z, k) && w'.db.rows == w.db.rows + [r] && w'.log == w.log && SameTable(w, w')
    requires r.state == Generate && Fresh(w, r.pair)
    ensures HasLife(w', z, k)
  {
    hide Lives, Allocated;
    AllocatedAppend(w.db.rows, r, k);
    var l :| Suits(w, z, k, l);
    assert forall i :: 0 <= i < |w.db.rows| ==> w'.db.rows[i] == w.db.rows[i];
    assert Suits(w', z, k, l);
  }

  lemma AllocateKskLife(w: World, w': World, r: Row, z: int, k: int)
    requires HasKskLife(w, z, k) && w'.db.rows == w.db.rows + [r] && w'.log == w.log && SameTable(w, w')
    requires r.state == Generate && Fresh(w, r.pair)
    ensures HasKskLife(w', z, k)
  {
    hide KskLives, Allocated;
    AllocatedAppend(w.db.rows, r, k);
    var l :| KskSuits(w, z, k, l);
    assert forall i :: 0 <= i < |w.db.rows| ==> w'.db.rows[i] == w.db.rows[i];
    assert KskSuits(w', z, k, l);
  }

  lemma AllocateSigner(w: World, w': World, r: Row, z: int)
    requires SignerOk(w, z) && w'.db.rows == w.db.rows + [r] && w'.log == w.log && r.state == Generate
    ensures SignerOk(w', z)
  {
    assert forall i :: 0 <= i < |w.db.rows| ==> w'.db.rows[i] == w.db.rows[i];
    if !FirstList(w.log, z, |w.log|) {
      var a :| Zsk.OneActive(w.db.rows, z, a);
      assert Zsk.OneActive(w'.db.rows, z, a);
    }
  }

  lemma AllocateGood(db: Db, r: Row, clock: int)
    requires Good(db, clock) && r == NewRow(r.pair, r.zone, r.kind)
    requires r.pair in db.pairs && !Allocated(db.rows, r.pair)
    requires !db.pairs[r.pair].fixedDate && !db.pairs[r.pair].compromised
    ensures Good(db.(rows := db.rows + [r]), clock)
  {
    assert forall i :: 0 <= i < |db.rows| ==> (db.rows + [r])[i] == db.rows[i];
  }

  lemma AllocateStep(w: World, zone: int, kind: KeyType, id: int, z: int)
    requires Inv(w, z) && id in w.db.pairs && !Allocated(w.db.rows, id)
    ensures Inv(Exec(w, Allocate(zone, kind, id)), z)
  {
    hide Good, SignerOk, HasLife, HasKskLife;
    var w' := Exec(w, Allocate(zone, kind, id));
    var r := NewRow(id, zone, kind);
    AllocateGood(w.db, r, w.clock);
    AllocateSigner(w, w', r, z);
    forall k
      ensures Allocated(w'.db.rows, k) <==> Allocated(w.db.rows, k) || r.pair == k
    {
      AllocatedAppend(w.db.rows, r, k);
    }
    forall k
      ensures HasLife(w', z, k) && HasKskLife(w', z, k)
    {
      AllocateLife(w, w', r, z, k);
      AllocateKskLife(w, w', r, z, k);
    }
  }

  // ---- Operator commands on KSKs ----

  /** What the operator commands do to a KSK row. */
  predicate Commanded(r: Row, s: Row) {
    && SameKey(r, s)
    && (s == r || (r.kind.KSK? && (r.state, s.state) in {(Ready, Active), (DsSub, DsPublish), (Active, Retire)}))
  }

  lemma CommandedKskLife(w: World, w': World, z: int, k: int)
    requires HasKskLife(w, z, k) && SameTable(w, w') && w'.log == w.log && |w'.db.rows| == |w.db.rows|
    requires forall i :: 0 <= i < |w.db.rows| ==> Commanded(w.db.rows[i], w'.db.rows[i])
    ensures HasKskLife(w', z, k)
  {
    hide KskLives;
    var l :| KskSuits(w, z, k, l);
    assert SameKeys(w.db.rows, w'.db.rows);
    FreshSame(w, w', k);
    assert KskSuits(w', z, k, l) by {
      assert KskOrdered(l, |w.log|) by { KskLivesOrdered(w.log, z, k, l); }
      forall i | 0 <= i < |w'.db.rows| && Ksk.IsKsk(w'.db.rows[i], z) && w'.db.rows[i].pair == k
        ensures KskTied(w'.log, w'.db.rows[i], l)
      {
        assert Commanded(w.db.rows[i], w'.db.rows[i]);
        assert KskTied(w.log, w.db.rows[i], l);
      }
      if forall i :: 0 <= i < |w'.db.rows| && Ksk.IsKsk(w'.db.rows[i], z) ==> w'.db.rows[i].pair != k {
        assert forall i :: 0 <= i < |w.db.rows| ==> Commanded(w.db.rows[i], w'.db.rows[i]);
      }
    }
  }

  lemma KskLivesOrdered(log: seq<KeyList>, z: int, k: int, l: KskLife)
    requires KskLives(log, z, k, l)
    ensures KskOrdered(l, |log|)
  {
  }

  lemma CommandStep(w: World, w': World, z: int)
    requires Inv(w, z) && Good(w'.db, w'.clock) && w'.db.pairs == w.db.pairs && w'.nextId == w.nextId && w'.log == w.log
    requires w'.rushed == w.rushed && w.clock <= w'.clock
    requires |w'.db.rows| == |w.db.rows|
    requires forall i :: 0 <= i < |w.db.rows| ==> Commanded(w.db.rows[i], w'.db.rows[i])
    ensures Inv(w', z)
  {
    hide Good, SignerOk, HasLife, HasKskLife;
    assert SameKeys(w.db.rows, w'.db.rows);
    assert QuietZsks(w.db.rows, w'.db.rows, z);
    QuietSigner(w, w', z);
    forall k | Allocated(w.db.rows, k)
      ensures Allocated(w'.db.rows, k)
    {
      SameKeysAllocated(w.db.rows, w'.db.rows, k);
    }
    forall k
      ensures HasLife(w', z, k) && HasKskLife(w', z, k)
    {
      QuietLife(w, w', z, k);
      CommandedKskLife(w, w', z, k);
    }
  }

  lemma SeenGood(w: World, zone: int, id: int, now: int, p: Policy, z: int)
    requires Inv(w, z) && Enabled(w, DsSeen(zone, id, now, p))
    ensures Good(Exec(w, DsSeen(zone, id, now, p)).db, now)
  {
    hide SignerOk, HasLife, HasKskLife;
    GoodLater(w.db, w.clock, now);
  }

  lemma RetiredGood(w: World, zone: int, id: int, now: int, p: Policy, z: int)
    requires Inv(w, z) && Enabled(w, RetireOld(zone, id, now, p))
    ensures Good(Exec(w, RetireOld(zone, id, now, p)).db, now)
  {
    hide SignerOk, HasLife, HasKskLife;
    GoodLater(w.db, w.clock, now);
  }

  lemma DsSeenStep(w: World, zone: int, id: int, now: int, p: Policy, z: int)
    requires Inv(w, z) && Enabled(w, DsSeen(zone, id, now, p))
    ensures Inv(Exec(w, DsSeen(zone, id, now, p)), z)
  {
    hide Inv;
    SeenGood(w, zone, id, now, p, z);
    CommandStep(w, Exec(w, DsSeen(zone, id, now, p)), z);
  }

  lemma RetireOldStep(w: World, zone: int, id: int, now: int, p: Policy, z: int)
    requires Inv(w, z) && Enabled(w, RetireOld(zone, id, now, p))
    ensures Inv(Exec(w, RetireOld(zone, id, now, p)), z)
  {
    hide Inv;
    RetiredGood(w, zone, id, now, p, z);
    CommandStep(w, Exec(w, RetireOld(zone, id, now, p)), z);
  }

  // ---- Purge ----

  /** A purged table: the rows left over are rows of before; whatever went was dead. */
  ghost predicate Reduced(a: Db, b: Db, gone: set<int>) {
    && b.pairs == a.pairs - gone
    && (forall r :: r in b.rows <==> r in a.rows && r.pair !in gone)
    && (forall r :: r in a.rows && r.pair in gone ==> r.state == Dead)
    && (forall k :: k in gone ==> exists r :: r in a.rows && r.pair == k)
    && Unshared(b.rows)
  }

  lemma PurgeReduces(db: Db, owner: Option<int>, limit: int)
    requires Unshared(db.rows)
    ensures Reduced(db, Purged(db, owner, limit), PurgeSet(db, owner, limit))
  {
    var gone := PurgeSet(db, owner, limit);
    WithoutMembers(db.rows, gone);
    WithoutUnshared(db.rows, gone);
    forall k | k in gone
      ensures exists r :: r in db.rows && r.pair == k
    {
      var i :| 0 <= i < |db.rows| && db.rows[i].pair == k && db.rows[i].state == Dead;
      assert db.rows[i] in db.rows;
    }
    forall r | r in db.rows && r.pair in gone
      ensures r.state == Dead
    {
      var i :| 0 <= i < |db.rows| && db.rows[i] == r;
      assert !Blocks(db.rows[i], limit);
    }
  }

  lemma ReducedAllocated(a: Db, b: Db, gone: set<int>, k: int)
    requires Reduced(a, b, gone)
    ensures Allocated(b.rows, k) <==> Allocated(a.rows, k) && k !in gone
  {
    if Allocated(b.rows, k) {
      var i :| 0 <= i < |b.rows| && b.rows[i].pair == k;
      assert b.rows[i] in b.rows;
      var j :| 0 <= j < |a.rows| && a.rows[j] == b.rows[i];
    }
    if Allocated(a.rows, k) && k !in gone {
      var i :| 0 <= i < |a.rows| && a.rows[i].pair == k;
      assert a.rows[i] in b.rows;
      var j :| 0 <= j < |b.rows| && b.rows[j] == a.rows[i];
    }
  }

  lemma ReducedGood(a: Db, b: Db, gone: set<int>, clock: int)
    requires Good(a, clock) && Reduced(a, b, gone)
    ensures Good(b, clock)
  {
    forall i | 0 <= i < |b.rows|
      ensures b.rows[i].pair in b.pairs && RowOk(b.rows[i], b.pairs[b.rows[i].pair], clock)
    {
      assert b.rows[i] in b.rows;
      var j :| 0 <= j < |a.rows| && a.rows[j] == b.rows[i];
    }
  }

  lemma ReducedSigner(w: World, w': World, gone: set<int>, z: int)
    requires SignerOk(w, z) && Unshared(w.db.rows) && Reduced(w.db, w'.db, gone) && w'.log == w.log
    ensures SignerOk(w', z)
  {
    if FirstList(w.log, z, |w.log|) {
      forall i | 0 <= i < |w'.db.rows| && Zsk.IsZsk(w'.db.rows[i], z)
        ensures w'.db.rows[i].state == Generate
      {
        assert w'.db.rows[i] in w'.db.rows;
        var j :| 0 <= j < |w.db.rows| && w.db.rows[j] == w'.db.rows[i];
      }
    } else {
      var a: nat :| Zsk.OneActive(w.db.rows, z, a);
      assert w.db.rows[a] in w.db.rows;
      assert w.db.rows[a] in w'.db.rows;
      var b :| 0 <= b < |w'.db.rows| && w'.db.rows[b] == w.db.rows[a];
      forall i | 0 <= i < |w'.db.rows| && i != b
        ensures !Zsk.Signs(w'.db.rows[i], z)
      {
        assert w'.db.rows[i] in w'.db.rows;
        var j :| 0 <= j < |w.db.rows| && w.db.rows[j] == w'.db.rows[i];
      }
      assert Zsk.OneActive(w'.db.rows, z, b);
    }
  }

  lemma ReducedFresh(w: World, w': World, gone: set<int>, k: int)
    requires Reduced(w.db, w'.db, gone) && w'.nextId == w.nextId
    ensures Fresh(w', k) ==> Fresh(w, k)
  {
    ReducedAllocated(w.db, w'.db, gone, k);
  }

  lemma ReducedLife(w: World, w': World, gone: set<int>, z: int, k: int)
    requires HasLife(w, z, k) && Reduced(w.db, w'.db, gone) && w'.log == w.log && w'.nextId == w.nextId
    ensures HasLife(w', z, k)
  {
    hide Lives;
    var l :| Suits(w, z, k, l);
    ReducedFresh(w, w', gone, k);
    assert Suits(w', z, k, l) by {
      assert Ordered(l, |w.log|) by { LivesOrdered(w.log, z, k, l); }
      forall i | 0 <= i < |w'.db.rows| && Zsk.IsZsk(w'.db.rows[i], z) && w'.db.rows[i].pair == k
        ensures Tied(w'.log, w'.db.rows[i], l)
      {
        assert w'.db.rows[i] in w'.db.rows;
        var j :| 0 <= j < |w.db.rows| && w.db.rows[j] == w'.db.rows[i];
      }
      if forall i :: 0 <= i < |w'.db.rows| && Zsk.IsZsk(w'.db.rows[i], z) ==> w'.db.rows[i].pair != k {
        if i :| 0 <= i < |w.db.rows| && Zsk.IsZsk(w.db.rows[i], z) && w.db.rows[i].pair == k {
          GoneRow(w.db, w'.db, gone, i);
        }
      }
    }
  }

  lemma LivesOrdered(log: seq<KeyList>, z: int, k: int, l: Life)
    requires Lives(log, z, k, l)
    ensures Ordered(l, |log|)
  {
  }

  lemma GoneRow(a: Db, b: Db, gone: set<int>, i: nat)
    requires Reduced(a, b, gone) && i < |a.rows|
    requires forall j :: 0 <= j < |b.rows| ==> b.rows[j] != a.rows[i]
    ensures a.rows[i].state == Dead
  {
    assert a.rows[i] in a.rows;
  }

  lemma ReducedKskLife(w: World, w': World, gone: set<int>, z: int, k: int)
    requires HasKskLife(w, z, k) && Reduced(w.db, w'.db, gone) && w'.log == w.log && w'.nextId == w.nextId
    requires w'.rushed == w.rushed
    ensures HasKskLife(w', z, k)
  {
    hide KskLives;
    var l :| KskSuits(w, z, k, l);
    ReducedFresh(w, w', gone, k);
    assert KskSuits(w', z, k, l) by {
      assert KskOrdered(l, |w.log|) by { KskLivesOrdered(w.log, z, k, l); }
      forall i | 0 <= i < |w'.db.rows| && Ksk.IsKsk(w'.db.rows[i], z) && w'.db.rows[i].pair == k
        ensures KskTied(w'.log, w'.db.rows[i], l)
      {
        assert w'.db.rows[i] in w'.db.rows;
        var j :| 0 <= j < |w.db.rows| && w.db.rows[j] == w'.db.rows[i];
      }
      if forall i :: 0 <= i < |w'.db.rows| && Ksk.IsKsk(w'.db.rows[i], z) ==> w'.db.rows[i].pair != k {
        if i :| 0 <= i < |w.db.rows| && Ksk.IsKsk(w.db.rows[i], z) && w.db.rows[i].pair == k {
          GoneRow(w.db, w'.db, gone, i);
        }
      }
    }
  }

  lemma PurgeStep(w: World, owner: Option<int>, limit: int, z: int)
    requires Inv(w, z)
    ensures Inv(Exec(w, Purge(owner, limit)), z)
  {
    hide Purged, SignerOk, HasLife, HasKskLife;
    var w' := Exec(w, Purge(owner, limit));
    var gone := PurgeSet(w.db, owner, limit);
    PurgeReduces(w.db, owner, limit);
    ReducedGood(w.db, w'.db, gone, w.clock);
    ReducedSigner(w, w', gone, z);
    forall k
      ensures HasLife(w', z, k) && HasKskLife(w', z, k)
      ensures Allocated(w'.db.rows, k) <==> Allocated(w.db.rows, k) && k !in gone
    {
      ReducedAllocated(w.db, w'.db, gone, k);
      ReducedLife(w, w', gone, z, k);
      ReducedKskLife(w, w', gone, z, k);
    }
  }

  // ---- Every run ----

  lemma StepInv(w: World, e: Event, z: int)
    requires Inv(w, z) && Enabled(w, e)
    ensures Inv(Exec(w, e), z)
  {
    hide Inv, Handled, Purged;
    match e
    case KeyRequest(kinds, rollover, c, newDs) => RequestStep(w, kinds, rollover, c, newDs, z);
    case Create(s) => CreateStep(w, s, z);
    case Allocate(zone, kind, id) => AllocateStep(w, zone, kind, id, z);
    case DsSeen(zone, id, now, p) => DsSeenStep(w, zone, id, now, p, z);
    case RetireOld(zone, id, now, p) => RetireOldStep(w, zone, id, now, p, z);
    case Roll(targets, now, loose) => RollStep(w, targets, now, loose, z);
    case Prepare(scope, now) => BackupStep(w, Backup.Prepared(w.db.pairs, scope, now), now, z);
    case Rollback(scope) => BackupStep(w, Backup.RolledBack(w.db.pairs, scope), w.clock, z);
    case Commit(scope, now) => BackupStep(w, Backup.Committed(w.db.pairs, scope, now), now, z);
    case Purge(owner, limit) => PurgeStep(w, owner, limit, z);
  }

  lemma {:induction false} RunInv(ws: seq<World>, es: seq<Event>, z: int, n: nat)
    requires Run(ws, es) && Initial(ws[0], z) && n < |ws|
    ensures Inv(ws[n], z)
  {
    hide Inv, Exec, Enabled, Initial;
    if n == 0 {
      InitialInv(ws[0], z);
    } else {
      RunInv(ws, es, z, n - 1);
      StepInv(ws[n - 1], es[n - 1], z);
    }
  }
}
