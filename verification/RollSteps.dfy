/** The roll command keeps the invariant of every zone. */
module RollSteps {
  import opened Tables
  import opened Moves
  import opened Invariant
  import opened Lifeline
  import opened Supply
  import opened KeyRoll
  import opened Runs
  import opened RequestSteps
  import Zsk
  import Ksk

  /** What the command may do to a row of an unshared pair: date an active one it selected, promote a standby
      one. */
  predicate RolledRow(r: Row, s: Row, now: int, ids: set<int>) {
    || s == r
    || (r.state == Active && r.pair in ids && s == r.(retire := Some(now)))
    || (r.state == DsReady && s == r.(state := KeyPublish))
  }

  /** And to a pair: flag a selected one, whose active row is then dated. */
  predicate RolledPair(a: Db, b: Db, k: int, now: int, ids: set<int>) {
    && (k in a.pairs <==> k in b.pairs)
    && (k in a.pairs ==>
          || b.pairs[k] == a.pairs[k]
          || (k in ids && b.pairs[k] == a.pairs[k].(fixedDate := true, compromised := true) && Dated(b.rows, k, now)))
  }

  predicate Dated(rows: seq<Row>, k: int, now: int) {
    exists i :: 0 <= i < |rows| && rows[i].pair == k && rows[i].state == Active && rows[i].retire == Some(now)
  }

  ghost predicate Rolled(a: Db, b: Db, now: int, ids: set<int>) {
    && |a.rows| == |b.rows|
    && (forall i :: 0 <= i < |a.rows| ==> RolledRow(a.rows[i], b.rows[i], now, ids))
    && (forall k :: RolledPair(a, b, k, now, ids))
  }

  lemma RolledTrans(a: Db, b: Db, c: Db, now: int, ids: set<int>)
    requires Rolled(a, b, now, ids) && Rolled(b, c, now, ids)
    ensures Rolled(a, c, now, ids)
  {
    forall i | 0 <= i < |a.rows|
      ensures RolledRow(a.rows[i], c.rows[i], now, ids)
    {
      assert RolledRow(a.rows[i], b.rows[i], now, ids) && RolledRow(b.rows[i], c.rows[i], now, ids);
    }
    forall k
      ensures RolledPair(a, c, k, now, ids)
    {
      assert RolledPair(a, b, k, now, ids) && RolledPair(b, c, k, now, ids);
      if Dated(b.rows, k, now) {
        var i :| 0 <= i < |b.rows| && b.rows[i].pair == k && b.rows[i].state == Active && b.rows[i].retire == Some(now);
        assert RolledRow(b.rows[i], c.rows[i], now, ids);
        assert Dated(c.rows, k, now);
      }
    }
  }

  /** The pair has an active row. */
  predicate HasActive(rows: seq<Row>, k: int) {
    exists i :: 0 <= i < |rows| && rows[i].pair == k && rows[i].state == Active
  }

  lemma ActiveStays(a: Db, b: Db, k: int, now: int, ids: set<int>)
    requires Rolled(a, b, now, ids) && HasActive(a.rows, k)
    ensures HasActive(b.rows, k)
  {
    var i :| 0 <= i < |a.rows| && a.rows[i].pair == k && a.rows[i].state == Active;
    assert RolledRow(a.rows[i], b.rows[i], now, ids);
  }

  lemma UnsharedRolled(a: Db, b: Db, now: int, ids: set<int>)
    requires Unshared(a.rows) && Rolled(a, b, now, ids)
    ensures Unshared(b.rows)
  {
    assert forall i :: 0 <= i < |a.rows| ==> RolledRow(a.rows[i], b.rows[i], now, ids);
  }

  lemma MarkedPairRolls(db: Db, k: int, now: int, ids: set<int>)
    requires Unshared(db.rows) && HasActive(db.rows, k) && k in ids
    ensures Rolled(db, MarkedPair(db, k, now), now, ids)
    ensures Marks(MarkedPair(db, k, now), k, now)
  {
    var b := MarkedPair(db, k, now);
    var i :| 0 <= i < |db.rows| && db.rows[i].pair == k && db.rows[i].state == Active;
    assert b.rows[i].pair == k && b.rows[i].state == Active && b.rows[i].retire == Some(now);
    assert Dated(b.rows, k, now);
    forall j | 0 <= j < |db.rows|
      ensures RolledRow(db.rows[j], b.rows[j], now, ids)
    {
    }
    forall j
      ensures RolledPair(db, b, j, now, ids)
    {
    }
  }

  lemma PromotedRolls(db: Db, g: Guard, loose: set<int>, now: int, ids: set<int>)
    ensures Rolled(db, db.(rows := Promoted(db.rows, g, loose)), now, ids)
  {
    var b := db.(rows := Promoted(db.rows, g, loose));
    forall j
      ensures RolledPair(db, b, j, now, ids)
    {
    }
  }

  /** The pair is flagged, if it exists, and its active row dated. */
  predicate Marks(db: Db, k: int, now: int) {
    (k in db.pairs ==> db.pairs[k].fixedDate && db.pairs[k].compromised) && Dated(db.rows, k, now)
  }

  lemma MarkStays(a: Db, b: Db, k: int, now: int, ids: set<int>)
    requires Rolled(a, b, now, ids) && Marks(a, k, now)
    ensures Marks(b, k, now)
  {
    assert RolledPair(a, b, k, now, ids);
    var i :| 0 <= i < |a.rows| && a.rows[i].pair == k && a.rows[i].state == Active && a.rows[i].retire == Some(now);
    assert RolledRow(a.rows[i], b.rows[i], now, ids);
    assert Dated(b.rows, k, now);
  }

  lemma OneRolls(db: Db, g: Guard, key: Row, policy: Option<int>, now: int, loose: set<int>, ids: set<int>)
    requires Unshared(db.rows) && HasActive(db.rows, key.pair) && key.pair in ids
    ensures Rolled(db, RolledOne(db, g, key, policy, now, loose).0, now, ids)
    ensures Marks(RolledOne(db, g, key, policy, now, loose).0, key.pair, now)
  {
    hide MarkedPair, Rolled, Promoted, Extended, Marks;
    var marked := MarkedPair(db, key.pair, now);
    MarkedPairRolls(db, key.pair, now, ids);
    var more := Extended(g, marked, key.pair, policy, now);
    PromotedRolls(marked, more, loose, now, ids);
    if key.kind.KSK? {
      var promoted := marked.(rows := Promoted(marked.rows, more, loose));
      RolledTrans(db, marked, promoted, now, ids);
      MarkStays(marked, promoted, key.pair, now, ids);
    }
  }

  lemma {:induction false} AllRolls(db: Db, keys: seq<Row>, policy: Option<int>, now: int, loose: set<int>,
      ids: set<int>)
    requires Unshared(db.rows) && forall i :: 0 <= i < |keys| ==>
        HasActive(db.rows, keys[i].pair) && keys[i].pair in ids
    ensures Rolled(db, RolledAll(db, keys, policy, now, loose).0, now, ids)
    ensures forall i :: 0 <= i < |keys| ==> Marks(RolledAll(db, keys, policy, now, loose).0, keys[i].pair, now)
  {
    hide Rolled, HasActive, RolledOne, Marks;
    if keys == [] {
      RolledSelf(db, now, ids);
    } else {
      var front, key := keys[..|keys| - 1], keys[|keys| - 1];
      AllRolls(db, front, policy, now, loose, ids);
      var (before, g) := RolledAll(db, front, policy, now, loose);
      UnsharedRolled(db, before, now, ids);
      ActiveStays(db, before, key.pair, now, ids);
      OneRolls(before, g, key, policy, now, loose, ids);
      var after := RolledOne(before, g, key, policy, now, loose).0;
      RolledTrans(db, before, after, now, ids);
      forall i | 0 <= i < |front|
        ensures Marks(after, keys[i].pair, now)
      {
        assert front[i] == keys[i];
        MarkStays(before, after, keys[i].pair, now, ids);
      }
    }
  }

  lemma RolledSelf(db: Db, now: int, ids: set<int>)
    ensures Rolled(db, db, now, ids)
  {
    forall k
      ensures RolledPair(db, db, k, now, ids)
    {
    }
  }

  /** The pairs that the command selects. */
  function Targets(db: Db, s: RollScope): set<int> {
    set i | 0 <= i < |db.rows| && Selects(db, s, db.rows[i]) :: db.rows[i].pair
  }

  /** The whole command: it dates and flags exactly the selected keys, and promotes standby keys. */
  lemma KeyRolledRolls(db: Db, s: RollScope, now: int, loose: set<int>)
    requires Unshared(db.rows)
    ensures Rolled(db, KeyRolled(db, s, now, loose), now, Targets(db, s))
    ensures forall k :: k in Targets(db, s) ==> Marks(KeyRolled(db, s, now, loose), k, now)
  {
    hide Rolled, Marks;
    var keys := Selection(db, s, db.rows);
    SelectionMembers(db, s, db.rows);
    forall i | 0 <= i < |keys|
      ensures HasActive(db.rows, keys[i].pair) && keys[i].pair in Targets(db, s)
    {
      assert keys[i] in keys;
      var j :| 0 <= j < |db.rows| && db.rows[j] == keys[i];
    }
    AllRolls(db, keys, s.policy, now, loose, Targets(db, s));
    forall k | k in Targets(db, s)
      ensures Marks(KeyRolled(db, s, now, loose), k, now)
    {
      var j :| 0 <= j < |db.rows| && Selects(db, s, db.rows[j]) && db.rows[j].pair == k;
      assert db.rows[j] in keys;
      var i :| 0 <= i < |keys| && keys[i] == db.rows[j];
      assert Marks(KeyRolled(db, s, now, loose), keys[i].pair, now);
    }
  }

  // ---- The invariant ----

  lemma RolledGood(a: Db, b: Db, now: int, ids: set<int>)
    requires Good(a, now) && Rolled(a, b, now, ids)
    ensures Good(b, now)
  {
    UnsharedRolled(a, b, now, ids);
    forall i | 0 <= i < |b.rows|
      ensures b.rows[i].pair in b.pairs && RowOk(b.rows[i], b.pairs[b.rows[i].pair], now)
    {
      var k := a.rows[i].pair;
      assert RolledRow(a.rows[i], b.rows[i], now, ids) && RolledPair(a, b, k, now, ids);
      if b.pairs[k] != a.pairs[k] {
        var j :| 0 <= j < |b.rows| && b.rows[j].pair == k && b.rows[j].state == Active && b.rows[j].retire == Some(now);
        assert j == i;
      }
    }
  }

  lemma RolledIds(w: World, b: Db, now: int, ids: set<int>)
    requires IdsOk(w) && Rolled(w.db, b, now, ids)
    ensures IdsOk(w.(db := b))
  {
    forall k | k in b.pairs
      ensures k < w.nextId && (Allocated(b.rows, k) || (!b.pairs[k].fixedDate && !b.pairs[k].compromised))
    {
      assert RolledPair(w.db, b, k, now, ids);
      if Allocated(w.db.rows, k) {
        var i :| 0 <= i < |w.db.rows| && w.db.rows[i].pair == k;
        assert RolledRow(w.db.rows[i], b.rows[i], now, ids);
        assert Allocated(b.rows, k);
      } else if b.pairs[k] != w.db.pairs[k] {
        var i :| 0 <= i < |b.rows| && b.rows[i].pair == k && b.rows[i].state == Active && b.rows[i].retire == Some(now);
        assert Allocated(b.rows, k);
      }
    }
  }

  lemma RolledQuiet(a: Db, b: Db, now: int, ids: set<int>, z: int)
    requires Good(a, now) && Rolled(a, b, now, ids)
    ensures QuietZsks(a.rows, b.rows, z)
  {
    forall i | 0 <= i < |a.rows|
      ensures SameKey(a.rows[i], b.rows[i])
      ensures Zsk.IsZsk(a.rows[i], z) ==>
        && a.rows[i].state == b.rows[i].state && a.rows[i].publish == b.rows[i].publish
        && (a.rows[i].state == Retire ==> a.rows[i].retire == b.rows[i].retire)
    {
      assert RolledRow(a.rows[i], b.rows[i], now, ids);
    }
  }

  lemma RolledKeys(a: Db, b: Db, now: int, ids: set<int>)
    requires Rolled(a, b, now, ids)
    ensures b.pairs.Keys == a.pairs.Keys && SameKeys(a.rows, b.rows)
  {
    forall k
      ensures k in b.pairs <==> k in a.pairs
    {
      assert RolledPair(a, b, k, now, ids);
    }
    assert b.pairs.Keys == a.pairs.Keys;
    assert forall i :: 0 <= i < |a.rows| ==> RolledRow(a.rows[i], b.rows[i], now, ids);
  }

  /** A promoted key has not been listed; its publication date is from then on what it waits from. */
  lemma RolledKskLife(w: World, w': World, now: int, ids: set<int>, z: int, k: int)
    requires HasKskLife(w, z, k) && Good(w.db, now) && Rolled(w.db, w'.db, now, ids) && w'.log == w.log
    requires w'.nextId == w.nextId
    requires w'.rushed == w.rushed + Hurried(w.db.rows, w'.db.rows)
    ensures HasKskLife(w', z, k)
  {
    hide Rolled, Hurried;
    RolledKeys(w.db, w'.db, now, ids);
    FreshAfterRoll(w, w', k);
    var a, b := w.db.rows, w'.db.rows;
    if i :| 0 <= i < |a| && Ksk.IsKsk(a[i], z) && a[i].pair == k && b[i].state != a[i].state {
      PromotedLife(w, w', now, ids, z, i);
    } else {
      UnpromotedLife(w, w', now, ids, z, k);
    }
  }

  lemma PromotedLife(w: World, w': World, now: int, ids: set<int>, z: int, i: nat)
    requires i < |w.db.rows| && Ksk.IsKsk(w.db.rows[i], z) && HasKskLife(w, z, w.db.rows[i].pair)
    requires Good(w.db, now) && Rolled(w.db, w'.db, now, ids) && SameKeys(w.db.rows, w'.db.rows) && w'.log == w.log
    requires w'.db.rows[i].state != w.db.rows[i].state && Fresh(w, w.db.rows[i].pair) == Fresh(w', w.db.rows[i].pair)
    requires w'.rushed == w.rushed + Hurried(w.db.rows, w'.db.rows)
    ensures HasKskLife(w', z, w.db.rows[i].pair)
  {
    hide KskLives, Rolled, RowsOk, Fresh;
    var r := w.db.rows[i];
    var k := r.pair;
    var l :| KskSuits(w, z, k, l);
    RolledAt(w.db, w'.db, now, ids, i);
    LifeOrdered(w.log, z, k, l);
    assert KskTied(w.log, r, l);
    PublishSet(w.db, now, i);
    var m := l.(seen := r.publish.value, rushed := true);
    RushedLives(w.log, z, k, l, r.publish.value);
    UniqueRow(w.db, w'.db, i);
    assert SameKey(r, w'.db.rows[i]);
    assert k in Hurried(w.db.rows, w'.db.rows);
    assert KskOrdered(m, |w.log|);
    assert KskSuits(w', z, k, m);
  }

  lemma UnpromotedLife(w: World, w': World, now: int, ids: set<int>, z: int, k: int)
    requires HasKskLife(w, z, k) && Rolled(w.db, w'.db, now, ids) && SameKeys(w.db.rows, w'.db.rows) && w'.log == w.log
    requires forall i :: 0 <= i < |w.db.rows| && Ksk.IsKsk(w.db.rows[i], z) && w.db.rows[i].pair == k ==>
      w'.db.rows[i].state == w.db.rows[i].state
    requires Fresh(w, k) == Fresh(w', k) && w.rushed <= w'.rushed
    ensures HasKskLife(w', z, k)
  {
    hide KskLives, Rolled, Fresh;
    var l :| KskSuits(w, z, k, l);
    LifeOrdered(w.log, z, k, l);
    forall i | 0 <= i < |w'.db.rows| && Ksk.IsKsk(w'.db.rows[i], z) && w'.db.rows[i].pair == k
      ensures KskTied(w'.log, w'.db.rows[i], l)
    {
      assert SameKey(w.db.rows[i], w'.db.rows[i]);
      RolledAt(w.db, w'.db, now, ids, i);
      assert KskTied(w.log, w.db.rows[i], l);
    }
    assert forall i :: 0 <= i < |w.db.rows| ==> SameKey(w.db.rows[i], w'.db.rows[i]);
    assert KskSuits(w', z, k, l);
  }

  lemma RolledAt(a: Db, b: Db, now: int, ids: set<int>, i: nat)
    requires Rolled(a, b, now, ids) && i < |a.rows|
    ensures |b.rows| == |a.rows| && RolledRow(a.rows[i], b.rows[i], now, ids)
  {
  }

  lemma RolledPairAt(a: Db, b: Db, now: int, ids: set<int>, k: int)
    requires Rolled(a, b, now, ids)
    ensures RolledPair(a, b, k, now, ids)
  {
  }

  lemma PublishSet(db: Db, now: int, i: nat)
    requires Good(db, now) && i < |db.rows| && db.rows[i].state == DsReady
    ensures db.rows[i].publish.Some?
  {
  }

  lemma UniqueRow(a: Db, b: Db, i: nat)
    requires Unshared(a.rows) && SameKeys(a.rows, b.rows) && i < |a.rows|
    ensures forall j :: 0 <= j < |b.rows| && b.rows[j].pair == a.rows[i].pair ==> j == i
  {
    assert forall j :: 0 <= j < |b.rows| ==> SameKey(a.rows[j], b.rows[j]);
  }

  lemma LifeOrdered(log: seq<KeyList>, z: int, k: int, l: KskLife)
    requires KskLives(log, z, k, l)
    ensures KskOrdered(l, |log|)
  {
  }

  lemma RushedLives(log: seq<KeyList>, z: int, k: int, l: KskLife, seen: int)
    requires KskLives(log, z, k, l) && l.p == |log|
    ensures KskLives(log, z, k, l.(seen := seen, rushed := true))
  {
  }

  lemma FreshAfterRoll(w: World, w': World, k: int)
    requires SameKeys(w.db.rows, w'.db.rows) && w'.nextId == w.nextId && w'.db.pairs.Keys == w.db.pairs.Keys
    ensures Fresh(w, k) <==> Fresh(w', k)
  {
    FreshSame(w, w', k);
  }

  lemma RollStep(w: World, s: RollScope, now: int, loose: set<int>, z: int)
    requires Inv(w, z) && w.clock <= now
    ensures Inv(Exec(w, Roll(s, now, loose)), z)
  {
    hide KeyRolled, Good, Rolled, SignerOk, HasLife, HasKskLife, Hurried;
    var w' := Exec(w, Roll(s, now, loose));
    GoodLater(w.db, w.clock, now);
    GoodUnshared(w.db, now);
    var ids := Targets(w.db, s);
    KeyRolledRolls(w.db, s, now, loose);
    RolledGood(w.db, w'.db, now, ids);
    RolledIds(w, w'.db, now, ids);
    RolledQuiet(w.db, w'.db, now, ids, z);
    RolledKeys(w.db, w'.db, now, ids);
    QuietSigner(w, w', z);
    var q := w'.(rushed := w.rushed);
    forall k
      ensures HasLife(w', z, k) && HasKskLife(w', z, k)
    {
      QuietLife(w, q, z, k);
      SameLife(q, w', z, k);
      RolledKskLife(w, w', now, ids, z, k);
    }
  }

  lemma GoodUnshared(db: Db, now: int)
    requires Good(db, now)
    ensures Unshared(db.rows)
  {
  }

  lemma SameLife(q: World, w: World, z: int, k: int)
    requires HasLife(q, z, k) && w == q.(rushed := w.rushed)
    ensures HasLife(w, z, k)
  {
    var l :| Suits(q, z, k, l);
    assert Fresh(w, k) == Fresh(q, k);
    assert Suits(w, z, k, l);
  }
}
