/** The stock of key pairs: how many lines of the joined tables are still good at a horizon, and how many pairs. */
module Stock {
  import opened Tables
  import opened Supply

  // ---- Keys still good at a horizon ----

  /** A row of the pair in use or in the queue that does not retire before the limit. */
  predicate GoodRow(pairs: map<int, KeyPair>, r: Row, s: Spec, limit: int) {
    r.pair in pairs && Fits(pairs[r.pair], s) && r.state in QUEUED && (r.retire.Some? ==> r.retire.value > limit)
  }

  function GoodRows(pairs: map<int, KeyPair>, rows: seq<Row>, s: Spec, limit: int): nat {
    if rows == [] then 0
    else GoodRows(pairs, rows[..|rows| - 1], s, limit) + if GoodRow(pairs, rows[|rows| - 1], s, limit) then 1 else 0
  }

  /** The pairs that no zone has. */
  function Free(db: Db, s: Spec): set<int> {
    set k | k in db.pairs && Fits(db.pairs[k], s) && !Allocated(db.rows, k)
  }

  /** `KsmKeyCountStillGood` on the outer join of pairs and rows: a pair without a row counts once. */
  function StillGood(db: Db, s: Spec, limit: int): nat {
    |Free(db, s)| + GoodRows(db.pairs, db.rows, s, limit)
  }

  function GoodIndices(pairs: map<int, KeyPair>, rows: seq<Row>, s: Spec, limit: int): set<int> {
    set i | 0 <= i < |rows| && GoodRow(pairs, rows[i], s, limit)
  }

  lemma {:induction false} GoodRowsAreIndices(pairs: map<int, KeyPair>, rows: seq<Row>, s: Spec, limit: int)
    ensures GoodRows(pairs, rows, s, limit) == |GoodIndices(pairs, rows, s, limit)|
  {
    hide GoodRow;
    if rows != [] {
      var last, front := |rows| - 1, rows[..|rows| - 1];
      GoodRowsAreIndices(pairs, front, s, limit);
      SizeGrows(GoodIndices(pairs, front, s, limit), GoodIndices(pairs, rows, s, limit), last,
                GoodRow(pairs, rows[last], s, limit));
    }
  }

  /** What the query counts: the pairs of the policy, repository, size and algorithm that no zone has been given, and
      the rows of such pairs from generate to active or in the standby states that do not retire by the limit. */
  lemma StillGoodMeans(db: Db, s: Spec, limit: int)
    ensures
      var free := set k | k in db.pairs && db.pairs[k].policy == s.policy && db.pairs[k].repository == s.repository
                          && db.pairs[k].size == s.size && db.pairs[k].algorithm == s.algorithm
                          && forall i :: 0 <= i < |db.rows| ==> db.rows[i].pair != k;
      var used := set i | 0 <= i < |db.rows| && db.rows[i].pair in db.pairs
                          && db.pairs[db.rows[i].pair].policy == s.policy
                          && db.pairs[db.rows[i].pair].repository == s.repository
                          && db.pairs[db.rows[i].pair].size == s.size
                          && db.pairs[db.rows[i].pair].algorithm == s.algorithm
                          && db.rows[i].state in {Generate, Publish, Ready, Active, DsSub, DsPublish, DsReady}
                          && (db.rows[i].retire == None || db.rows[i].retire.value > limit);
      StillGood(db, s, limit) == |free| + |used|
  {
    GoodRowsAreIndices(db.pairs, db.rows, s, limit);
    assert GoodIndices(db.pairs, db.rows, s, limit)
      == set i | 0 <= i < |db.rows| && db.rows[i].pair in db.pairs
                 && db.pairs[db.rows[i].pair].policy == s.policy
                 && db.pairs[db.rows[i].pair].repository == s.repository
                 && db.pairs[db.rows[i].pair].size == s.size && db.pairs[db.rows[i].pair].algorithm == s.algorithm
                 && db.rows[i].state in {Generate, Publish, Ready, Active, DsSub, DsPublish, DsReady}
                 && (db.rows[i].retire == None || db.rows[i].retire.value > limit);
    assert Free(db, s)
      == set k | k in db.pairs && db.pairs[k].policy == s.policy && db.pairs[k].repository == s.repository
                 && db.pairs[k].size == s.size && db.pairs[k].algorithm == s.algorithm
                 && forall i :: 0 <= i < |db.rows| ==> db.rows[i].pair != k;
  }

  lemma {:induction false} GoodRowsSame(pairs: map<int, KeyPair>, more: map<int, KeyPair>, rows: seq<Row>,
      s: Spec, limit: int)
    requires forall i :: 0 <= i < |rows| ==>
        rows[i].pair in pairs && rows[i].pair in more && more[rows[i].pair] == pairs[rows[i].pair]
    ensures GoodRows(more, rows, s, limit) == GoodRows(pairs, rows, s, limit)
  {
    if rows != [] {
      GoodRowsSame(pairs, more, rows[..|rows| - 1], s, limit);
    }
  }

  /** A new pair is one more good key of its own kind and of no other. */
  lemma StillGoodAdd(db: Db, id: int, s: Spec)
    requires Linked(db) && id !in db.pairs
    ensures forall t, limit ::
      StillGood(db.(pairs := db.pairs[id := NewPair(s)]), t, limit) == StillGood(db, t, limit) + if t == s then 1 else 0
  {
    var more := db.pairs[id := NewPair(s)];
    forall t, limit
      ensures StillGood(db.(pairs := more), t, limit) == StillGood(db, t, limit) + if t == s then 1 else 0
    {
      GoodRowsSame(db.pairs, more, db.rows, t, limit);
      var was := Free(db, t);
      assert Fits(NewPair(s), t) <==> s == t;
      assert Free(db.(pairs := more), t) == if t == s then was + {id} else was;
    }
  }

  // ---- Pairs ----

  predicate GoodPair(db: Db, s: Spec, limit: int, k: int) {
    && k in db.pairs && Fits(db.pairs[k], s)
    && (Allocated(db.rows, k) ==>
          exists i :: 0 <= i < |db.rows| && db.rows[i].pair == k && GoodRow(db.pairs, db.rows[i], s, limit))
  }

  /** The pairs that no zone has yet, or that are still good in some zone. */
  function GoodPairs(db: Db, s: Spec, limit: int): set<int> {
    set k | k in db.pairs && GoodPair(db, s, limit, k)
  }

  lemma GoodPairsAdd(db: Db, id: int, s: Spec)
    requires Linked(db) && id !in db.pairs
    ensures forall t, limit ::
      |GoodPairs(db.(pairs := db.pairs[id := NewPair(s)]), t, limit)|
        == |GoodPairs(db, t, limit)| + if t == s then 1 else 0
  {
    var more := db.(pairs := db.pairs[id := NewPair(s)]);
    forall t, limit
      ensures |GoodPairs(more, t, limit)| == |GoodPairs(db, t, limit)| + if t == s then 1 else 0
    {
      var was := GoodPairs(db, t, limit);
      forall k
        ensures k in GoodPairs(more, t, limit) <==> k in if t == s then was + {id} else was
      {
        NewGoodPair(db, id, s, t, limit, k);
      }
      assert GoodPairs(more, t, limit) == if t == s then was + {id} else was;
    }
  }

  lemma NewGoodPair(db: Db, id: int, s: Spec, t: Spec, limit: int, k: int)
    requires Linked(db) && id !in db.pairs
    ensures var more := db.(pairs := db.pairs[id := NewPair(s)]);
      GoodPair(more, t, limit, k) <==> if k == id then t == s else GoodPair(db, t, limit, k)
  {
    assert Fits(NewPair(s), t) <==> s == t;
  }

  // ---- Lines and pairs ----

  /** The zones in which pairs of the kind have rows. */
  function ZonesOf(db: Db, s: Spec): set<int> {
    set i | 0 <= i < |db.rows| && db.rows[i].pair in db.pairs && Fits(db.pairs[db.rows[i].pair], s) :: db.rows[i].zone
  }

  lemma ZonesOfAdd(db: Db, id: int, s: Spec, t: Spec)
    requires Linked(db) && id !in db.pairs
    ensures ZonesOf(db.(pairs := db.pairs[id := NewPair(s)]), t) == ZonesOf(db, t)
  {
    var more := db.(pairs := db.pairs[id := NewPair(s)]);
    assert forall z :: z in ZonesOf(more, t) <==> z in ZonesOf(db, t);
  }

  /** The (pair, zone) keys of the good rows among the first n. */
  function GoodKeys(db: Db, s: Spec, limit: int, n: nat): set<(int, int)>
    requires n <= |db.rows|
  {
    set i | 0 <= i < n && GoodRow(db.pairs, db.rows[i], s, limit) :: (db.rows[i].pair, db.rows[i].zone)
  }

  /** Since (zone, pair) is unique, each good row has its own key. */
  lemma {:induction false} GoodRowsAreKeys(db: Db, s: Spec, limit: int, n: nat)
    requires Unique(db.rows) && n <= |db.rows|
    ensures GoodRows(db.pairs, db.rows[..n], s, limit) == |GoodKeys(db, s, limit, n)|
  {
    hide GoodRow;
    if n == 0 {
      assert forall x :: x !in GoodKeys(db, s, limit, 0);
      NoKeys(GoodKeys(db, s, limit, 0));
    } else {
      var last := n - 1;
      GoodRowsAreKeys(db, s, limit, last);
      assert db.rows[..n][..last] == db.rows[..last];
      var was, keys := GoodKeys(db, s, limit, last), GoodKeys(db, s, limit, n);
      var key := (db.rows[last].pair, db.rows[last].zone);
      if GoodRow(db.pairs, db.rows[last], s, limit) {
        assert key !in was;
        assert forall x :: x in keys <==> x in was + {key};
        assert keys == was + {key};
      } else {
        assert forall x :: x in keys <==> x in was;
        assert keys == was;
      }
    }
  }

  lemma NoKeys(s: set<(int, int)>)
    requires forall x :: x !in s
    ensures |s| == 0
  {
    var none: set<(int, int)> := {};
    assert forall x :: x in s <==> x in none;
    assert s == none;
  }

  function Grid(a: set<int>, b: set<int>): set<(int, int)> {
    set x, y | x in a && y in b :: (x, y)
  }

  lemma {:induction false} RowSize(x: int, b: set<int>)
    ensures |Grid({x}, b)| == |b|
    decreases |b|
  {
    if |b| == 0 {
      assert forall p :: p !in Grid({x}, b);
      NoKeys(Grid({x}, b));
    } else {
      var y := Any(b);
      var rest := b - {y};
      RowSize(x, rest);
      assert forall p :: p in Grid({x}, b) <==> p in Grid({x}, rest) + {(x, y)};
      assert Grid({x}, b) == Grid({x}, rest) + {(x, y)};
    }
  }

  lemma Any(s: set<int>) returns (x: int)
    requires |s| != 0
    ensures x in s
  {
    if forall y :: y !in s {
      EmptySet(s);
    }
    x :| x in s;
  }

  lemma EmptySet(s: set<int>)
    requires forall y :: y !in s
    ensures |s| == 0
  {
    var none: set<int> := {};
    assert forall y :: y in s <==> y in none;
    assert s == none;
  }

  lemma {:induction false} GridSize(a: set<int>, b: set<int>)
    ensures |Grid(a, b)| == |a| * |b|
    decreases |a|
  {
    if |a| == 0 {
      assert forall p :: p !in Grid(a, b);
      NoKeys(Grid(a, b));
    } else {
      var x := Any(a);
      var rest := a - {x};
      GridSize(rest, b);
      RowSize(x, b);
      assert forall p :: p in Grid(a, b) <==> p in Grid(rest, b) + Grid({x}, b);
      assert Grid(a, b) == Grid(rest, b) + Grid({x}, b);
      assert forall p :: p !in Grid(rest, b) * Grid({x}, b);
      NoKeys(Grid(rest, b) * Grid({x}, b));
      assert |a| == |rest| + 1;
      assert (|rest| + 1) * |b| == |rest| * |b| + |b|;
    }
  }

  lemma Smaller(s: set<(int, int)>, t: set<(int, int)>)
    requires forall x :: x in s ==> x in t
    ensures |s| <= |t|
  {
    assert forall x :: x in t <==> x in s + (t - s);
    assert t == s + (t - s);
  }

  /** The good pairs that some zone has. */
  function Used(db: Db, s: Spec, limit: int): set<int> {
    GoodPairs(db, s, limit) - Free(db, s)
  }

  lemma SplitPairs(db: Db, s: Spec, limit: int)
    ensures |GoodPairs(db, s, limit)| == |Free(db, s)| + |Used(db, s, limit)|
  {
    hide GoodRow;
    assert forall k :: k in GoodPairs(db, s, limit) <==> k in Free(db, s) + Used(db, s, limit);
    assert GoodPairs(db, s, limit) == Free(db, s) + Used(db, s, limit);
  }

  lemma KeysInGrid(db: Db, s: Spec, limit: int)
    ensures |GoodKeys(db, s, limit, |db.rows|)| <= |Used(db, s, limit)| * |ZonesOf(db, s)|
  {
    hide GoodRow, GoodPair, Fits;
    var keys, grid := GoodKeys(db, s, limit, |db.rows|), Grid(Used(db, s, limit), ZonesOf(db, s));
    forall x | x in keys
      ensures x in grid
    {
      var i :| 0 <= i < |db.rows| && GoodRow(db.pairs, db.rows[i], s, limit) && x == (db.rows[i].pair, db.rows[i].zone);
      GoodRowFits(db, s, limit, i);
    }
    Smaller(keys, grid);
    GridSize(Used(db, s, limit), ZonesOf(db, s));
  }

  /** A pair has at most one line for each zone: so there are at least a zones-th as many good pairs as good lines. */
  lemma PairsCoverLines(db: Db, s: Spec, limit: int, zones: nat)
    requires Unique(db.rows) && zones > 0 && |ZonesOf(db, s)| <= zones
    ensures StillGood(db, s, limit) / zones <= |GoodPairs(db, s, limit)|
  {
    hide GoodRows, GoodKeys, GoodPairs, ZonesOf, Used;
    GoodRowsAreKeys(db, s, limit, |db.rows|);
    assert db.rows[..|db.rows|] == db.rows;
    KeysInGrid(db, s, limit);
    SplitPairs(db, s, limit);
    var lines := GoodRows(db.pairs, db.rows, s, limit);
    assert StillGood(db, s, limit) == |Free(db, s)| + lines;
    CoverArithmetic(|Free(db, s)|, |Used(db, s, limit)|, |ZonesOf(db, s)|, lines, zones);
  }

  lemma GoodRowFits(db: Db, s: Spec, limit: int, i: nat)
    requires i < |db.rows| && GoodRow(db.pairs, db.rows[i], s, limit)
    ensures GoodPair(db, s, limit, db.rows[i].pair) && Allocated(db.rows, db.rows[i].pair)
    ensures db.rows[i].zone in ZonesOf(db, s)
  {
  }

  lemma CoverArithmetic(free: nat, used: nat, width: nat, lines: nat, zones: nat)
    requires zones > 0 && width <= zones && lines <= used * width
    ensures (free + lines) / zones <= free + used
  {
    TimesLe(width, zones, used);
    TimesLe(1, zones, free);
    Spread(free, used, zones);
    QuotientLe(free + lines, zones, free + used);
  }

  lemma TimesLe(a: nat, b: nat, k: nat)
    requires a <= b
    ensures k * a <= k * b
  {
  }

  lemma Spread(a: nat, b: nat, k: nat)
    ensures (a + b) * k == a * k + b * k
  {
  }

  lemma QuotientLe(n: nat, z: nat, m: nat)
    requires z > 0 && n <= m * z
    ensures n / z <= m
  {
    var q := n / z;
    assert n == q * z + n % z;
    if q > m {
      TimesLe(m + 1, q, z);
      Spread(m, 1, z);
    }
  }
}
