/** The key tables of the enforcer database and the conditions its queries put on them.
    `dnsseckeys` holds one row per (key pair, zone) allocation, `keypairs` one row per key pair.
    Times are integers (seconds), NULL is None, and every comparison with NULL is false. */
module Tables {

  datatype Option<+T> = None | Some(value: T)

  /** The date is set and has been reached. */
  predicate Due(date: Option<int>, now: int) {
    date.Some? && date.value <= now
  }

  datatype KeyType = KSK | ZSK

  datatype State =
    | Generate | Publish | Ready | Active | Retire | Dead
    | DsSub | DsPublish | DsReady | KeyPublish

  /** A row of `dnsseckeys`. */
  datatype Row = Row(
    pair: int, zone: int, kind: KeyType, state: State,
    publish: Option<int>, ready: Option<int>, active: Option<int>,
    retire: Option<int>, dead: Option<int>)

  /** A row of `keypairs`, without its id. */
  datatype KeyPair = KeyPair(
    policy: int, repository: int, size: int, algorithm: int,
    compromised: bool, fixedDate: bool,
    preBackup: Option<int>, backup: Option<int>)

  datatype RollScheme = DoubleDnskey | DoubleDs | DoubleRrset

  /** The parameter collection of a policy. */
  datatype Policy = Policy(
    zskTtl: nat, kskTtl: nat, dsTtl: nat,
    propDelay: nat, kskPropDelay: nat,
    pubSafety: nat, retSafety: nat,
    zskSigLife: nat, zskLife: nat, kskLife: nat,
    standbyZsks: nat, standbyKsks: nat,
    zskManual: bool, kskManual: bool, kskRoll: RollScheme)

  datatype Db = Db(pairs: map<int, KeyPair>, rows: seq<Row>)

  /** Every row's pair exists: the foreign key of `dnsseckeys`. */
  predicate Linked(db: Db) {
    forall i :: 0 <= i < |db.rows| ==> db.rows[i].pair in db.pairs
  }

  /** The pair (zone, key pair) occurs in at most one row. */
  predicate Unique(rows: seq<Row>) {
    forall i, j :: 0 <= i < |rows| && 0 <= j < |rows| && rows[i].pair == rows[j].pair && rows[i].zone == rows[j].zone
      ==> i == j
  }

  /** No key pair is shared between zones. */
  predicate Unshared(rows: seq<Row>) {
    forall i, j :: 0 <= i < |rows| && 0 <= j < |rows| && rows[i].pair == rows[j].pair ==> i == j
  }

  // ---- Dates ----

  /** The date column that belongs to entering state `dst`. */
  function EntryDate(r: Row, dst: State): Option<int> {
    match dst
    case Generate => None
    case Publish | DsSub | DsPublish | KeyPublish => r.publish
    case Ready | DsReady => r.ready
    case Active => r.active
    case Retire => r.retire
    case Dead => r.dead
  }

  /** Moves a row into `dst` and stamps the column of that state. */
  function Enter(r: Row, dst: State, now: int): Row {
    match dst
    case Generate => r.(state := dst)
    case Publish | DsSub | DsPublish | KeyPublish => r.(state := dst, publish := Some(now))
    case Ready | DsReady => r.(state := dst, ready := Some(now))
    case Active => r.(state := dst, active := Some(now))
    case Retire => r.(state := dst, retire := Some(now))
    case Dead => r.(state := dst, dead := Some(now))
  }

  // ---- WHERE clauses ----

  /** The conditions that the queries put on a row. */
  datatype Clause =
    | InStates(zone: int, kind: KeyType, states: set<State>)
    | DueFor(zone: int, kind: KeyType, src: State, dst: State, now: int)
    | RetiresBy(zone: int, kind: KeyType, limit: int)
    | ActiveAfter(zone: int, kind: KeyType, limit: int)

  predicate Matches(q: Clause, r: Row) {
    && r.zone == q.zone
    && r.kind == q.kind
    && match q
       case InStates(_, _, states) => r.state in states
       case DueFor(_, _, src, dst, now) => r.state == src && Due(EntryDate(r, dst), now)
       case RetiresBy(_, _, limit) => r.state == Active && Due(r.retire, limit)
       case ActiveAfter(_, _, limit) => r.state == Active && r.retire.Some? && r.retire.value > limit
  }

  /** The number of rows that a clause selects. */
  function Count(rows: seq<Row>, q: Clause): nat {
    if rows == [] then 0
    else Count(rows[..|rows| - 1], q) + if Matches(q, rows[|rows| - 1]) then 1 else 0
  }

  // ---- Counting ----

  lemma {:induction false} CountLe(a: seq<Row>, p: Clause, b: seq<Row>, q: Clause)
    requires |a| == |b|
    requires forall i :: 0 <= i < |a| && Matches(p, a[i]) ==> Matches(q, b[i])
    ensures Count(a, p) <= Count(b, q)
  {
    if a != [] {
      CountLe(a[..|a| - 1], p, b[..|b| - 1], q);
    }
  }

  lemma CountEq(a: seq<Row>, p: Clause, b: seq<Row>, q: Clause)
    requires |a| == |b|
    requires forall i :: 0 <= i < |a| ==> (Matches(p, a[i]) <==> Matches(q, b[i]))
    ensures Count(a, p) == Count(b, q)
  {
    CountLe(a, p, b, q);
    CountLe(b, q, a, p);
  }

  /** A count splits along the selected rows: what `q` selects is what `p` or `o` selects, exclusively. */
  lemma {:induction false} CountSplit(a: seq<Row>, q: Clause, b: seq<Row>, p: Clause, c: seq<Row>, o: Clause)
    requires |a| == |b| == |c|
    requires forall i :: 0 <= i < |a| ==> (Matches(q, a[i]) <==> Matches(p, b[i]) || Matches(o, c[i]))
    requires forall i :: 0 <= i < |a| ==> !(Matches(p, b[i]) && Matches(o, c[i]))
    ensures Count(a, q) == Count(b, p) + Count(c, o)
  {
    if a != [] {
      CountSplit(a[..|a| - 1], q, b[..|b| - 1], p, c[..|c| - 1], o);
    }
  }

  lemma {:induction false} CountPositive(rows: seq<Row>, q: Clause, i: nat)
    requires i < |rows| && Matches(q, rows[i])
    ensures Count(rows, q) > 0
  {
    if i < |rows| - 1 {
      CountPositive(rows[..|rows| - 1], q, i);
    }
  }

  lemma {:induction false} CountWitness(rows: seq<Row>, q: Clause) returns (i: nat)
    requires Count(rows, q) > 0
    ensures i < |rows| && Matches(q, rows[i]) && Count(rows[..i], q) == 0
  {
    var front := rows[..|rows| - 1];
    if Count(front, q) > 0 {
      i := CountWitness(front, q);
      assert front[..i] == rows[..i];
    } else {
      i := |rows| - 1;
    }
  }

  lemma {:induction false} CountNone(rows: seq<Row>, q: Clause)
    requires forall i :: 0 <= i < |rows| ==> !Matches(q, rows[i])
    ensures Count(rows, q) == 0
  {
    if rows != [] {
      CountNone(rows[..|rows| - 1], q);
    }
  }

  /** Exactly one row is selected: the count says so and nothing else. */
  lemma {:induction false} CountOne(rows: seq<Row>, q: Clause, i: nat)
    requires i < |rows| && Matches(q, rows[i])
    requires forall j :: 0 <= j < |rows| && j != i ==> !Matches(q, rows[j])
    ensures Count(rows, q) == 1
  {
    var front := rows[..|rows| - 1];
    if i == |rows| - 1 {
      CountNone(front, q);
    } else {
      CountOne(front, q, i);
    }
  }

  lemma {:induction false} CountPrefixLe(rows: seq<Row>, q: Clause, i: nat)
    requires i <= |rows|
    ensures Count(rows[..i], q) <= Count(rows, q)
  {
    if i == |rows| {
      assert rows[..i] == rows;
    } else {
      CountPrefixLe(rows[..|rows| - 1], q, i);
      assert rows[..|rows| - 1][..i] == rows[..i];
    }
  }

  /** Appending one row. */
  lemma CountAppend(rows: seq<Row>, r: Row, q: Clause)
    ensures Count(rows + [r], q) == Count(rows, q) + if Matches(q, r) then 1 else 0
  {
    assert (rows + [r])[..|rows|] == rows;
  }

  function Chosen(rows: seq<Row>, q: Clause): set<int> {
    set i | 0 <= i < |rows| && Matches(q, rows[i])
  }

  /** A set of indices with or without one more. */
  lemma SizeGrows(was: set<int>, all: set<int>, x: int, more: bool)
    requires x !in was && forall i :: i in all <==> i in was || (i == x && more)
    ensures |all| == |was| + if more then 1 else 0
  {
    var want := if more then was + {x} else was;
    assert forall i :: i in all <==> i in want;
    assert all == want;
  }

  /** The count is the number of indices that the clause selects. */
  lemma {:induction false} CountIsSize(rows: seq<Row>, q: Clause)
    ensures Count(rows, q) == |Chosen(rows, q)|
  {
    hide Matches;
    if rows != [] {
      var last, front := |rows| - 1, rows[..|rows| - 1];
      CountIsSize(front, q);
      SizeGrows(Chosen(front, q), Chosen(rows, q), last, Matches(q, rows[last]));
    }
  }

  /** What the counting queries count, column by column. */
  lemma CountsMean(rows: seq<Row>, zone: int, kind: KeyType, states: set<State>, limit: int)
    ensures Count(rows, InStates(zone, kind, states))
      == |set i | 0 <= i < |rows| && rows[i].zone == zone && rows[i].kind == kind && rows[i].state in states|
    ensures Count(rows, RetiresBy(zone, kind, limit))
      == |set i | 0 <= i < |rows| && rows[i].zone == zone && rows[i].kind == kind && rows[i].state == Active
                  && rows[i].retire.Some? && rows[i].retire.value <= limit|
    ensures Count(rows, ActiveAfter(zone, kind, limit))
      == |set i | 0 <= i < |rows| && rows[i].zone == zone && rows[i].kind == kind && rows[i].state == Active
                  && rows[i].retire.Some? && rows[i].retire.value > limit|
  {
    CountIsSize(rows, InStates(zone, kind, states));
    CountIsSize(rows, RetiresBy(zone, kind, limit));
    CountIsSize(rows, ActiveAfter(zone, kind, limit));
    assert Chosen(rows, InStates(zone, kind, states))
      == set i | 0 <= i < |rows| && rows[i].zone == zone && rows[i].kind == kind && rows[i].state in states;
    assert Chosen(rows, RetiresBy(zone, kind, limit))
      == set i | 0 <= i < |rows| && rows[i].zone == zone && rows[i].kind == kind && rows[i].state == Active
                 && rows[i].retire.Some? && rows[i].retire.value <= limit;
    assert Chosen(rows, ActiveAfter(zone, kind, limit))
      == set i | 0 <= i < |rows| && rows[i].zone == zone && rows[i].kind == kind && rows[i].state == Active
                 && rows[i].retire.Some? && rows[i].retire.value > limit;
  }
}
