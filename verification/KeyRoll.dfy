/** The operator's roll command. It marks the active keys it selects, and for each KSK among them it promotes the
    standby keys of the zones concerned from dsready to keypublish, without stamping a publication date.
    The two lists of zones that guard the promotion are texts to which every further KSK appends. The second list
    goes on without a comma, and so does the first when the second got nothing, so that two ids run into one. */
module KeyRoll {
  import opened Tables
  import Duration

  /** The zone or policy whose keys are rolled, and the key type; None stands for all. */
  datatype RollScope = RollScope(zone: Option<int>, policy: Option<int>, kind: Option<KeyType>)

  /** The zone lists as they read, and the counter that decides about the comma. */
  datatype Guard = Guard(wanted: seq<int>, barred: seq<int>, count: nat)

  const EMPTY: Guard := Guard([], [], 0)

  predicate OfPolicy(db: Db, r: Row, policy: Option<int>) {
    policy.Some? ==> r.pair in db.pairs && db.pairs[r.pair].policy == policy.value
  }

  predicate Selects(db: Db, s: RollScope, r: Row) {
    && r.state == Active && OfPolicy(db, r, s.policy)
    && (s.zone.Some? ==> r.zone == s.zone.value) && (s.kind.Some? ==> r.kind == s.kind.value)
  }

  /** The selected rows, in table order. */
  function Selection(db: Db, s: RollScope, rows: seq<Row>): seq<Row> {
    if rows == [] then []
    else
      var last := rows[|rows| - 1];
      Selection(db, s, rows[..|rows| - 1]) + if Selects(db, s, last) then [last] else []
  }

  // ---- Marking ----

  function MarkedRow(r: Row, id: int, now: int): Row {
    if r.pair != id then r
    else if r.state == Active then r.(retire := Some(now))
    else r.(state := Dead, dead := Some(now))
  }

  /** The pair is flagged; its active rows get the retire date, its other rows are dead. */
  function MarkedPair(db: Db, id: int, now: int): Db {
    Db(map k | k in db.pairs :: if k == id then db.pairs[k].(fixedDate := true, compromised := true) else db.pairs[k],
       seq(|db.rows|, i requires 0 <= i < |db.rows| => MarkedRow(db.rows[i], id, now)))
  }

  // ---- The guard ----

  function PowerOfTen(n: nat): nat {
    if n < 10 then 10 else 10 * PowerOfTen(n / 10)
  }

  /** What two row ids printed without a gap read as. Row ids are positive. */
  function RunTogether(a: int, b: int): int {
    if b < 0 then a + b else a * PowerOfTen(b) + b
  }

  function Appended(list: seq<int>, zone: int, comma: bool): seq<int> {
    if comma || list == [] then list + [zone] else list[..|list| - 1] + [RunTogether(list[|list| - 1], zone)]
  }

  /** A list to which zones are appended, the counter at `count`. */
  function AppendedAll(list: seq<int>, zones: seq<int>, count: nat): seq<int>
    decreases |zones|
  {
    if zones == [] then list else AppendedAll(Appended(list, zones[0], count != 0), zones[1..], count + 1)
  }

  /** The zones in which the pair was marked now. */
  function RetiringZones(rows: seq<Row>, id: int, now: int): seq<int> {
    if rows == [] then []
    else
      var last := rows[|rows| - 1];
      RetiringZones(rows[..|rows| - 1], id, now)
        + if last.pair == id && last.retire == Some(now) then [last.zone] else []
  }

  /** The zones of the policy that have a KSK in publish or ready. Without a policy the query asks for policy -1. */
  function ServedZones(db: Db, policy: Option<int>, rows: seq<Row>): seq<int> {
    if rows == [] || policy.None? then []
    else
      var last := rows[|rows| - 1];
      ServedZones(db, policy, rows[..|rows| - 1])
        + if last.kind.KSK? && last.state in {Publish, Ready} && OfPolicy(db, last, policy) then [last.zone] else []
  }

  function Extended(g: Guard, db: Db, id: int, policy: Option<int>, now: int): Guard {
    var served := ServedZones(db, policy, db.rows);
    Guard(AppendedAll(g.wanted, RetiringZones(db.rows, id, now), g.count), AppendedAll(g.barred, served, 0), |served|)
  }

  /** Whether the statement lets a zone through. A list that was never written is a NULL pointer that is printed
      into the statement; `loose` is what it then lets through, nothing where NULL prints as "(null)". */
  predicate Lets(g: Guard, loose: set<int>, zone: int) {
    zone in g.wanted && if g.barred == [] then zone in loose else zone !in g.barred
  }

  function Promoted(rows: seq<Row>, g: Guard, loose: set<int>): (r: seq<Row>)
    ensures |r| == |rows|
  {
    seq(|rows|, i requires 0 <= i < |rows| =>
      if rows[i].state == DsReady && Lets(g, loose, rows[i].zone) then rows[i].(state := KeyPublish) else rows[i])
  }

  // ---- The command ----

  /** What the loop does for one selected row. */
  function RolledOne(db: Db, g: Guard, key: Row, policy: Option<int>, now: int, loose: set<int>): (Db, Guard) {
    var marked := MarkedPair(db, key.pair, now);
    if key.kind.ZSK? then (marked, g)
    else
      var more := Extended(g, marked, key.pair, policy, now);
      (marked.(rows := Promoted(marked.rows, more, loose)), more)
  }

  function RolledAll(db: Db, keys: seq<Row>, policy: Option<int>, now: int, loose: set<int>): (Db, Guard) {
    if keys == [] then (db, EMPTY)
    else
      var (before, g) := RolledAll(db, keys[..|keys| - 1], policy, now, loose);
      RolledOne(before, g, keys[|keys| - 1], policy, now, loose)
  }

  /** `keyRoll`. */
  function KeyRolled(db: Db, s: RollScope, now: int, loose: set<int>): Db {
    RolledAll(db, Selection(db, s, db.rows), s.policy, now, loose).0
  }

  /** Of the pairs only the two flags change. */
  lemma {:induction false} RollKeepsPairs(db: Db, keys: seq<Row>, policy: Option<int>, now: int, loose: set<int>)
    ensures var after := RolledAll(db, keys, policy, now, loose).0.pairs;
      && (forall k :: k in after <==> k in db.pairs)
      && forall k :: k in db.pairs ==>
           after[k] == db.pairs[k].(fixedDate := after[k].fixedDate, compromised := after[k].compromised)
  {
    hide Promoted, Extended;
    if keys != [] {
      RollKeepsPairs(db, keys[..|keys| - 1], policy, now, loose);
    }
  }

  /** The keys that went to keypublish. */
  function Hurried(a: seq<Row>, b: seq<Row>): set<int> {
    set i | 0 <= i < |a| && i < |b| && a[i].state == DsReady && b[i].state == KeyPublish :: a[i].pair
  }

  // ---- What is rolled ----

  lemma {:induction false} SelectionMembers(db: Db, s: RollScope, rows: seq<Row>)
    ensures forall r :: r in Selection(db, s, rows) <==> r in rows && Selects(db, s, r)
  {
    if rows != [] {
      SelectionMembers(db, s, rows[..|rows| - 1]);
      assert rows == rows[..|rows| - 1] + [rows[|rows| - 1]];
    }
  }

  /** The pair has an active row in the named zone, of the named policy and of the named type. */
  predicate Named(db: Db, s: RollScope, k: int) {
    exists j :: 0 <= j < |db.rows| && db.rows[j].pair == k && db.rows[j].state == Active
                && (s.zone == None || s.zone == Some(db.rows[j].zone))
                && (s.kind == None || s.kind == Some(db.rows[j].kind))
                && (s.policy == None || (k in db.pairs && s.policy == Some(db.pairs[k].policy)))
  }

  /** What a row becomes: dated or dead if its pair is rolled, and otherwise the same or promoted. */
  predicate RollsTo(r: Row, after: Row, rolled: bool, now: int) {
    if rolled then after == if r.state == Active then r.(retire := Some(now)) else r.(state := Dead, dead := Some(now))
    else after == r || (r.state == DsReady && after == r.(state := KeyPublish))
  }

  function PairsOf(keys: seq<Row>): set<int> {
    set i | 0 <= i < |keys| :: keys[i].pair
  }

  lemma {:induction false} RolledAllExact(db: Db, keys: seq<Row>, policy: Option<int>, now: int, loose: set<int>)
    ensures var after := RolledAll(db, keys, policy, now, loose).0;
      && |after.rows| == |db.rows| && after.pairs.Keys == db.pairs.Keys
      && (forall i :: 0 <= i < |db.rows| ==>
            RollsTo(db.rows[i], after.rows[i], db.rows[i].pair in PairsOf(keys), now))
      && (forall k :: k in db.pairs ==>
            after.pairs[k]
              == if k in PairsOf(keys) then db.pairs[k].(fixedDate := true, compromised := true) else db.pairs[k])
  {
    hide Extended, Lets, PairsOf;
    PairsOfMore(keys);
    if keys != [] {
      RolledAllExact(db, keys[..|keys| - 1], policy, now, loose);
    }
  }

  lemma PairsOfMore(keys: seq<Row>)
    ensures keys == [] ==> forall k :: k !in PairsOf(keys)
    ensures keys != [] ==> forall k :: k in PairsOf(keys) <==>
      k in PairsOf(keys[..|keys| - 1]) || k == keys[|keys| - 1].pair
  {
    if keys != [] {
      var front := keys[..|keys| - 1];
      forall k | k in PairsOf(keys)
        ensures k in PairsOf(front) || k == keys[|keys| - 1].pair
      {
        var i :| 0 <= i < |keys| && keys[i].pair == k;
        assert i < |front| ==> front[i] == keys[i];
      }
      forall k | k in PairsOf(front)
        ensures k in PairsOf(keys)
      {
        var i :| 0 <= i < |front| && front[i].pair == k;
        assert keys[i] == front[i];
      }
    }
  }

  /** The whole command, whatever is shared. A pair is rolled if and only if it has an active row in the named zone, of
      the named policy and of the named type: then it is flagged, its active rows are dated now in every zone, and
      its other rows are dead. No other pair changes, and of the other rows only standby ones, in dsready, may move. */
  lemma RollExact(db: Db, s: RollScope, now: int, loose: set<int>)
    ensures var after := KeyRolled(db, s, now, loose);
      && |after.rows| == |db.rows| && after.pairs.Keys == db.pairs.Keys
      && (forall i :: 0 <= i < |db.rows| ==> RollsTo(db.rows[i], after.rows[i], Named(db, s, db.rows[i].pair), now))
      && (forall k :: k in db.pairs ==>
            after.pairs[k]
              == if Named(db, s, k) then db.pairs[k].(fixedDate := true, compromised := true) else db.pairs[k])
  {
    hide RolledAll, RollsTo;
    var keys := Selection(db, s, db.rows);
    RolledAllExact(db, keys, s.policy, now, loose);
    forall k
      ensures k in PairsOf(keys) <==> Named(db, s, k)
    {
      SelectionNamed(db, s, k);
    }
  }

  lemma SelectionNamed(db: Db, s: RollScope, k: int)
    ensures k in PairsOf(Selection(db, s, db.rows)) <==> Named(db, s, k)
  {
    var keys := Selection(db, s, db.rows);
    SelectionMembers(db, s, db.rows);
    if k in PairsOf(keys) {
      var i :| 0 <= i < |keys| && keys[i].pair == k;
      assert keys[i] in keys;
      var j :| 0 <= j < |db.rows| && db.rows[j] == keys[i];
    }
    if Named(db, s, k) {
      var j :| 0 <= j < |db.rows| && db.rows[j].pair == k && Selects(db, s, db.rows[j]);
      assert db.rows[j] in keys;
    }
  }

  // ---- What is promoted ----

  /** Zones appended to a list: the first runs into the last number of the list where the comma is missing. */
  lemma {:induction false} AppendsRunOn(list: seq<int>, zones: seq<int>, count: nat)
    ensures AppendedAll(list, zones, count)
      == if zones == [] || list == [] || count > 0 then list + zones
         else list[..|list| - 1] + [RunTogether(list[|list| - 1], zones[0])] + zones[1..]
    decreases |zones|
  {
    hide RunTogether;
    if zones != [] {
      AppendsRunOn(Appended(list, zones[0], count != 0), zones[1..], count + 1);
      assert list + zones == list + [zones[0]] + zones[1..];
    }
  }

  lemma DigitMore(n: nat, d: nat)
    requires n > 0 && d < 10
    ensures Duration.Digits(10 * n + d) == Duration.Digits(n) + Duration.Digits(d)
  {
    assert (10 * n + d) / 10 == n && (10 * n + d) % 10 == d;
  }

  lemma TenTimes(a: nat, p: nat, b: nat)
    ensures a * (10 * p) + b == 10 * (a * p + b / 10) + b % 10
  {
  }

  /** Two ids that run together read as one number with the digits of both. */
  lemma {:induction false} RunTogetherReads(a: nat, b: nat)
    requires a > 0
    ensures RunTogether(a, b) > 0 && Duration.Digits(RunTogether(a, b)) == Duration.Digits(a) + Duration.Digits(b)
  {
    if b < 10 {
      DigitMore(a, b);
    } else {
      RunTogetherReads(a, b / 10);
      TenTimes(a, PowerOfTen(b / 10), b);
      DigitMore(RunTogether(a, b / 10), b % 10);
      DigitMore(b / 10, b % 10);
    }
  }

  lemma {:induction false} RetiringMembers(rows: seq<Row>, id: int, now: int)
    ensures forall z :: z in RetiringZones(rows, id, now) <==>
      exists r :: r in rows && r.pair == id && r.retire == Some(now) && r.zone == z
  {
    if rows != [] {
      RetiringMembers(rows[..|rows| - 1], id, now);
      assert rows == rows[..|rows| - 1] + [rows[|rows| - 1]];
    }
  }

  /** The row makes its zone one of those that the statement leaves out. */
  predicate Serves(db: Db, policy: Option<int>, r: Row) {
    && policy.Some? && r.kind == KSK && (r.state == Publish || r.state == Ready)
    && r.pair in db.pairs && db.pairs[r.pair].policy == policy.value
  }

  lemma {:induction false} ServedMembers(db: Db, policy: Option<int>, rows: seq<Row>)
    ensures forall z :: z in ServedZones(db, policy, rows) <==>
      exists r :: r in rows && Serves(db, policy, r) && r.zone == z
  {
    if rows != [] {
      ServedMembers(db, policy, rows[..|rows| - 1]);
      assert rows == rows[..|rows| - 1] + [rows[|rows| - 1]];
    }
  }

  lemma {:induction false} SelectionOfNone(db: Db, s: RollScope, rows: seq<Row>)
    requires forall j :: 0 <= j < |rows| ==> !Selects(db, s, rows[j])
    ensures Selection(db, s, rows) == []
  {
    hide Selects;
    if rows != [] {
      SelectionOfNone(db, s, rows[..|rows| - 1]);
    }
  }

  lemma {:induction false} SelectionOfOne(db: Db, s: RollScope, rows: seq<Row>, x: nat)
    requires x < |rows| && forall j :: 0 <= j < |rows| ==> (Selects(db, s, rows[j]) <==> j == x)
    ensures Selection(db, s, rows) == [rows[x]]
  {
    hide Selects;
    var front := rows[..|rows| - 1];
    if x == |rows| - 1 {
      SelectionOfNone(db, s, front);
    } else {
      SelectionOfOne(db, s, front, x);
    }
  }

  lemma SingleRoll(db: Db, key: Row, policy: Option<int>, now: int, loose: set<int>)
    ensures RolledAll(db, [key], policy, now, loose) == RolledOne(db, EMPTY, key, policy, now, loose)
  {
    hide RolledOne;
    assert [key][..0] == [];
    assert RolledAll(db, [], policy, now, loose) == (db, EMPTY);
  }

  /** The guard after the first KSK, zone by zone: the zones where the pair retires now, ... */
  lemma FirstWanted(db: Db, id: int, policy: Option<int>, now: int, z: int)
    ensures z in Extended(EMPTY, MarkedPair(db, id, now), id, policy, now).wanted <==>
      exists j :: 0 <= j < |db.rows| && db.rows[j].pair == id && db.rows[j].zone == z
                  && (db.rows[j].state == Active || db.rows[j].retire == Some(now))
  {
    hide RetiringZones, ServedZones;
    var marked := MarkedPair(db, id, now);
    var rows := marked.rows;
    AppendsRunOn([], RetiringZones(rows, id, now), 0);
    RetiringMembers(rows, id, now);
    if z in RetiringZones(rows, id, now) {
      var r :| r in rows && r.pair == id && r.retire == Some(now) && r.zone == z;
      var j :| 0 <= j < |rows| && rows[j] == r;
      assert db.rows[j].pair == id && db.rows[j].zone == z;
    }
    if j :| 0 <= j < |db.rows| && db.rows[j].pair == id && db.rows[j].zone == z
            && (db.rows[j].state == Active || db.rows[j].retire == Some(now)) {
      assert rows[j] in rows;
    }
  }

  /** ... and the zones with another KSK of the policy in publish or ready. */
  lemma FirstBarred(db: Db, id: int, policy: Option<int>, now: int, z: int)
    ensures z in Extended(EMPTY, MarkedPair(db, id, now), id, policy, now).barred <==>
      exists j :: 0 <= j < |db.rows| && db.rows[j].pair != id && db.rows[j].zone == z && Serves(db, policy, db.rows[j])
  {
    hide RetiringZones, ServedZones;
    var marked := MarkedPair(db, id, now);
    var rows := marked.rows;
    AppendsRunOn([], ServedZones(marked, policy, rows), 0);
    ServedMembers(marked, policy, rows);
    forall j | 0 <= j < |rows|
      ensures Serves(marked, policy, rows[j]) <==> db.rows[j].pair != id && Serves(db, policy, db.rows[j])
    {
    }
    if z in ServedZones(marked, policy, rows) {
      var r :| r in rows && Serves(marked, policy, r) && r.zone == z;
      var j :| 0 <= j < |rows| && rows[j] == r;
      assert db.rows[j].zone == z && db.rows[j].pair != id;
    }
    if j :| 0 <= j < |db.rows| && db.rows[j].pair != id && db.rows[j].zone == z && Serves(db, policy, db.rows[j]) {
      assert rows[j] in rows;
    }
  }

  /** A standby key when the command rolls a single KSK: it is promoted if and only if that KSK retires now in the
      standby key's zone, and among the policy's other KSKs in publish or ready there is one elsewhere and none in
      this zone. Where there is none at all, `loose` decides. */
  lemma OneKskPromotes(db: Db, s: RollScope, now: int, loose: set<int>, x: nat, i: nat)
    requires x < |db.rows| && db.rows[x].kind.KSK?
    requires forall j :: 0 <= j < |db.rows| ==> (Selects(db, s, db.rows[j]) <==> j == x)
    requires i < |db.rows| && db.rows[i].state == DsReady && db.rows[i].pair != db.rows[x].pair
    ensures |KeyRolled(db, s, now, loose).rows| == |db.rows|
    ensures var z, id := db.rows[i].zone, db.rows[x].pair;
      var retires := exists j :: 0 <= j < |db.rows| && db.rows[j].pair == id && db.rows[j].zone == z
                                 && (db.rows[j].state == Active || db.rows[j].retire == Some(now));
      var served := exists j :: 0 <= j < |db.rows| && db.rows[j].pair != id && Serves(db, s.policy, db.rows[j]);
      var here := exists j :: 0 <= j < |db.rows| && db.rows[j].pair != id && db.rows[j].zone == z
                              && Serves(db, s.policy, db.rows[j]);
      KeyRolled(db, s, now, loose).rows[i].state == KeyPublish <==> retires && !here && (served || z in loose)
  {
    hide Extended, Selects, Selection, RolledAll, Serves;
    var z, id := db.rows[i].zone, db.rows[x].pair;
    SelectionOfOne(db, s, db.rows, x);
    SingleRoll(db, db.rows[x], s.policy, now, loose);
    var g := Extended(EMPTY, MarkedPair(db, id, now), id, s.policy, now);
    FirstWanted(db, id, s.policy, now, z);
    FirstBarred(db, id, s.policy, now, z);
    if j :| 0 <= j < |db.rows| && db.rows[j].pair != id && Serves(db, s.policy, db.rows[j]) {
      FirstBarred(db, id, s.policy, now, db.rows[j].zone);
    }
    if g.barred != [] {
      FirstBarred(db, id, s.policy, now, g.barred[0]);
    }
  }

  /** What a further KSK adds to the two lists. The zones to promote in go on behind a comma, unless the KSK before
      found no zone to bar; the zones to bar always run into the last one. */
  lemma GuardGrows(g: Guard, db: Db, id: int, policy: Option<int>, now: int)
    ensures
      var more := Extended(g, db, id, policy, now);
      var retiring, served := RetiringZones(db.rows, id, now), ServedZones(db, policy, db.rows);
      && more.count == |served|
      && (g.count > 0 || g.wanted == [] || retiring == [] ==> more.wanted == g.wanted + retiring)
      && (g.count == 0 && g.wanted != [] && retiring != [] ==>
            more.wanted == g.wanted[..|g.wanted| - 1] + [RunTogether(g.wanted[|g.wanted| - 1], retiring[0])]
                           + retiring[1..])
      && (g.barred == [] || served == [] ==> more.barred == g.barred + served)
      && (g.barred != [] && served != [] ==>
            more.barred == g.barred[..|g.barred| - 1] + [RunTogether(g.barred[|g.barred| - 1], served[0])]
                           + served[1..])
  {
    hide RetiringZones, ServedZones, RunTogether;
    AppendsRunOn(g.wanted, RetiringZones(db.rows, id, now), g.count);
    AppendsRunOn(g.barred, ServedZones(db, policy, db.rows), 0);
  }
}
