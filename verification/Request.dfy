/** The steps of one key request, as functions of the tables. */
module Request {
  import opened Tables
  import opened Update

  /** What a request is made with: time, zone, policy parameters, run interval, and the repositories whose
      keys must be backed up before they may sign. */
  datatype Call = Call(now: int, zone: int, policy: Policy, interval: nat, needsBackup: set<int>)

  datatype Status = Ok | TooFewKeys | BackupFatal

  const BEYOND_GENERATE: set<State> := {Publish, Ready, Active, Retire, Dead, DsSub, DsPublish, DsReady, KeyPublish}
  const AVAILABLE: set<State> := {Publish, Ready, Active, KeyPublish}
  const STANDBY: set<State> := {DsSub, DsPublish, DsReady}
  const ISSUED: set<State> := {Publish, Ready, Active, Retire, KeyPublish}

  // ---- Moving rows ----

  /** All selected rows moved into `dst`. */
  function Moved(rows: seq<Row>, q: Clause, dst: State, now: int): (r: seq<Row>)
    ensures |r| == |rows|
  {
    seq(|rows|, i requires 0 <= i < |rows| => if Matches(q, rows[i]) then Enter(rows[i], dst, now) else rows[i])
  }

  /** Row i is among the first n selected ones. */
  predicate Picked(rows: seq<Row>, q: Clause, n: nat, i: nat)
    requires i < |rows|
  {
    Matches(q, rows[i]) && Count(rows[..i], q) < n
  }

  /** The first n selected rows moved into `dst`. */
  function MovedN(rows: seq<Row>, q: Clause, n: nat, dst: State, now: int): (r: seq<Row>)
    ensures |r| == |rows|
  {
    seq(|rows|, i requires 0 <= i < |rows| => if Picked(rows, q, n, i) then Enter(rows[i], dst, now) else rows[i])
  }

  /** A key pair without a backup in a repository that demands one. */
  predicate LacksBackup(pairs: map<int, KeyPair>, pair: int, needsBackup: set<int>) {
    pair in pairs && pairs[pair].backup.None? && pairs[pair].repository in needsBackup
  }

  predicate BackupRefused(db: Db, q: Clause, n: nat, needsBackup: set<int>) {
    exists i :: 0 <= i < |db.rows| && Picked(db.rows, q, n, i) && LacksBackup(db.pairs, db.rows[i].pair, needsBackup)
  }

  /** The outcome of moving n keys, all of them or none. */
  function ChangeN(db: Db, q: Clause, n: nat, dst: State, c: Call): (Status, seq<Row>) {
    if Count(db.rows, q) < n then (TooFewKeys, db.rows)
    else if dst == Active && BackupRefused(db, q, n, c.needsBackup) then (BackupFatal, db.rows)
    else (Ok, MovedN(db.rows, q, n, dst, c.now))
  }

  // ---- Step 0: rollovers ----

  function ActivePairs(rows: seq<Row>, kind: KeyType, zone: int): set<int> {
    set i | 0 <= i < |rows| && Matches(InStates(zone, kind, {Active}), rows[i]) :: rows[i].pair
  }

  /** The active keys marked for rollover: their pairs are flagged, and every row of those pairs, in any
      zone, gets the retire date `now`. */
  function Marked(db: Db, kind: KeyType, c: Call): Db {
    var ids := ActivePairs(db.rows, kind, c.zone);
    Db(map k | k in db.pairs ::
         if k in ids then db.pairs[k].(fixedDate := true, compromised := true) else db.pairs[k],
       seq(|db.rows|, i requires 0 <= i < |db.rows| =>
         if db.rows[i].pair in ids then db.rows[i].(retire := Some(c.now)) else db.rows[i]))
  }

  predicate Compromised(db: Db, kind: KeyType, zone: int) {
    exists i :: 0 <= i < |db.rows| && Matches(InStates(zone, kind, {Active}), db.rows[i])
                && db.rows[i].pair in db.pairs && db.pairs[db.rows[i].pair].compromised
  }

  // ---- Steps 0a to 3 ----

  predicate IsFirstPass(rows: seq<Row>, kind: KeyType, zone: int) {
    Count(rows, InStates(zone, kind, BEYOND_GENERATE)) == 0
  }

  function ActiveRetired(rows: seq<Row>, kind: KeyType, c: Call): (r: seq<Row>)
    ensures |r| == |rows|
  {
    Moved(rows, DueFor(c.zone, kind, Active, Retire, c.now), Retire, c.now)
  }

  /** Step 0a: standby KSKs published long enough become active and the old active key retires. */
  function StandbyActivated(rows: seq<Row>, c: Call, newDs: bool): (r: seq<Row>)
    ensures |r| == |rows|
  {
    var q := DueFor(c.zone, KSK, KeyPublish, Active, c.now);
    var moved := Moved(rows, q, Active, c.now);
    if newDs || Count(rows, q) > 0 then ActiveRetired(moved, KSK, c) else moved
  }

  /** Step 1. */
  function RetireDead(rows: seq<Row>, kind: KeyType, c: Call): (r: seq<Row>)
    ensures |r| == |rows|
  {
    Moved(rows, DueFor(c.zone, kind, Retire, Dead, c.now), Dead, c.now)
  }

  /** Step 2. */
  function PublishReady(rows: seq<Row>, kind: KeyType, c: Call): (r: seq<Row>)
    ensures |r| == |rows|
  {
    Moved(rows, DueFor(c.zone, kind, Publish, Ready, c.now), Ready, c.now)
  }

  /** Step 2a. */
  function DsPublishReady(rows: seq<Row>, c: Call): (r: seq<Row>)
    ensures |r| == |rows|
  {
    Moved(rows, DueFor(c.zone, KSK, DsPublish, DsReady, c.now), DsReady, c.now)
  }

  /** The number of standby KSKs still to be submitted. */
  function StandbyShortfall(rows: seq<Row>, c: Call): int {
    c.policy.standbyKsks - Count(rows, InStates(c.zone, KSK, STANDBY))
  }

  predicate StandbySupplied(rows: seq<Row>, c: Call) {
    0 < StandbyShortfall(rows, c) <= Count(rows, InStates(c.zone, KSK, {Generate}))
  }

  /** Step 3a. */
  function StandbySubmitted(rows: seq<Row>, c: Call): (r: seq<Row>)
    ensures |r| == |rows|
  {
    if StandbySupplied(rows, c) then
      MovedN(rows, InStates(c.zone, KSK, {Generate}), StandbyShortfall(rows, c), DsSub, c.now)
    else rows
  }

  /** Active keys that retire before a key published now and after the next run could replace them. */
  function PendingRetire(rows: seq<Row>, kind: KeyType, c: Call): nat {
    var horizon := (if kind.ZSK? then PublicationInterval(c.policy) else ParentInterval(c.policy)) + c.interval;
    Count(rows, RetiresBy(c.zone, kind, c.now + horizon))
  }

  function Required(kind: KeyType, p: Policy): nat {
    if kind.KSK? then 1 else 1 + p.standbyZsks
  }

  /** The number of keys that must be published now. */
  function Shortfall(rows: seq<Row>, kind: KeyType, c: Call): int {
    Required(kind, c.policy) - (Count(rows, InStates(c.zone, kind, AVAILABLE)) - PendingRetire(rows, kind, c))
  }

  /** Step 3: the shortfall is published if the generate pool covers it, otherwise nothing is. */
  function Replenished(rows: seq<Row>, kind: KeyType, c: Call): (r: seq<Row>)
    ensures |r| == |rows|
  {
    var pool := InStates(c.zone, kind, {Generate});
    var need := Shortfall(rows, kind, c);
    if 0 < need <= Count(rows, pool) then MovedN(rows, pool, need, Publish, c.now) else rows
  }

  /** Steps 0a to 3. */
  function Staged(rows: seq<Row>, kind: KeyType, firstPass: bool, c: Call, newDs: bool): (r: seq<Row>)
    ensures |r| == |rows|
  {
    var a := if kind.KSK? then StandbyActivated(rows, c, newDs) else rows;
    var b := RetireDead(a, kind, c);
    var d := if kind.ZSK? || c.policy.kskRoll.DoubleDnskey? || firstPass then PublishReady(b, kind, c) else b;
    var e := if kind.KSK? then StandbySubmitted(DsPublishReady(d, c), c) else d;
    Replenished(e, kind, c)
  }

  /** Whether steps 0a to 3 leave the "new DS records" flag set. */
  predicate StagedNewDs(rows: seq<Row>, kind: KeyType, firstPass: bool, c: Call, newDs: bool) {
    if kind.ZSK? then newDs
    else
      var a := StandbyActivated(rows, c, newDs);
      var b := RetireDead(a, KSK, c);
      var removed := c.policy.kskRoll.DoubleDs? && Count(a, DueFor(c.zone, KSK, Retire, Dead, c.now)) > 0;
      var readies := c.policy.kskRoll.DoubleDnskey? || firstPass;
      var d := if readies then PublishReady(b, KSK, c) else b;
      var added := readies && Count(b, DueFor(c.zone, KSK, Publish, Ready, c.now)) > 0;
      !firstPass && (removed || added || StandbySupplied(DsPublishReady(d, c), c))
  }

  // ---- Steps 4 to 9 ----

  predicate ManualRollover(kind: KeyType, p: Policy) {
    if kind.KSK? then p.kskManual else p.zskManual
  }

  /** Steps 4 to 9: one key takes over from the active keys that are due. */
  function Switched(db: Db, kind: KeyType, rolling: bool, firstPass: bool, c: Call): (Status, seq<Row>) {
    var rows := db.rows;
    var ready := InStates(c.zone, kind, {Ready});
    if Count(rows, ActiveAfter(c.zone, kind, c.now)) > 0 && !rolling then (Ok, rows)
    else if Count(rows, ready) == 0 then
      if firstPass then
        if kind.KSK? then (Ok, rows)
        else ChangeN(db, InStates(c.zone, kind, {Publish}), 1, Active, c)
      else if kind.KSK? then
        (Ok, Moved(rows, DueFor(c.zone, KSK, DsReady, KeyPublish, c.now), KeyPublish, c.now))
      else (Ok, rows)
    else if ManualRollover(kind, c.policy) && !rolling then (Ok, rows)
    else if kind.KSK? then (Ok, rows)
    else
      var (status, moved) := ChangeN(db, ready, 1, Active, c);
      if status.BackupFatal? then (Ok, rows)
      else if status != Ok then (status, rows)
      else (Ok, ActiveRetired(moved, kind, c))
  }

  // ---- Step 10 ----

  /** The rows issued to the signer, in table order. */
  function Issue(rows: seq<Row>, kind: KeyType, zone: int): seq<Row> {
    if rows == [] then []
    else
      var last := rows[|rows| - 1];
      Issue(rows[..|rows| - 1], kind, zone) + if Matches(InStates(zone, kind, ISSUED), last) then [last] else []
  }

  // ---- One pass, one request ----

  datatype Pass = Pass(status: Status, db: Db, newDs: bool, issued: seq<Row>)

  /** `KsmRequestKeysByType`. */
  function ByType(db: Db, kind: KeyType, rollover: bool, c: Call, newDs: bool): Pass {
    var firstPass := IsFirstPass(db.rows, kind, c.zone);
    var marked := if rollover then Marked(db, kind, c) else db;
    var rolling := rollover || Compromised(db, kind, c.zone);
    var staged := marked.(rows := Staged(marked.rows, kind, firstPass, c, newDs));
    var flag := StagedNewDs(marked.rows, kind, firstPass, c, newDs);
    var (status, rows) := Switched(staged, kind, rolling, firstPass, c);
    if status != Ok then Pass(status, staged.(rows := rows), flag, [])
    else Pass(Ok, staged.(rows := rows), flag, Issue(rows, kind, c.zone))
  }

  /** Which key types a request handles. */
  datatype Kinds = Only(kind: KeyType) | Both

  datatype Outcome = Outcome(status: Status, db: Db, newDs: bool, issued: seq<Row>)

  function WithDates(db: Db, c: Call): Db {
    db.(rows := Updated(db, c.policy, c.zone))
  }

  /** The tables, and the new-DS flag, that the ZSK pass of a request starts from. */
  function ZskInput(db: Db, kinds: Kinds, rollover: bool, c: Call, newDs: bool): Db {
    if kinds.Both? then ByType(WithDates(db, c), KSK, rollover, c, newDs).db else WithDates(db, c)
  }

  function FlagInput(db: Db, kinds: Kinds, rollover: bool, c: Call, newDs: bool): bool {
    if kinds.Both? then ByType(WithDates(db, c), KSK, rollover, c, newDs).newDs else newDs
  }

  /** `KsmRequestKeys`: dates, passes, dates again; any failing pass rolls everything back. */
  function Handled(db: Db, kinds: Kinds, rollover: bool, c: Call, newDs: bool): Outcome {
    var dated := WithDates(db, c);
    var first := ByType(dated, if kinds.Both? then KSK else kinds.kind, rollover, c, newDs);
    if first.status != Ok then Outcome(first.status, db, first.newDs, first.issued)
    else if kinds.Only? then Outcome(Ok, WithDates(first.db, c), first.newDs, first.issued)
    else
      var second := ByType(first.db, ZSK, rollover, c, first.newDs);
      var issued := first.issued + second.issued;
      if second.status != Ok then Outcome(second.status, db, second.newDs, issued)
      else Outcome(Ok, WithDates(second.db, c), second.newDs, issued)
  }
}
