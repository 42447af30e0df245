/** The key tables as the enforcer changes them: every statement updates the rows in place, and each method
    is tied to the function of the tables that it computes. */
module KeyStore {
  import opened Tables
  import opened Update
  import opened Request
  import opened Supply
  import opened Availability
  import opened Backup
  import opened KeyRoll

  datatype DateColumn = PublishDate | ReadyDate | ActiveDate | RetireDate | DeadDate

  function Date(r: Row, column: DateColumn): Option<int> {
    match column
    case PublishDate => r.publish
    case ReadyDate => r.ready
    case ActiveDate => r.active
    case RetireDate => r.retire
    case DeadDate => r.dead
  }

  function WithDate(r: Row, column: DateColumn, date: Option<int>): Row {
    match column
    case PublishDate => r.(publish := date)
    case ReadyDate => r.(ready := date)
    case ActiveDate => r.(active := date)
    case RetireDate => r.(retire := date)
    case DeadDate => r.(dead := date)
  }

  class KeyStore {
    var pairs: map<int, KeyPair>
    var rows: seq<Row>
    var nextId: int

    /** Rows refer to existing pairs, (zone, pair) is unique, and ids are handed out in order. */
    ghost predicate Valid()
      reads this
    {
      Linked(Tables()) && Unique(rows) && 0 <= nextId && forall k :: k in pairs ==> 0 <= k < nextId
    }

    function Tables(): Db
      reads this
    {
      Db(pairs, rows)
    }

    constructor ()
      ensures Valid() && Tables() == Db(map[], []) && nextId == 1
    {
      pairs, rows, nextId := map[], [], 1;
    }

    // ---- Queries ----

    method CountWhere(q: Clause) returns (n: nat)
      ensures n == Count(rows, q)
    {
      n := 0;
      for i := 0 to |rows|
        invariant n == Count(rows[..i], q)
      {
        assert rows[..i + 1][..i] == rows[..i];
        if Matches(q, rows[i]) {
          n := n + 1;
        }
      }
      assert rows[..|rows|] == rows;
    }

    /** The key pair ids of the rows that a clause selects, in table order; at most `limit` of them. */
    method SelectPairs(q: Clause, limit: nat) returns (ids: seq<int>)
      ensures |ids| == if Count(rows, q) < limit then Count(rows, q) else limit
      ensures forall k :: k in ids <==> exists i :: 0 <= i < |rows| && Picked(rows, q, limit, i) && rows[i].pair == k
    {
      ids := [];
      var i := 0;
      while i < |rows| && |ids| < limit
        invariant 0 <= i <= |rows|
        invariant |ids| == Count(rows[..i], q) <= limit
        invariant forall k :: k in ids <==> exists j :: 0 <= j < i && Picked(rows, q, limit, j) && rows[j].pair == k
      {
        assert rows[..i + 1][..i] == rows[..i];
        if Matches(q, rows[i]) {
          assert Picked(rows, q, limit, i);
          ids := ids + [rows[i].pair];
        }
        i := i + 1;
      }
      assert rows[..|rows|] == rows;
      forall j | i <= j < |rows|
        ensures !Picked(rows, q, limit, j)
      {
        assert rows[..j][..i] == rows[..i];
        CountPrefixLe(rows[..j], q, i);
      }
      CountPrefixLe(rows, q, i);
    }

    // ---- KsmUpdate ----

    /** UPDATE dnsseckeys SET destination = source + interval WHERE keypair_id = pair AND zone_id = zone. */
    method UpdateKeyTime(pair: int, zone: int, source: DateColumn, destination: DateColumn, interval: int)
      modifies this`rows
      ensures |rows| == |old(rows)|
      ensures forall i :: 0 <= i < |rows| ==>
        rows[i] == (var r := old(rows)[i];
                    if r.pair == pair && r.zone == zone then WithDate(r, destination, Later(Date(r, source), interval))
                    else r)
    {
      for i := 0 to |rows|
        invariant |rows| == |old(rows)|
        invariant forall j :: i <= j < |rows| ==> rows[j] == old(rows)[j]
        invariant forall j :: 0 <= j < i ==>
          rows[j] == (var r := old(rows)[j];
                      if r.pair != pair || r.zone != zone then r
                      else WithDate(r, destination, Later(Date(r, source), interval)))
      {
        var r := rows[i];
        if r.pair == pair && r.zone == zone {
          rows := rows[i := WithDate(r, destination, Later(Date(r, source), interval))];
        }
      }
    }

    /** One key's dates, by state. */
    method UpdateKey(data: Row, fixedDate: bool, policy: Policy, zone: int)
      requires forall i :: 0 <= i < |rows| && rows[i].pair == data.pair && rows[i].zone == zone ==>
                             rows[i].state == data.state && rows[i].kind == data.kind
      modifies this`rows
      ensures |rows| == |old(rows)|
      ensures forall i :: 0 <= i < |rows| ==>
        rows[i] == (var r := old(rows)[i];
                    if r.pair == data.pair && r.zone == zone then UpdatedRow(r, policy, fixedDate) else r)
    {
      match data.state
      case Publish =>
        UpdateKeyTime(data.pair, zone, PublishDate, ReadyDate, ReadyInterval(policy, data.kind));
      case Active =>
        if !fixedDate {
          UpdateKeyTime(data.pair, zone, ActiveDate, RetireDate, Lifetime(policy, data.kind));
        }
      case Retire =>
        UpdateKeyTime(data.pair, zone, RetireDate, DeadDate, RetireInterval(policy, data.kind));
      case DsPublish =>
        if data.kind.KSK? {
          UpdateKeyTime(data.pair, zone, PublishDate, ReadyDate, ParentInterval(policy));
        }
      case KeyPublish =>
        UpdateKeyTime(data.pair, zone, PublishDate, ActiveDate, PublicationInterval(policy));
      case Generate | Ready | Dead | DsSub | DsReady =>
    }

    method UpdateDates(policy: Policy, zone: int)
      requires Valid()
      modifies this`rows
      ensures Valid()
      ensures rows == Updated(old(Tables()), policy, zone)
    {
      for i := 0 to |rows|
        invariant |rows| == |old(rows)|
        invariant forall j :: i <= j < |rows| ==> rows[j] == old(rows)[j]
        invariant forall j :: 0 <= j < i ==> rows[j] == Updated(old(Tables()), policy, zone)[j]
      {
        var data := rows[i];
        if data.zone == zone {
          UpdateKey(data, pairs[data.pair].fixedDate, policy, zone);
        }
      }
    }

    // ---- State changes ----

    /** UPDATE dnsseckeys SET state = dst, <date of dst> = now WHERE keypair_id IN ids AND zone_id = zone. */
    method EnterState(ids: seq<int>, zone: int, dst: State, now: int)
      modifies this`rows
      ensures |rows| == |old(rows)|
      ensures forall i :: 0 <= i < |rows| ==>
        rows[i] == (var r := old(rows)[i]; if r.pair in ids && r.zone == zone then Enter(r, dst, now) else r)
    {
      for i := 0 to |rows|
        invariant |rows| == |old(rows)|
        invariant forall j :: i <= j < |rows| ==> rows[j] == old(rows)[j]
        invariant forall j :: 0 <= j < i ==>
          rows[j] == (var r := old(rows)[j]; if r.pair in ids && r.zone == zone then Enter(r, dst, now) else r)
      {
        if rows[i].pair in ids && rows[i].zone == zone {
          rows := rows[i := Enter(rows[i], dst, now)];
        }
      }
    }

    /** `KsmRequestChangeState`: selects by type, state, zone and date, but updates by pair and zone only.
        Because (zone, pair) is unique, exactly the selected rows move. */
    method ChangeState(kind: KeyType, now: int, src: State, dst: State, zone: int) returns (moved: bool)
      requires Valid()
      modifies this`rows
      ensures Valid()
      ensures rows == Moved(old(rows), DueFor(zone, kind, src, dst, now), dst, now)
      ensures moved == (Count(old(rows), DueFor(zone, kind, src, dst, now)) > 0)
    {
      hide Enter, Count;
      var q := DueFor(zone, kind, src, dst, now);
      var count := CountWhere(q);
      moved := count > 0;
      if count == 0 {
        forall i | 0 <= i < |rows|
          ensures !Matches(q, rows[i])
        {
          if Matches(q, rows[i]) {
            CountPositive(rows, q, i);
          }
        }
        return;
      }
      var ids := SelectPairs(q, count);
      forall i | 0 <= i < |rows|
        ensures rows[i].pair in ids && rows[i].zone == zone <==> Matches(q, rows[i])
      {
        if Matches(q, rows[i]) {
          CountAtIndex(rows, q, i);
          assert Picked(rows, q, count, i);
        }
      }
      EnterState(ids, zone, dst, now);
      MovedKeepsKeys(old(rows), q, dst, now);
    }

    /** `KsmRequestChangeStateN`: n keys move, or none does. */
    method ChangeStateN(kind: KeyType, n: nat, src: State, dst: State, c: Call) returns (status: Status)
      requires Valid()
      modifies this`rows
      ensures Valid()
      ensures (status, rows) == ChangeN(old(Tables()), InStates(c.zone, kind, {src}), n, dst, c)
    {
      hide Enter, Count;
      var q := InStates(c.zone, kind, {src});
      var ids := SelectPairs(q, n);
      if |ids| < n {
        return TooFewKeys;
      }
      if dst == Active {
        var refused := LackingBackup(ids, c.needsBackup);
        assert refused > 0 <==> BackupRefused(Tables(), q, n, c.needsBackup);
        if refused > 0 {
          return BackupFatal;
        }
      }
      forall i | 0 <= i < |rows|
        ensures rows[i].pair in ids && rows[i].zone == c.zone <==> Picked(rows, q, n, i)
      {
      }
      EnterState(ids, c.zone, dst, c.now);
      assert rows == MovedN(old(rows), q, n, dst, c.now);
      MovedNKeepsKeys(old(rows), q, n, dst, c.now);
      status := Ok;
    }

    /** The number of listed key pairs that need a backup and have none. */
    method LackingBackup(ids: seq<int>, needsBackup: set<int>) returns (n: nat)
      ensures n > 0 <==> exists k :: k in ids && LacksBackup(pairs, k, needsBackup)
    {
      n := 0;
      for j := 0 to |ids|
        invariant n > 0 <==> exists i :: 0 <= i < j && LacksBackup(pairs, ids[i], needsBackup)
      {
        if ids[j] in pairs && pairs[ids[j]].backup.None? && pairs[ids[j]].repository in needsBackup {
          n := n + 1;
        }
      }
      if n == 0 {
        forall k | k in ids
          ensures !LacksBackup(pairs, k, needsBackup)
        {
          var i :| 0 <= i < |ids| && ids[i] == k;
        }
      }
    }

    // ---- KsmRequestKeysByType ----

    /** `KsmRequestSetActiveExpectedRetire`: flags the pairs of the active keys and writes the retire date in
        every row of those pairs, whatever the zone. */
    method MarkActive(kind: KeyType, c: Call)
      requires Valid()
      modifies this`pairs, this`rows
      ensures Valid()
      ensures Tables() == Marked(old(Tables()), kind, c)
    {
      hide Count, Picked, ActivePairs;
      var ids := ActiveIds(kind, c.zone);
      ghost var want := Marked(Tables(), kind, c).pairs;
      var marked := map k | k in pairs ::
        if k in ids then pairs[k].(fixedDate := true, compromised := true) else pairs[k];
      assert forall k :: k in marked <==> k in want;
      assert forall k :: k in marked ==> marked[k] == want[k];
      assert marked == want;
      pairs := marked;
      SetRetire(ids, c.now);
      assert rows == Marked(old(Tables()), kind, c).rows;
    }

    /** The key pair ids of the active keys. */
    method ActiveIds(kind: KeyType, zone: int) returns (ids: seq<int>)
      ensures forall k :: k in ids <==> k in ActivePairs(rows, kind, zone)
    {
      hide Count;
      var q := InStates(zone, kind, {Active});
      var count := CountWhere(q);
      ids := SelectPairs(q, count);
      forall k
        ensures k in ids <==> k in ActivePairs(rows, kind, zone)
      {
        if k in ActivePairs(rows, kind, zone) {
          var i :| 0 <= i < |rows| && Matches(q, rows[i]) && rows[i].pair == k;
          CountAtIndex(rows, q, i);
          assert Picked(rows, q, count, i);
        }
      }
    }

    /** UPDATE dnsseckeys SET retire = date WHERE keypair_id IN ids. */
    method SetRetire(ids: seq<int>, date: int)
      modifies this`rows
      ensures |rows| == |old(rows)|
      ensures forall i :: 0 <= i < |rows| ==>
        rows[i] == (var r := old(rows)[i]; if r.pair in ids then r.(retire := Some(date)) else r)
    {
      for i := 0 to |rows|
        invariant |rows| == |old(rows)|
        invariant forall j :: i <= j < |rows| ==> rows[j] == old(rows)[j]
        invariant forall j :: 0 <= j < i ==>
          rows[j] == (var r := old(rows)[j]; if r.pair in ids then r.(retire := Some(date)) else r)
      {
        if rows[i].pair in ids {
          rows := rows[i := rows[i].(retire := Some(date))];
        }
      }
    }

    method CheckCompromised(kind: KeyType, zone: int) returns (flag: bool)
      ensures flag == Compromised(Tables(), kind, zone)
    {
      var count := 0;
      for i := 0 to |rows|
        invariant count > 0 <==>
          exists j :: 0 <= j < i && Matches(InStates(zone, kind, {Active}), rows[j])
                      && rows[j].pair in pairs && pairs[rows[j].pair].compromised
      {
        var r := rows[i];
        if Matches(InStates(zone, kind, {Active}), r) && r.pair in pairs && pairs[r.pair].compromised {
          count := count + 1;
        }
      }
      flag := count > 0;
    }

    /** `KsmRequestChangeStateGenerateDSSubConditional`. */
    method SubmitStandby(c: Call) returns (submitted: bool)
      requires Valid()
      modifies this`rows
      ensures Valid()
      ensures rows == StandbySubmitted(old(rows), c)
      ensures submitted == StandbySupplied(old(rows), c)
    {
      var standby := CountWhere(InStates(c.zone, KSK, STANDBY));
      var newKeys := c.policy.standbyKsks - standby;
      submitted := false;
      if newKeys > 0 {
        var generated := CountWhere(InStates(c.zone, KSK, {Generate}));
        if generated >= newKeys {
          var status := ChangeStateN(KSK, newKeys, Generate, DsSub, c);
          submitted := true;
        }
      }
    }

    /** `KsmRequestChangeStateGeneratePublishConditional`. */
    method Replenish(kind: KeyType, c: Call)
      requires Valid()
      modifies this`rows
      ensures Valid()
      ensures rows == Replenished(old(rows), kind, c)
    {
      var horizon := if kind.ZSK? then PublicationInterval(c.policy) else ParentInterval(c.policy);
      var pending: int := CountWhere(RetiresBy(c.zone, kind, c.now + (horizon + c.interval)));
      var available: int := CountWhere(InStates(c.zone, kind, AVAILABLE));
      var newKeys: int := Required(kind, c.policy) as int - available + pending;
      if newKeys > 0 {
        var generated := CountWhere(InStates(c.zone, kind, {Generate}));
        if generated >= newKeys {
          var status := ChangeStateN(kind, newKeys, Generate, Publish, c);
        }
      }
    }

    /** Steps 0a to 3. */
    method Stage(kind: KeyType, firstPass: bool, c: Call, newDs: bool) returns (flag: bool)
      requires Valid()
      modifies this`rows
      ensures Valid()
      ensures rows == Staged(old(rows), kind, firstPass, c, newDs)
      ensures flag == StagedNewDs(old(rows), kind, firstPass, c, newDs)
    {
      hide Moved, Count, StandbySubmitted, StandbySupplied, Replenished;
      flag := newDs;
      if kind.KSK? {
        var activated := ChangeState(KSK, c.now, KeyPublish, Active, c.zone);
        if flag || activated {
          var _ := ChangeState(KSK, c.now, Active, Retire, c.zone);
        }
        flag := false;
      }
      var died := ChangeState(kind, c.now, Retire, Dead, c.zone);
      if kind.KSK? && died && c.policy.kskRoll.DoubleDs? {
        flag := true;
      }
      if kind.ZSK? || c.policy.kskRoll.DoubleDnskey? || firstPass {
        var readied := ChangeState(kind, c.now, Publish, Ready, c.zone);
        if kind.KSK? && readied {
          flag := true;
        }
      }
      if kind.KSK? {
        var _ := ChangeState(KSK, c.now, DsPublish, DsReady, c.zone);
        var submitted := SubmitStandby(c);
        if submitted {
          flag := true;
        }
        if firstPass {
          flag := false;
        }
      }
      Replenish(kind, c);
    }

    /** Steps 4 to 9. */
    method Switch(kind: KeyType, rolling: bool, firstPass: bool, c: Call) returns (status: Status)
      requires Valid()
      modifies this`rows
      ensures Valid()
      ensures (status, rows) == Switched(old(Tables()), kind, rolling, firstPass, c)
    {
      status := Ok;
      var remaining := CountWhere(ActiveAfter(c.zone, kind, c.now));
      if remaining == 0 || rolling {
        var ready := CountWhere(InStates(c.zone, kind, {Ready}));
        if ready == 0 {
          if firstPass {
            if kind.ZSK? {
              status := ChangeStateN(kind, 1, Publish, Active, c);
            }
          } else if kind.KSK? {
            var _ := ChangeState(KSK, c.now, DsReady, KeyPublish, c.zone);
          }
        } else if ManualRollover(kind, c.policy) && !rolling {
        } else if kind.KSK? {
        } else {
          status := ChangeStateN(kind, 1, Ready, Active, c);
          if status.BackupFatal? {
            status := Ok;
          } else if status == Ok {
            var _ := ChangeState(kind, c.now, Active, Retire, c.zone);
          }
        }
      }
    }

    /** `KsmRequestIssueKeys`: the keys handed to the signer. */
    method IssueKeys(kind: KeyType, zone: int) returns (issued: seq<Row>)
      ensures issued == Issue(rows, kind, zone)
    {
      issued := [];
      for i := 0 to |rows|
        invariant issued == Issue(rows[..i], kind, zone)
      {
        assert rows[..i + 1][..i] == rows[..i];
        if Matches(InStates(zone, kind, ISSUED), rows[i]) {
          issued := issued + [rows[i]];
        }
      }
      assert rows[..|rows|] == rows;
    }

    method RequestByType(kind: KeyType, rollover: bool, c: Call, newDs: bool)
      returns (status: Status, flag: bool, issued: seq<Row>)
      requires Valid()
      modifies this`pairs, this`rows
      ensures Valid()
      ensures Pass(status, Tables(), flag, issued) == ByType(old(Tables()), kind, rollover, c, newDs)
    {
      var beyond := CountWhere(InStates(c.zone, kind, BEYOND_GENERATE));
      var firstPass := beyond == 0;
      var rolling := rollover;
      if rollover {
        MarkActive(kind, c);
      } else {
        rolling := CheckCompromised(kind, c.zone);
      }
      flag := Stage(kind, firstPass, c, newDs);
      status := Switch(kind, rolling, firstPass, c);
      issued := [];
      if status == Ok {
        issued := IssueKeys(kind, c.zone);
      }
    }

    // ---- KsmRequestKeys ----

    /** The whole request inside its transaction: a failing pass leaves both tables as they were. */
    method RequestKeys(kinds: Kinds, rollover: bool, c: Call, newDs: bool)
      returns (status: Status, flag: bool, issued: seq<Row>)
      requires Valid()
      modifies this`pairs, this`rows
      ensures Valid()
      ensures Outcome(status, Tables(), flag, issued) == Handled(old(Tables()), kinds, rollover, c, newDs)
      ensures status != Ok ==> Tables() == old(Tables())
    {
      var savedPairs, savedRows := pairs, rows;
      UpdateDates(c.policy, c.zone);
      status, flag, issued := RequestByType(if kinds.Both? then KSK else kinds.kind, rollover, c, newDs);
      if status == Ok && kinds.Both? {
        var more;
        status, flag, more := RequestByType(ZSK, rollover, c, flag);
        issued := issued + more;
      }
      if status == Ok {
        UpdateDates(c.policy, c.zone);
      } else {
        pairs, rows := savedPairs, savedRows;
      }
    }

    // ---- The operator's roll command ----

    /** `keyRoll`: the selected keys one by one, with the two zone lists carried along. */
    method RollKeys(s: RollScope, now: int, loose: set<int>)
      requires Valid()
      modifies this`pairs, this`rows
      ensures Valid() && Tables() == KeyRolled(old(Tables()), s, now, loose)
    {
      hide Extended, Selection, Appended;
      var keys := Selection(Tables(), s, rows);
      var g := EMPTY;
      for n := 0 to |keys|
        invariant Valid()
        invariant (Tables(), g) == RolledAll(old(Tables()), keys[..n], s.policy, now, loose)
      {
        assert keys[..n + 1][..n] == keys[..n];
        MarkPair(keys[n].pair, now);
        if keys[n].kind.KSK? {
          g := Extended(g, Tables(), keys[n].pair, s.policy, now);
          rows := Promoted(rows, g, loose);
        }
      }
      assert keys[..|keys|] == keys;
    }

    /** The three statements on one selected key. */
    method MarkPair(id: int, now: int)
      requires Valid()
      modifies this`pairs, this`rows
      ensures Valid() && Tables() == MarkedPair(old(Tables()), id, now)
    {
      if id in pairs {
        pairs := pairs[id := pairs[id].(fixedDate := true, compromised := true)];
      }
      assert pairs == MarkedPair(old(Tables()), id, now).pairs;
      for i := 0 to |rows|
        invariant pairs == MarkedPair(old(Tables()), id, now).pairs
        invariant |rows| == |old(rows)|
        invariant forall j :: i <= j < |rows| ==> rows[j] == old(rows)[j]
        invariant forall j :: 0 <= j < i ==> rows[j] == MarkedRow(old(rows)[j], id, now)
      {
        if rows[i].pair == id {
          if rows[i].state == Active {
            rows := rows[i := rows[i].(retire := Some(now))];
          } else {
            rows := rows[i := rows[i].(state := Dead, dead := Some(now))];
          }
        }
      }
    }

    // ---- Creating and allocating keys ----

    /** `KsmKeyPairCreate`: a new pair, with no row, no flag and no backup. */
    method CreatePair(s: Spec) returns (id: int)
      requires Valid()
      modifies this`pairs, this`nextId
      ensures Valid() && id == old(nextId) && nextId == id + 1 && id !in old(pairs)
      ensures pairs == old(pairs)[id := NewPair(s)]
    {
      id := nextId;
      pairs := pairs[id := NewPair(s)];
      nextId := nextId + 1;
    }

    method IsUnallocated(s: Spec, zone: int, shared: bool, id: int) returns (free: bool)
      ensures free == Unallocated(Tables(), s, zone, shared, id)
    {
      free := id in pairs && Fits(pairs[id], s);
      for i := 0 to |rows|
        invariant free == (&& id in pairs && Fits(pairs[id], s)
                           && forall j :: 0 <= j < i && rows[j].pair == id ==>
                                shared && rows[j].zone != zone && rows[j].state !in {Retire, Dead})
      {
        if rows[i].pair == id && !(shared && rows[i].zone != zone && rows[i].state !in {Retire, Dead}) {
          free := false;
        }
      }
    }

    /** `KsmKeyGetUnallocated`: the least id of a pair that the zone may be given. */
    method GetUnallocated(s: Spec, zone: int, shared: bool) returns (least: Option<int>)
      requires Valid()
      ensures least.None? ==> forall id :: !Unallocated(Tables(), s, zone, shared, id)
      ensures least.Some? ==> Unallocated(Tables(), s, zone, shared, least.value)
      ensures least.Some? ==> forall id :: Unallocated(Tables(), s, zone, shared, id) ==> least.value <= id
      ensures least.Some? ==> least.value in pairs && Fits(pairs[least.value], s)
      ensures least.Some? ==> forall i :: 0 <= i < |rows| && rows[i].pair == least.value ==>
        shared && rows[i].zone != zone && rows[i].state != Retire && rows[i].state != Dead
      ensures least.None? ==> forall id :: id in pairs && Fits(pairs[id], s) ==>
        exists i :: 0 <= i < |rows| && rows[i].pair == id
                    && (!shared || rows[i].zone == zone || rows[i].state == Retire || rows[i].state == Dead)
    {
      for id := 0 to nextId
        invariant forall k :: 0 <= k < id ==> !Unallocated(Tables(), s, zone, shared, k)
      {
        var free := IsUnallocated(s, zone, shared, id);
        if free {
          assert !shared ==> forall i :: 0 <= i < |rows| ==> rows[i].pair != id;
          return Some(id);
        }
      }
      forall id | id in pairs && Fits(pairs[id], s)
        ensures exists i :: 0 <= i < |rows| && rows[i].pair == id
                            && (!shared || rows[i].zone == zone || rows[i].state == Retire || rows[i].state == Dead)
      {
        assert !Unallocated(Tables(), s, zone, shared, id);
      }
      least := None;
    }

    /** `allocateKeysToZone`: generated keys are added until the predicted demand is met, or no pair is left.
        The interval parameter is 16 bits wide. */
    method AllocateKeys(kind: KeyType, s: Spec, c: Call, shared: bool, scheme: RollScheme) returns (enough: bool)
      requires Valid() && c.interval < 0x1_0000
      modifies this`rows
      ensures Valid()
      ensures old(rows) <= rows
      ensures forall i :: |old(rows)| <= i < |rows| ==>
          rows[i] == NewRow(rows[i].pair, c.zone, kind) && Fits(pairs[rows[i].pair], s)
      ensures !shared && Unshared(old(rows)) ==> Unshared(rows)
      ensures enough <==> AllocationDemand(rows, kind, c, scheme) <= 0
      ensures enough ==>
        |rows| - |old(rows)| == (var n := AllocationDemand(old(rows), kind, c, scheme); if n < 0 then 0 else n)
      ensures !enough ==> forall id :: !Unallocated(Tables(), s, c.zone, shared, id)
    {
      hide Count, AllocationDemand, Unallocated, Allocated;
      var demand := NewKeysNeeded(kind, c, scheme);
      var added := 0;
      while added < demand
        invariant Valid()
        invariant added <= demand || (added == 0 && demand < 0)
        invariant added >= 0 && |rows| == |old(rows)| + added && old(rows) <= rows
        invariant forall i :: |old(rows)| <= i < |rows| ==>
            rows[i] == NewRow(rows[i].pair, c.zone, kind) && Fits(pairs[rows[i].pair], s)
        invariant !shared && Unshared(old(rows)) ==> Unshared(rows)
        invariant AllocationDemand(rows, kind, c, scheme) == demand - added
      {
        var id := GetUnallocated(s, c.zone, shared);
        if id.None? {
          return false;
        }
        AllocationLowersDemand(rows, kind, c, scheme, id.value);
        AllocationKeepsUnique(Tables(), s, c.zone, shared, id.value, kind);
        rows := rows + [NewRow(id.value, c.zone, kind)];
        added := added + 1;
      }
      enough := true;
    }

    /** The number of keys to add: predicted, less queued, plus pending retirement. */
    method NewKeysNeeded(kind: KeyType, c: Call, scheme: RollScheme) returns (n: int)
      ensures n == AllocationDemand(rows, kind, c, scheme)
    {
      hide Count, Predicted;
      var needed := Predicted(c.policy, kind, c.interval, scheme);
      var queued := CountWhere(InStates(c.zone, kind, QUEUED));
      var horizon := if kind.ZSK? then PublicationInterval(c.policy) else ParentInterval(c.policy);
      var pending := CountWhere(RetiresBy(c.zone, kind, c.now + (horizon + c.interval)));
      n := needed as int - (queued as int - pending as int);
    }

    // ---- Backup ----

    /** `KsmMarkPreBackup`; false when there was nothing to prepare. */
    method MarkPreBackup(scope: Scope, now: int) returns (worked: bool)
      requires Valid()
      modifies this`pairs
      ensures Valid() && pairs == Prepared(old(pairs), scope, now)
      ensures worked <==> exists id :: id in old(pairs) && Unprepared(scope, old(pairs)[id])
    {
      worked := exists id :: id in pairs && Unprepared(scope, pairs[id]);
      if worked {
        pairs := map id | id in pairs ::
          if Unprepared(scope, pairs[id]) then pairs[id].(preBackup := Some(now)) else pairs[id];
      }
      assert pairs.Keys == old(pairs).Keys;
      assert forall id :: id in pairs ==> pairs[id] == Prepared(old(pairs), scope, now)[id];
    }

    /** `KsmRollbackMarkPreBackup`. */
    method RollbackPreBackup(scope: Scope) returns (worked: bool)
      requires Valid()
      modifies this`pairs
      ensures Valid() && pairs == RolledBack(old(pairs), scope)
      ensures worked <==> !NothingPending(old(pairs), scope)
    {
      worked := exists id :: id in pairs && Pending(scope, pairs[id]);
      if worked {
        pairs := map id | id in pairs ::
          if RollbackTouches(scope, pairs[id]) then pairs[id].(preBackup := None) else pairs[id];
      }
    }

    /** `KsmMarkBackup`. */
    method MarkBackup(scope: Scope, now: int) returns (worked: bool)
      requires Valid()
      modifies this`pairs
      ensures Valid() && pairs == Committed(old(pairs), scope, now)
      ensures worked <==> !NothingPending(old(pairs), scope)
    {
      worked := exists id :: id in pairs && Pending(scope, pairs[id]);
      if worked {
        pairs := map id | id in pairs ::
          if Pending(scope, pairs[id]) then pairs[id].(backup := Some(now)) else pairs[id];
      }
      assert pairs.Keys == old(pairs).Keys;
      assert forall id :: id in pairs ==> pairs[id] == Committed(old(pairs), scope, now)[id];
    }
  }

  /** A row for an unallocated pair keeps (zone, pair) unique, and pairs unshared unless sharing is on. */
  lemma AllocationKeepsUnique(db: Db, s: Spec, zone: int, shared: bool, id: int, kind: KeyType)
    requires Linked(db) && Unique(db.rows) && Unallocated(db, s, zone, shared, id)
    ensures var more := db.rows + [NewRow(id, zone, kind)];
      && Linked(db.(rows := more)) && Unique(more) && Fits(db.pairs[id], s) && (!shared && Unshared(db.rows) ==>
          Unshared(more))
  {
  }

  lemma MovedKeepsKeys(rows: seq<Row>, q: Clause, dst: State, now: int)
    ensures forall i :: 0 <= i < |rows| ==>
      Moved(rows, q, dst, now)[i].pair == rows[i].pair && Moved(rows, q, dst, now)[i].zone == rows[i].zone
  {
  }

  lemma MovedNKeepsKeys(rows: seq<Row>, q: Clause, n: nat, dst: State, now: int)
    ensures forall i :: 0 <= i < |rows| ==>
      MovedN(rows, q, n, dst, now)[i].pair == rows[i].pair && MovedN(rows, q, n, dst, now)[i].zone == rows[i].zone
  {
  }

  /** A selected row is preceded by fewer selected rows than there are in all. */
  lemma CountAtIndex(rows: seq<Row>, q: Clause, i: nat)
    requires i < |rows| && Matches(q, rows[i])
    ensures Count(rows[..i], q) < Count(rows, q)
  {
    CountPrefixLe(rows, q, i + 1);
    assert rows[..i + 1][..i] == rows[..i];
  }
}
