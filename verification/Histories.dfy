/** Histories of marked keys over whole runs: their retire dates stay fixed. */
module Histories {
  import opened Tables
  import opened Update
  import opened Request
  import opened Moves
  import opened Invariant
  import opened Supply
  import opened Runs
  import opened RequestSteps
  import opened KeyRoll
  import opened RollSteps
  import opened EventSteps
  import Theorems
  import Zsk
  import Ksk

  // ---- The retire date of a marked key ----

  /** The key's retire date is fixed, and the key marked as compromised. */
  predicate IsMarked(pairs: map<int, KeyPair>, r: Row) {
    HasFixedDate(pairs, r) && pairs[r.pair].compromised
  }

  /** The row is active, marked, and has the retire date t, or it is past being active. */
  predicate FixedRow(r: Row, pairs: map<int, KeyPair>, t: int) {
    r.state in {Retire, Dead} || (r.state == Active && r.retire == Some(t) && IsMarked(pairs, r))
  }

  /** The key has been handed out, and its row, while there is one, is a ZSK of the zone as above. */
  predicate FixedAt(w: World, zone: int, k: int, t: int) {
    && k < w.nextId && (k in w.db.pairs ==> Allocated(w.db.rows, k))
    && forall i :: 0 <= i < |w.db.rows| && w.db.rows[i].pair == k ==>
         Zsk.IsZsk(w.db.rows[i], zone) && FixedRow(w.db.rows[i], w.db.pairs, t)
  }

  /** The event forces a rollover of the key (again): a request with that option for the zone's ZSKs, or a roll
      command that selects the key. */
  predicate ForcesAgain(w: World, e: Event, zone: int, k: int) {
    || (e.KeyRequest? && e.rollover && e.call.zone == zone && e.kinds != Only(KSK))
    || (e.Roll? && k in Targets(w.db, e.targets))
  }

  /** An active ZSK with a fixed date in a pass that does not force a rollover. */
  lemma UnforcedPassRow(db: Db, c: Call, newDs: bool, i: nat)
    requires Good(db, c.now) && i < |db.rows| && Zsk.IsZsk(db.rows[i], c.zone)
    requires db.rows[i].state in {Active, Retire, Dead}
    ensures var out := ByType(db, ZSK, false, c, newDs);
      |out.db.rows| == |db.rows| && (out.db.rows[i] == db.rows[i] || out.db.rows[i].state in {Retire, Dead})
  {
    hide Staged, Switched, StagedNewDs, Issue, Count;
    var firstPass := IsFirstPass(db.rows, ZSK, c.zone);
    var s := Staged(db.rows, ZSK, firstPass, c, newDs);
    Zsk.ZskStaged(db.rows, firstPass, c, newDs);
    assert Zsk.StagedRow(db.rows[i], s[i], c.now);
    UnforcedSwitch(db.(rows := s), Compromised(db, ZSK, c.zone), firstPass, c, i);
  }

  lemma UnforcedSwitch(db: Db, rolling: bool, firstPass: bool, c: Call, i: nat)
    requires i < |db.rows| && Zsk.IsZsk(db.rows[i], c.zone) && db.rows[i].state in {Active, Retire, Dead}
    ensures var t := Switched(db, ZSK, rolling, firstPass, c).1;
      |t| == |db.rows| && (t[i] == db.rows[i] || t[i].state == Retire)
  {
    hide Count;
  }

  /** What an unforced request does to an active, retired or dead ZSK: nothing, or retire or bury it. */
  lemma UnforcedRequestRow(db: Db, kinds: Kinds, rollover: bool, c: Call, newDs: bool, i: nat)
    requires Good(db, c.now) && i < |db.rows| && db.rows[i].kind.ZSK? && db.rows[i].state in {Active, Retire, Dead}
    requires db.rows[i].state == Active ==> HasFixedDate(db.pairs, db.rows[i])
    requires rollover ==> c.zone != db.rows[i].zone || kinds == Only(KSK)
    ensures var rows := Handled(db, kinds, rollover, c, newDs).db.rows;
      |rows| == |db.rows| && (rows[i] == db.rows[i] || rows[i].state in {Retire, Dead})
  {
    hide ByType, Updated;
    var dated := WithDates(db, c);
    UpdatedOk(db, c.policy, c.zone, c.now);
    UpdatedRises(db, c.policy, c.zone);
    UnsharedRises(db.rows, dated.rows);
    UpdatedFixed(db, c, i);
    var kind := if kinds.Both? then KSK else kinds.kind;
    var first := ByType(dated, kind, rollover, c, newDs);
    ByTypeOk(dated, kind, rollover, c, newDs);
    UnforcedOnePass(dated, kind, rollover, c, newDs, i);
    PassFlags(dated, kind, rollover, c, newDs, i);
    UpdatedFixed(first.db, c, i);
    if kinds.Both? {
      var second := ByType(first.db, ZSK, rollover, c, first.newDs);
      UnforcedOnePass(first.db, ZSK, rollover, c, first.newDs, i);
      PassFlags(first.db, ZSK, rollover, c, first.newDs, i);
      UpdatedFixed(second.db, c, i);
    }
  }

  /** A fixed date is never recomputed. */
  lemma UpdatedFixed(db: Db, c: Call, i: nat)
    requires i < |db.rows| && db.rows[i].state in {Active, Retire, Dead}
    requires db.rows[i].state == Active ==> HasFixedDate(db.pairs, db.rows[i])
    ensures var r := Updated(db, c.policy, c.zone)[i];
      r.state == db.rows[i].state && SameKey(r, db.rows[i]) && (r.state == Active ==> r == db.rows[i])
      && (r.state == Dead ==> r == db.rows[i])
  {
  }

  lemma UnforcedOnePass(db: Db, kind: KeyType, rollover: bool, c: Call, newDs: bool, i: nat)
    requires Good(db, c.now) && i < |db.rows| && db.rows[i].kind.ZSK? && db.rows[i].state in {Active, Retire, Dead}
    requires rollover ==> c.zone != db.rows[i].zone || kind.KSK?
    ensures var rows := ByType(db, kind, rollover, c, newDs).db.rows;
      |rows| == |db.rows| && SameKey(rows[i], db.rows[i]) && (rows[i] == db.rows[i] || rows[i].state in {Retire, Dead})
  {
    hide ByType;
    PassElsewhere(db, kind, rollover, c, newDs);
    assert SameKey(db.rows[i], ByType(db, kind, rollover, c, newDs).db.rows[i]);
    if kind.ZSK? && c.zone == db.rows[i].zone {
      UnforcedPassRow(db, c, newDs, i);
    }
  }

  /** Fixed dates stay fixed. */
  lemma PassFlags(db: Db, kind: KeyType, rollover: bool, c: Call, newDs: bool, i: nat)
    requires Good(db, c.now) && i < |db.rows|
    ensures HasFixedDate(db.pairs, db.rows[i]) ==>
        HasFixedDate(ByType(db, kind, rollover, c, newDs).db.pairs, db.rows[i])
  {
    hide ByType;
    PassPairs(db, kind, rollover, c, newDs);
  }

  lemma {:induction false} HandledFlags(db: Db, kinds: Kinds, rollover: bool, c: Call, newDs: bool, i: nat)
    requires Good(db, c.now) && i < |db.rows| && IsMarked(db.pairs, db.rows[i])
    ensures IsMarked(Handled(db, kinds, rollover, c, newDs).db.pairs, db.rows[i])
  {
    hide ByType, Updated;
    var dated := WithDates(db, c);
    var kind := if kinds.Both? then KSK else kinds.kind;
    PassPairs(dated, kind, rollover, c, newDs);
    var first := ByType(dated, kind, rollover, c, newDs);
    PassPairs(first.db, ZSK, rollover, c, first.newDs);
  }

  lemma FixedRequest(w: World, kinds: Kinds, rollover: bool, c: Call, newDs: bool, z: int, zone: int, k: int, t: int)
    requires Inv(w, z) && w.clock <= c.now && FixedAt(w, zone, k, t)
    requires !ForcesAgain(w, KeyRequest(kinds, rollover, c, newDs), zone, k)
    ensures FixedAt(Exec(w, KeyRequest(kinds, rollover, c, newDs)), zone, k, t)
  {
    hide Handled, SignerOk, HasLife, HasKskLife, Good;
    var w' := Exec(w, KeyRequest(kinds, rollover, c, newDs));
    GoodLater(w.db, w.clock, c.now);
    RequestConservesKeys(w.db, kinds, rollover, c, newDs);
    assert SameKeys(w.db.rows, w'.db.rows);
    if k in w.db.pairs {
      SameKeysAllocated(w.db.rows, w'.db.rows, k);
    }
    forall i | 0 <= i < |w'.db.rows| && w'.db.rows[i].pair == k
      ensures Zsk.IsZsk(w'.db.rows[i], zone) && FixedRow(w'.db.rows[i], w'.db.pairs, t)
    {
      assert SameKey(w.db.rows[i], w'.db.rows[i]);
      UnforcedRequestRow(w.db, kinds, rollover, c, newDs, i);
      if w.db.rows[i].state == Active {
        HandledFlags(w.db, kinds, rollover, c, newDs, i);
      }
    }
  }

  lemma FixedPurge(w: World, owner: Option<int>, limit: int, z: int, zone: int, k: int, t: int)
    requires Inv(w, z) && FixedAt(w, zone, k, t)
    ensures FixedAt(Exec(w, Purge(owner, limit)), zone, k, t)
  {
    hide SignerOk, HasLife, HasKskLife, Purged, RowsOk;
    var w' := Exec(w, Purge(owner, limit));
    var gone := PurgeSet(w.db, owner, limit);
    PurgeReduces(w.db, owner, limit);
    ReducedAllocated(w.db, w'.db, gone, k);
    forall i | 0 <= i < |w'.db.rows| && w'.db.rows[i].pair == k
      ensures Zsk.IsZsk(w'.db.rows[i], zone) && FixedRow(w'.db.rows[i], w'.db.pairs, t)
    {
      assert w'.db.rows[i] in w'.db.rows;
      var m :| 0 <= m < |w.db.rows| && w.db.rows[m] == w'.db.rows[i];
    }
  }

  lemma FixedRoll(w: World, s: RollScope, now: int, loose: set<int>, z: int, zone: int, k: int, t: int)
    requires Inv(w, z) && w.clock <= now && FixedAt(w, zone, k, t) && k !in Targets(w.db, s)
    ensures FixedAt(Exec(w, Roll(s, now, loose)), zone, k, t)
  {
    hide SignerOk, HasLife, HasKskLife, RowsOk, KeyRolled, Rolled, Hurried;
    var w' := Exec(w, Roll(s, now, loose));
    var ids := Targets(w.db, s);
    KeyRolledRolls(w.db, s, now, loose);
    RolledKeys(w.db, w'.db, now, ids);
    if k in w.db.pairs {
      SameKeysAllocated(w.db.rows, w'.db.rows, k);
    }
    RolledPairAt(w.db, w'.db, now, ids, k);
    forall i | 0 <= i < |w'.db.rows| && w'.db.rows[i].pair == k
      ensures Zsk.IsZsk(w'.db.rows[i], zone) && FixedRow(w'.db.rows[i], w'.db.pairs, t)
    {
      RolledAt(w.db, w'.db, now, ids, i);
    }
  }

  lemma FixedOther(w: World, e: Event, z: int, zone: int, k: int, t: int)
    requires Inv(w, z) && Enabled(w, e) && FixedAt(w, zone, k, t) && !ForcesAgain(w, e, zone, k)
    requires !e.KeyRequest? && !e.Purge?
    ensures FixedAt(Exec(w, e), zone, k, t)
  {
    hide SignerOk, HasLife, HasKskLife, RowsOk, Handled, Purged;
    match e
    case Allocate(zone', kind, id) =>
      AllocatedAppend(w.db.rows, NewRow(id, zone', kind), k);
      assert forall i :: 0 <= i < |w.db.rows| ==> Exec(w, e).db.rows[i] == w.db.rows[i];
    case Roll(targets, now, loose) =>
      FixedRoll(w, targets, now, loose, z, zone, k, t);
    case DsSeen(zone', id, now, p) =>
      assert SameKeys(w.db.rows, Exec(w, e).db.rows);
      if k in w.db.pairs {
        SameKeysAllocated(w.db.rows, Exec(w, e).db.rows, k);
      }
    case RetireOld(zone', id, now, p) =>
      assert SameKeys(w.db.rows, Exec(w, e).db.rows);
      if k in w.db.pairs {
        SameKeysAllocated(w.db.rows, Exec(w, e).db.rows, k);
      }
    case _ =>
  }

  /** After a forced rollover has fixed the retire date of the active ZSK, no event of any run moves that date
      while the key is active, short of forcing a rollover again. */
  lemma {:induction false} RetireDateStaysFixed(ws: seq<World>, es: seq<Event>, z: int, start: nat, n: nat,
      zone: int, k: int, t: int)
    requires Run(ws, es) && Initial(ws[0], z) && start <= n < |ws|
    requires FixedAt(ws[start], zone, k, t)
    requires forall i :: start <= i < n ==> !ForcesAgain(ws[i], es[i], zone, k)
    ensures FixedAt(ws[n], zone, k, t)
  {
    hide Inv, Exec, Enabled, Initial, FixedAt, ForcesAgain;
    if start < n {
      RetireDateStaysFixed(ws, es, z, start, n - 1, zone, k, t);
      var w, e := ws[n - 1], es[n - 1];
      RunInv(ws, es, z, n - 1);
      if e.KeyRequest? {
        RequestClock(w, e);
        FixedRequest(w, e.kinds, e.rollover, e.call, e.newDs, z, zone, k, t);
      } else if e.Purge? {
        FixedPurge(w, e.owner, e.limit, z, zone, k, t);
      } else {
        FixedOther(w, e, z, zone, k, t);
      }
    }
  }

  lemma RequestClock(w: World, e: Event)
    requires Enabled(w, e) && e.KeyRequest?
    ensures w.clock <= e.call.now
  {
  }

  /** The roll command establishes that situation for every active ZSK that it selects. */
  lemma RollFixesDate(w: World, s: RollScope, now: int, loose: set<int>, z: int, i: nat)
    requires Inv(w, z) && w.clock <= now && i < |w.db.rows| && w.db.rows[i].kind.ZSK? && Selects(w.db, s, w.db.rows[i])
    ensures FixedAt(Exec(w, Roll(s, now, loose)), w.db.rows[i].zone, w.db.rows[i].pair, now)
  {
    hide SignerOk, HasLife, HasKskLife, RowsOk, KeyRolled, Rolled, Hurried;
    var w' := Exec(w, Roll(s, now, loose));
    var ids, k := Targets(w.db, s), w.db.rows[i].pair;
    assert k in ids;
    KeyRolledRolls(w.db, s, now, loose);
    RolledKeys(w.db, w'.db, now, ids);
    Theorems.PairOfRow(w.db, w.clock, i);
    assert Allocated(w.db.rows, k);
    SameKeysAllocated(w.db.rows, w'.db.rows, k);
    var rows := w'.db.rows;
    var j :| 0 <= j < |rows| && rows[j].pair == k && rows[j].state == Active && rows[j].retire == Some(now);
    UniqueRow(w.db, w'.db, i);
    RolledAt(w.db, w'.db, now, ids, i);
  }

  /** So does a request with the rollover option, whether it finds a successor or not: the zone's signing key is then
      retired, or active with the date now. */
  lemma RequestFixesDate(w: World, kinds: Kinds, c: Call, newDs: bool, i: nat)
    requires Inv(w, c.zone) && w.clock <= c.now && kinds != Only(KSK)
    requires i < |w.db.rows| && Zsk.Signs(w.db.rows[i], c.zone)
    ensures Handled(w.db, kinds, true, c, newDs).status == Ok
    ensures FixedAt(Exec(w, KeyRequest(kinds, true, c, newDs)), c.zone, w.db.rows[i].pair, c.now)
  {
    hide Handled, SignerOk, HasLife, HasKskLife, RowsOk, ZskInput, FlagInput;
    var w', k := Exec(w, KeyRequest(kinds, true, c, newDs)), w.db.rows[i].pair;
    GoodLater(w.db, w.clock, c.now);
    ForcedRequestRow(w.db, kinds, c, newDs, i);
    RequestConservesKeys(w.db, kinds, true, c, newDs);
    assert SameKeys(w.db.rows, w'.db.rows);
    Theorems.PairOfRow(w.db, w.clock, i);
    assert Allocated(w.db.rows, k);
    SameKeysAllocated(w.db.rows, w'.db.rows, k);
    UniqueRow(w.db, w'.db, i);
  }

  /** The signing key in a request with the rollover option. */
  lemma ForcedRequestRow(db: Db, kinds: Kinds, c: Call, newDs: bool, i: nat)
    requires Good(db, c.now) && kinds != Only(KSK) && i < |db.rows| && Zsk.Signs(db.rows[i], c.zone)
    ensures var out := Handled(db, kinds, true, c, newDs);
      && out.status == Ok && |out.db.rows| == |db.rows| && Zsk.IsZsk(out.db.rows[i], c.zone)
      && out.db.rows[i].pair == db.rows[i].pair && FixedRow(out.db.rows[i], out.db.pairs, c.now)
  {
    hide ByType, Updated, RowsOk, Count;
    var dated := WithDates(db, c);
    UpdatedOk(db, c.policy, c.zone, c.now);
    UpdatedRises(db, c.policy, c.zone);
    UnsharedRises(db.rows, dated.rows);
    Theorems.UpdatedStates(db, c.policy, c.zone);
    var input, flag := ZskInput(db, kinds, true, c, newDs), FlagInput(db, kinds, true, c, newDs);
    if kinds.Both? {
      Ksk.KskPass(dated, true, c, newDs);
      ByTypeOk(dated, KSK, true, c, newDs);
      PassElsewhere(dated, KSK, true, c, newDs);
      assert input.rows[i] == dated.rows[i];
    }
    ForcedPassRow(input, c, flag, i);
    var out := ByType(input, ZSK, true, c, flag);
    assert kinds.Only? ==> kinds.kind.ZSK? by { assert kinds.Only? && kinds.kind.KSK? ==> kinds == Only(KSK); }
    assert Handled(db, kinds, true, c, newDs).db == WithDates(out.db, c);
    UpdatedFixed(out.db, c, i);
  }

  lemma ForcedPassRow(db: Db, c: Call, newDs: bool, i: nat)
    requires Good(db, c.now) && i < |db.rows| && Zsk.Signs(db.rows[i], c.zone)
    ensures var out := ByType(db, ZSK, true, c, newDs);
      && out.status == Ok && |out.db.rows| == |db.rows| && SameKey(out.db.rows[i], db.rows[i])
      && IsMarked(out.db.pairs, db.rows[i]) && FixedRow(out.db.rows[i], out.db.pairs, c.now)
  {
    hide Staged, Switched, StagedNewDs, Issue, Count, RowsOk;
    Theorems.PairOfRow(db, c.now, i);
    LaterPass(db.rows, c, i);
    var marked := Marked(db, ZSK, c);
    MarkedUnshared(db, ZSK, c);
    assert Matches(InStates(c.zone, ZSK, {Active}), db.rows[i]);
    var s := Staged(marked.rows, ZSK, false, c, newDs);
    Zsk.ZskStaged(marked.rows, false, c, newDs);
    assert Zsk.StagedRow(marked.rows[i], s[i], c.now);
    UnforcedSwitch(marked.(rows := s), true, false, c, i);
    SwitchedKeepsKey(marked.(rows := s), true, c, i);
  }

  lemma LaterPass(rows: seq<Row>, c: Call, i: nat)
    requires i < |rows| && Zsk.Signs(rows[i], c.zone)
    ensures !IsFirstPass(rows, ZSK, c.zone)
  {
    CountPositive(rows, InStates(c.zone, ZSK, BEYOND_GENERATE), i);
  }

  lemma SwitchedKeepsKey(db: Db, rolling: bool, c: Call, i: nat)
    requires i < |db.rows|
    ensures var (status, t) := Switched(db, ZSK, rolling, false, c);
      status == Ok && |t| == |db.rows| && SameKey(t[i], db.rows[i])
  {
    hide BackupRefused;
  }
}
