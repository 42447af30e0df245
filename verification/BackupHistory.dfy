/** Backups over whole runs: a key that signs from a repository requiring backups has been backed up. */
module BackupHistory {
  import opened Tables
  import opened Update
  import opened Request
  import opened Moves
  import opened Supply
  import opened KeyRoll
  import opened Runs
  import opened RequestSteps
  import opened SharedRuns
  import Zsk
  import Backup

  // ---- Activation respects the backup rule ----

  lemma SwitchedBackedUp(db: Db, rolling: bool, firstPass: bool, c: Call, i: nat)
    requires i < |db.rows| && db.rows[i].state != Active
    requires |Switched(db, ZSK, rolling, firstPass, c).1| == |db.rows|
    requires Switched(db, ZSK, rolling, firstPass, c).1[i].state == Active
    ensures !LacksBackup(db.pairs, db.rows[i].pair, c.needsBackup)
  {
    hide Count;
  }

  lemma PassBackedUp(db: Db, rollover: bool, c: Call, newDs: bool, i: nat)
    requires i < |db.rows| && db.rows[i].state != Active
    requires |ByType(db, ZSK, rollover, c, newDs).db.rows| == |db.rows|
    requires ByType(db, ZSK, rollover, c, newDs).db.rows[i].state == Active
    ensures !LacksBackup(db.pairs, db.rows[i].pair, c.needsBackup)
  {
    hide Staged, Switched, StagedNewDs, Issue, Count;
    var firstPass := IsFirstPass(db.rows, ZSK, c.zone);
    var marked := if rollover then Marked(db, ZSK, c) else db;
    var staged := marked.(rows := Staged(marked.rows, ZSK, firstPass, c, newDs));
    Zsk.ZskStaged(marked.rows, firstPass, c, newDs);
    var r, s := marked.rows[i], staged.rows[i];
    assert if Zsk.IsZsk(r, c.zone) then Zsk.StagedRow(r, s, c.now) else s == r;
    SwitchedBackedUp(staged, rollover || Compromised(db, ZSK, c.zone), firstPass, c, i);
  }

  /** A pass leaves the states of the other key type alone, whatever is shared. */
  lemma PassKeepsStates(db: Db, kind: KeyType, rollover: bool, c: Call, newDs: bool)
    ensures var rows := ByType(db, kind, rollover, c, newDs).db.rows;
      && |rows| == |db.rows|
      && forall i :: 0 <= i < |rows| ==>
           SameKey(db.rows[i], rows[i]) && (db.rows[i].kind != kind ==> rows[i].state == db.rows[i].state)
  {
    hide Staged, Switched, StagedNewDs, Issue;
    var firstPass := IsFirstPass(db.rows, kind, c.zone);
    var marked := if rollover then Marked(db, kind, c) else db;
    var staged := marked.(rows := Staged(marked.rows, kind, firstPass, c, newDs));
    StagedRises(marked.rows, kind, firstPass, c, newDs);
    SwitchedRises(staged, kind, rollover || Compromised(db, kind, c.zone), firstPass, c);
  }

  /** The backup columns of a pair. */
  predicate SameBackup(a: KeyPair, b: KeyPair) {
    a.repository == b.repository && a.preBackup == b.preBackup && a.backup == b.backup
  }

  predicate BackupsKept(a: map<int, KeyPair>, b: map<int, KeyPair>) {
    b.Keys == a.Keys && forall k :: k in a ==> SameBackup(a[k], b[k])
  }

  lemma PassKeepsBackups(db: Db, kind: KeyType, rollover: bool, c: Call, newDs: bool)
    ensures BackupsKept(db.pairs, ByType(db, kind, rollover, c, newDs).db.pairs)
  {
    hide ByType;
    PassPairs(db, kind, rollover, c, newDs);
  }

  lemma RequestKeepsBackups(db: Db, kinds: Kinds, rollover: bool, c: Call, newDs: bool)
    ensures BackupsKept(db.pairs, Handled(db, kinds, rollover, c, newDs).db.pairs)
  {
    hide ByType, Updated;
    var kind := if kinds.Both? then KSK else kinds.kind;
    var first := ByType(WithDates(db, c), kind, rollover, c, newDs);
    PassKeepsBackups(WithDates(db, c), kind, rollover, c, newDs);
    PassKeepsBackups(first.db, ZSK, rollover, c, first.newDs);
  }

  /** A ZSK that a request makes active has a backup if its repository requires one, over tables of any kind. */
  lemma ActivatedIsBackedUp(db: Db, kinds: Kinds, rollover: bool, c: Call, newDs: bool, i: nat)
    requires i < |db.rows| && db.rows[i].kind.ZSK? && db.rows[i].state != Active
    requires |Handled(db, kinds, rollover, c, newDs).db.rows| == |db.rows|
    requires Handled(db, kinds, rollover, c, newDs).db.rows[i].state == Active
    ensures !LacksBackup(db.pairs, db.rows[i].pair, c.needsBackup)
  {
    hide ByType, Updated;
    var dated := WithDates(db, c);
    SameStates(db, c);
    var kind := if kinds.Both? then KSK else kinds.kind;
    var first := ByType(dated, kind, rollover, c, newDs);
    PassKeepsStates(dated, kind, rollover, c, newDs);
    PassKeepsBackups(dated, kind, rollover, c, newDs);
    SameStates(first.db, c);
    if first.db.rows[i].state == Active {
      assert kind.ZSK?;
      PassBackedUp(dated, rollover, c, newDs, i);
    } else {
      var second := ByType(first.db, ZSK, rollover, c, first.newDs);
      PassKeepsStates(first.db, ZSK, rollover, c, first.newDs);
      SameStates(second.db, c);
      PassBackedUp(first.db, rollover, c, first.newDs, i);
      assert first.db.rows[i].pair == db.rows[i].pair;
    }
  }

  lemma SameStates(db: Db, c: Call)
    ensures forall i :: 0 <= i < |db.rows| ==>
      var r := Updated(db, c.policy, c.zone)[i]; r.state == db.rows[i].state && SameKey(db.rows[i], r)
  {
  }

  // ---- Histories ----

  /** The pair existed when event i prepared its repository, and no later event before n rolled that back. */
  predicate PreparedAt(ws: seq<World>, es: seq<Event>, k: int, repository: int, i: nat, n: nat)
    requires |es| < |ws| && n <= |es|
  {
    && i < n && es[i].Prepare? && (es[i].scope.None? || es[i].scope.value == repository)
    && k in ws[i].db.pairs && ws[i].db.pairs[k].repository == repository
    && forall m :: i < m < n ==> es[m] != Rollback(Some(repository))
  }

  /** ... and event j then committed it. */
  predicate CommittedAt(ws: seq<World>, es: seq<Event>, k: int, repository: int, i: nat, j: nat, n: nat)
    requires |es| < |ws| && n <= |es|
  {
    && i < j < n && PreparedAt(ws, es, k, repository, i, j)
    && es[j].Commit? && (es[j].scope.None? || es[j].scope.value == repository)
  }

  /** What the backup columns of a pair say about the events so far. */
  ghost predicate Accounted(ws: seq<World>, es: seq<Event>, k: int, n: nat)
    requires |es| < |ws| && n <= |es|
  {
    k in ws[n].db.pairs ==>
      var p := ws[n].db.pairs[k];
      && (p.preBackup.Some? && p.backup.None? ==>
            exists i: nat :: PreparedAt(ws, es, k, p.repository, i, n))
      && (p.backup.Some? ==> exists i: nat, j: nat :: CommittedAt(ws, es, k, p.repository, i, j, n))
  }

  predicate NoBackupsYet(w: World) {
    forall k :: k in w.db.pairs ==> w.db.pairs[k].preBackup.None? && w.db.pairs[k].backup.None?
  }

  /** Events other than prepare, rollback and commit leave the backup columns of existing pairs alone and give
      new pairs none. */
  lemma OtherEventsKeepBackups(w: World, e: Event, k: int)
    requires Tidy(w) && !e.Prepare? && !e.Rollback? && !e.Commit? && k in Exec(w, e).db.pairs
    ensures
      var p := Exec(w, e).db.pairs[k];
      if k in w.db.pairs then SameBackup(w.db.pairs[k], p) else p.preBackup.None? && p.backup.None?
  {
    hide Handled, RolledAll, Selection;
    if e.KeyRequest? {
      RequestKeepsBackups(w.db, e.kinds, e.rollover, e.call, e.newDs);
    } else if e.Roll? {
      RollKeepsPairs(w.db, Selection(w.db, e.targets, w.db.rows), e.targets.policy, e.now, e.loose);
    }
  }

  lemma PreparedLater(ws: seq<World>, es: seq<Event>, k: int, repository: int, i: nat, n: nat)
    requires |es| < |ws| && n < |es| && PreparedAt(ws, es, k, repository, i, n) && es[n] != Rollback(Some(repository))
    ensures PreparedAt(ws, es, k, repository, i, n + 1)
  {
  }

  lemma {:induction false} RunAccounted(ws: seq<World>, es: seq<Event>, k: int, n: nat)
    requires SharedRun(ws, es) && Tidy(ws[0]) && NoBackupsYet(ws[0]) && n < |ws|
    ensures Accounted(ws, es, k, n)
  {
    hide Tidy, Possible, Handled;
    if n > 0 && k in ws[n].db.pairs {
      RunAccounted(ws, es, k, n - 1);
      RunTidy(ws, es, n - 1);
      AccountedStep(ws, es, k, n - 1);
    }
  }

  lemma AccountedStep(ws: seq<World>, es: seq<Event>, k: int, n: nat)
    requires SharedRun(ws, es) && n < |es| && Tidy(ws[n]) && Accounted(ws, es, k, n) && k in ws[n + 1].db.pairs
    ensures Accounted(ws, es, k, n + 1)
  {
    hide Handled, PreparedAt, Possible, Purged, Marked, Tidy;
    var w, e, p := ws[n], es[n], ws[n + 1].db.pairs[k];
    if e.Prepare? || e.Rollback? || e.Commit? {
      assert k in w.db.pairs && w.db.pairs[k].repository == p.repository;
    } else {
      OtherEventsKeepBackups(w, e, k);
    }
    if p.backup.Some? {
      if k in w.db.pairs && w.db.pairs[k].backup.Some? {
        var i: nat, j: nat :| CommittedAt(ws, es, k, p.repository, i, j, n);
        assert CommittedAt(ws, es, k, p.repository, i, j, n + 1);
      } else {
        assert e.Commit?;
        var i: nat :| PreparedAt(ws, es, k, p.repository, i, n);
        PreparedBefore(ws, es, k, p.repository, i, n);
        assert CommittedAt(ws, es, k, p.repository, i, n, n + 1);
      }
    } else if p.preBackup.Some? {
      if k in w.db.pairs && w.db.pairs[k].preBackup.Some? {
        var i: nat :| PreparedAt(ws, es, k, p.repository, i, n);
        NotRolledBack(w, e, k);
        PreparedLater(ws, es, k, p.repository, i, n);
      } else {
        assert e.Prepare?;
        PreparedNow(ws, es, k, n);
      }
    }
  }

  lemma PreparedBefore(ws: seq<World>, es: seq<Event>, k: int, repository: int, i: nat, n: nat)
    requires |es| < |ws| && n <= |es| && PreparedAt(ws, es, k, repository, i, n)
    ensures i < n
  {
  }

  lemma PreparedNow(ws: seq<World>, es: seq<Event>, k: int, n: nat)
    requires |es| < |ws| && n < |es| && es[n].Prepare? && k in ws[n].db.pairs
    requires Backup.Covers(es[n].scope, ws[n].db.pairs[k])
    ensures PreparedAt(ws, es, k, ws[n].db.pairs[k].repository, n, n + 1)
  {
  }

  /** A pair whose preparation survives an event was not rolled back by it. */
  lemma NotRolledBack(w: World, e: Event, k: int)
    requires k in w.db.pairs && w.db.pairs[k].preBackup.Some? && w.db.pairs[k].backup.None?
    requires k in Exec(w, e).db.pairs && Exec(w, e).db.pairs[k].preBackup.Some?
    ensures e != Rollback(Some(w.db.pairs[k].repository))
  {
    hide Handled, Purged, Marked;
  }

  /** In every run that starts without backups, pairs shared or not, a ZSK that request n makes active from a repository
      requiring backups had been covered by a prepare i and a commit j, in that order and with no rollback of the
      repository between them; the pair existed when it was prepared. */
  lemma SignerWasBackedUp(ws: seq<World>, es: seq<Event>, n: nat, x: nat) returns (i: nat, j: nat)
    requires SharedRun(ws, es) && Tidy(ws[0]) && NoBackupsYet(ws[0]) && n < |es| && es[n].KeyRequest?
    requires x < |ws[n].db.rows| && ws[n].db.rows[x].kind.ZSK? && ws[n].db.rows[x].state != Active
    requires x < |ws[n + 1].db.rows| && ws[n + 1].db.rows[x].state == Active
    requires ws[n].db.rows[x].pair in ws[n].db.pairs
    requires ws[n].db.pairs[ws[n].db.rows[x].pair].repository in es[n].call.needsBackup
    ensures var k := ws[n].db.rows[x].pair;
      CommittedAt(ws, es, k, ws[n].db.pairs[k].repository, i, j, n)
  {
    hide Handled, Accounted, Tidy, Possible;
    var e := es[n];
    var k := ws[n].db.rows[x].pair;
    RequestConservesKeys(ws[n].db, e.kinds, e.rollover, e.call, e.newDs);
    ActivatedIsBackedUp(ws[n].db, e.kinds, e.rollover, e.call, e.newDs, x);
    RunAccounted(ws, es, k, n);
    i, j := CommitOf(ws, es, k, n);
  }

  lemma CommitOf(ws: seq<World>, es: seq<Event>, k: int, n: nat) returns (i: nat, j: nat)
    requires |es| < |ws| && n <= |es| && Accounted(ws, es, k, n)
    requires k in ws[n].db.pairs && ws[n].db.pairs[k].backup.Some?
    ensures CommittedAt(ws, es, k, ws[n].db.pairs[k].repository, i, j, n)
  {
    i, j :| CommittedAt(ws, es, k, ws[n].db.pairs[k].repository, i, j, n);
  }

  // ---- A commit lasts ----

  lemma WasThere(w: World, e: Event, k: int)
    requires k < w.nextId && k in Exec(w, e).db.pairs
    ensures k in w.db.pairs && w.nextId <= Exec(w, e).nextId
  {
    hide Handled, RolledAll, Selection, Purged;
    if e.KeyRequest? {
      RequestKeepsBackups(w.db, e.kinds, e.rollover, e.call, e.newDs);
      assert k in w.db.pairs.Keys;
    } else if e.Roll? {
      RollKeepsPairs(w.db, Selection(w.db, e.targets, w.db.rows), e.targets.policy, e.now, e.loose);
    } else if e.Purge? {
      PurgedPairs(w.db, e.owner, e.limit);
    }
  }

  lemma PurgedPairs(db: Db, owner: Option<int>, limit: int)
    ensures forall k :: k in Purged(db, owner, limit).pairs ==> k in db.pairs
  {
  }

  /** Ids are not used again: a pair that is there at both ends of a stretch is there all along. */
  lemma {:induction false} ThereAllAlong(ws: seq<World>, es: seq<Event>, k: int, i: nat, n: nat)
    requires SharedRun(ws, es) && Tidy(ws[0]) && i <= n < |ws| && k in ws[i].db.pairs && k in ws[n].db.pairs
    ensures forall m :: i <= m <= n ==> k in ws[m].db.pairs
    decreases n - i
  {
    hide Exec, Possible, Tidy;
    if i < n {
      HandedOut(ws, es, k, i, n - 1);
      WasThere(ws[n - 1], es[n - 1], k);
      ThereAllAlong(ws, es, k, i, n - 1);
    }
  }

  lemma {:induction false} HandedOut(ws: seq<World>, es: seq<Event>, k: int, i: nat, n: nat)
    requires SharedRun(ws, es) && Tidy(ws[0]) && i <= n < |ws| && k in ws[i].db.pairs
    ensures k < ws[n].nextId
    decreases n - i
  {
    hide Exec, Possible;
    RunTidy(ws, es, i);
    if i < n {
      HandedOut(ws, es, k, i, n - 1);
      IdsGrow(ws[n - 1], es[n - 1]);
    }
  }

  lemma IdsGrow(w: World, e: Event)
    ensures w.nextId <= Exec(w, e).nextId
  {
    hide Handled, RolledAll, Selection, Purged;
  }

  /** Every event keeps a backup, and every event but a rollback of its repository keeps a preparation; a prepare
      or a commit that names its repository, or all, makes one. */
  lemma BackupStep(w: World, e: Event, k: int)
    requires Tidy(w) && k in w.db.pairs && k in Exec(w, e).db.pairs
    ensures var p, q := w.db.pairs[k], Exec(w, e).db.pairs[k];
      && q.repository == p.repository
      && (p.backup.Some? ==> q.backup.Some?)
      && (p.preBackup.Some? && e != Rollback(Some(p.repository)) ==> q.preBackup.Some?)
      && (e.Prepare? && e.scope in {None, Some(p.repository)} ==> q.preBackup.Some?)
      && (e.Commit? && e.scope in {None, Some(p.repository)} && p.preBackup.Some? ==> q.backup.Some?)
  {
    hide Handled, RolledAll, Selection, Purged, Tidy;
    if e.Prepare? || e.Rollback? || e.Commit? {
      Backup.StatementsExact(w.db.pairs, e.scope, if e.Rollback? then 0 else e.now);
    } else {
      OtherEventsKeepBackups(w, e, k);
    }
  }

  lemma {:induction false} StaysPrepared(ws: seq<World>, es: seq<Event>, k: int, r: int, i: nat, j: nat)
    requires SharedRun(ws, es) && Tidy(ws[0]) && j < |ws| && PreparedAt(ws, es, k, r, i, j)
    requires forall m :: i <= m <= j ==> k in ws[m].db.pairs
    ensures ws[j].db.pairs[k].preBackup.Some? && ws[j].db.pairs[k].repository == r
    decreases j
  {
    hide Exec, Possible, Tidy;
    RunTidy(ws, es, j - 1);
    assert ws[j] == Exec(ws[j - 1], es[j - 1]) && k in ws[j].db.pairs;
    BackupStep(ws[j - 1], es[j - 1], k);
    if i + 1 < j {
      StaysPrepared(ws, es, k, r, i, j - 1);
    }
  }

  lemma {:induction false} StaysBackedUp(ws: seq<World>, es: seq<Event>, k: int, r: int, i: nat, j: nat, n: nat)
    requires SharedRun(ws, es) && Tidy(ws[0]) && n < |ws| && CommittedAt(ws, es, k, r, i, j, n)
    requires forall m :: i <= m <= n ==> k in ws[m].db.pairs
    ensures ws[n].db.pairs[k].backup.Some? && ws[n].db.pairs[k].repository == r
    decreases n
  {
    hide Exec, Possible, Tidy;
    RunTidy(ws, es, n - 1);
    assert ws[n] == Exec(ws[n - 1], es[n - 1]) && k in ws[n].db.pairs;
    BackupStep(ws[n - 1], es[n - 1], k);
    if j + 1 < n {
      StaysBackedUp(ws, es, k, r, i, j, n - 1);
    } else {
      StaysPrepared(ws, es, k, r, i, j);
    }
  }

  /** In every run that starts without backups, pairs shared or not: a pair has a backup date if and only if it was
      there at a prepare of its repository or of all, and a commit of its repository or of all came later, with no
      rollback of the repository between them. */
  lemma BackedUpIff(ws: seq<World>, es: seq<Event>, n: nat, k: int)
    requires SharedRun(ws, es) && Tidy(ws[0]) && NoBackupsYet(ws[0]) && n < |ws| && k in ws[n].db.pairs
    ensures |ws| == |es| + 1
    ensures ws[n].db.pairs[k].backup.Some? <==>
      exists i: nat, j: nat ::
        && i < j < n && k in ws[i].db.pairs
        && es[i].Prepare? && es[i].scope in {None, Some(ws[i].db.pairs[k].repository)}
        && es[j].Commit? && es[j].scope in {None, Some(ws[i].db.pairs[k].repository)}
        && forall m :: i < m < j ==> es[m] != Rollback(Some(ws[i].db.pairs[k].repository))
  {
    hide SharedRun, Accounted, Tidy;
    RunLength(ws, es);
    if ws[n].db.pairs[k].backup.Some? {
      RunAccounted(ws, es, k, n);
      var i, j := CommitOf(ws, es, k, n);
    }
    forall i: nat, j: nat |
      && i < j < n && k in ws[i].db.pairs
      && es[i].Prepare? && es[i].scope in {None, Some(ws[i].db.pairs[k].repository)}
      && es[j].Commit? && es[j].scope in {None, Some(ws[i].db.pairs[k].repository)}
      && forall m :: i < m < j ==> es[m] != Rollback(Some(ws[i].db.pairs[k].repository))
      ensures ws[n].db.pairs[k].backup.Some?
    {
      ThereAllAlong(ws, es, k, i, n);
      StaysBackedUp(ws, es, k, ws[i].db.pairs[k].repository, i, j, n);
    }
  }

  /** In every run, pairs shared or not, a pair that was created only after the preparations of its repository has no
      backup, whatever was committed since. */
  lemma LateKeyNotCommitted(ws: seq<World>, es: seq<Event>, n: nat, k: int)
    requires SharedRun(ws, es) && Tidy(ws[0]) && NoBackupsYet(ws[0]) && n < |ws| && k in ws[n].db.pairs
    requires forall m :: 0 <= m < n && es[m].Prepare? && Backup.Covers(es[m].scope, ws[n].db.pairs[k]) ==>
      k !in ws[m].db.pairs
    ensures ws[n].db.pairs[k].backup.None?
  {
    hide SharedRun, Accounted, Tidy;
    RunAccounted(ws, es, k, n);
    if ws[n].db.pairs[k].backup.Some? {
      RunLength(ws, es);
      var i, j := CommitOf(ws, es, k, n);
    }
  }

  lemma RunLength(ws: seq<World>, es: seq<Event>)
    requires SharedRun(ws, es)
    ensures |ws| == |es| + 1
  {
  }
}
