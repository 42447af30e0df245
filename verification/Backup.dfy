/** The two-phase backup of key pairs: prepare, roll back, commit. */
module Backup {
  import opened Tables

  /** A repository, or all of them. */
  type Scope = Option<int>

  predicate Covers(scope: Scope, k: KeyPair) {
    scope.None? || scope.value == k.repository
  }

  predicate Unprepared(scope: Scope, k: KeyPair) {
    Covers(scope, k) && k.preBackup.None?
  }

  predicate Pending(scope: Scope, k: KeyPair) {
    Covers(scope, k) && k.preBackup.Some? && k.backup.None?
  }

  /** `KsmMarkPreBackup`. */
  function Prepared(pairs: map<int, KeyPair>, scope: Scope, now: int): map<int, KeyPair> {
    map id | id in pairs :: if Unprepared(scope, pairs[id]) then pairs[id].(preBackup := Some(now)) else pairs[id]
  }

  /** The rows that `KsmRollbackMarkPreBackup` updates. For one repository they are the pending ones; for all
      repositories the statement asks for rows that have no preparation date at all. */
  predicate RollbackTouches(scope: Scope, k: KeyPair) {
    if scope.Some? then Pending(scope, k) else k.preBackup.None? && k.backup.None?
  }

  /** `KsmRollbackMarkPreBackup`. */
  function RolledBack(pairs: map<int, KeyPair>, scope: Scope): map<int, KeyPair> {
    if forall id :: id in pairs ==> !Pending(scope, pairs[id]) then pairs
    else map id | id in pairs :: if RollbackTouches(scope, pairs[id]) then pairs[id].(preBackup := None) else pairs[id]
  }

  /** `KsmMarkBackup`. */
  function Committed(pairs: map<int, KeyPair>, scope: Scope, now: int): map<int, KeyPair> {
    map id | id in pairs :: if Pending(scope, pairs[id]) then pairs[id].(backup := Some(now)) else pairs[id]
  }

  /** Nothing prepared is left uncommitted in the scope. */
  predicate NothingPending(pairs: map<int, KeyPair>, scope: Scope) {
    forall id :: id in pairs ==> !Pending(scope, pairs[id])
  }

  /** Pair by pair, what the three statements write. A preparation dates the pairs of the repository, or of all, that
      have no preparation date; a commit dates those that have one and no backup date, and leaves none of them
      pending; a rollback of a repository takes the preparation date from these again. */
  lemma StatementsExact(pairs: map<int, KeyPair>, scope: Scope, now: int)
    ensures Prepared(pairs, scope, now).Keys == pairs.Keys == Committed(pairs, scope, now).Keys
    ensures RolledBack(pairs, scope).Keys == pairs.Keys
    ensures NothingPending(Committed(pairs, scope, now), scope)
    ensures forall id :: id in pairs ==>
      var k := pairs[id];
      var named := scope == None || scope == Some(k.repository);
      && Prepared(pairs, scope, now)[id]
           == (if named && k.preBackup == None then k.(preBackup := Some(now)) else k)
      && Committed(pairs, scope, now)[id]
           == (if named && k.preBackup != None && k.backup == None then k.(backup := Some(now)) else k)
      && RolledBack(pairs, scope)[id]
           == (if scope == Some(k.repository) && k.preBackup != None && k.backup == None then k.(preBackup := None)
               else k)
  {
    RollbackUndoesIff(pairs, scope);
  }

  /** Preparing and then committing: every pair in both scopes has a backup, dated by the commit unless it had one;
      and a pair that was never prepared gets none. */
  lemma PrepareThenCommit(pairs: map<int, KeyPair>, first: Scope, second: Scope, was: int, now: int)
    ensures var after := Committed(Prepared(pairs, first, was), second, now);
      forall id :: id in pairs ==>
        && id in after
        && (first in {None, Some(pairs[id].repository)} && second in {None, Some(pairs[id].repository)} ==>
              after[id].backup == if pairs[id].backup.Some? then pairs[id].backup else Some(now))
        && (pairs[id].preBackup.None? && first !in {None, Some(pairs[id].repository)} ==> after[id] == pairs[id])
        && (second !in {None, Some(pairs[id].repository)} ==> after[id].backup == pairs[id].backup)
  {
    StatementsExact(pairs, first, was);
    StatementsExact(Prepared(pairs, first, was), second, now);
  }

  /** A rollback undoes the preparation exactly when it names a repository; for all repositories at once it
      succeeds and changes nothing. */
  lemma RollbackUndoesIff(pairs: map<int, KeyPair>, scope: Scope)
    ensures NothingPending(RolledBack(pairs, scope), scope) <==> scope.Some? || NothingPending(pairs, scope)
    ensures scope.None? ==> RolledBack(pairs, scope) == pairs
  {
    var after := RolledBack(pairs, scope);
    if scope.Some? {
      forall id | id in after
        ensures !Pending(scope, after[id])
      {
      }
    } else {
      assert forall id :: id in pairs && RollbackTouches(scope, pairs[id]) ==>
          pairs[id].(preBackup := None) == pairs[id];
      assert after == pairs;
    }
  }

  /** Rolling a preparation back restores the table that it was made from, when nothing was pending before. */
  lemma RollbackInvertsPrepare(pairs: map<int, KeyPair>, repository: int, now: int)
    requires NothingPending(pairs, Some(repository))
    requires forall id :: id in pairs ==> (pairs[id].backup.Some? ==> pairs[id].preBackup.Some?)
    ensures RolledBack(Prepared(pairs, Some(repository), now), Some(repository)) == pairs
  {
    var scope := Some(repository);
    var prepared := Prepared(pairs, scope, now);
    var after := RolledBack(prepared, scope);
    assert after.Keys == pairs.Keys;
    forall id | id in pairs
      ensures after[id] == pairs[id]
    {
      if NothingPending(prepared, scope) {
        assert !Pending(scope, prepared[id]);
      }
    }
  }
}
