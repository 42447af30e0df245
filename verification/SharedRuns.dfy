/** Runs in which pairs may be shared between zones. A pair can be given to any zone that does not have it yet; apart
    from that the events are those of `Runs`. All that is known of the tables is that (zone, pair) is unique and that
    ids are handed out in order. */
module SharedRuns {
  import opened Tables
  import opened Request
  import opened Moves
  import opened Supply
  import opened KeyRoll
  import opened Runs

  /** The zone has no row of the pair. */
  predicate Lacks(rows: seq<Row>, zone: int, id: int) {
    forall i :: 0 <= i < |rows| ==> !IsKey(rows[i], zone, id)
  }

  /** The event can happen, sharing allowed. */
  predicate Possible(w: World, e: Event) {
    if e.Allocate? then e.id in w.db.pairs && Lacks(w.db.rows, e.zone, e.id) else Enabled(w, e)
  }

  predicate SharedRun(ws: seq<World>, es: seq<Event>) {
    && |ws| == |es| + 1
    && forall i :: 0 <= i < |es| ==> Possible(ws[i], es[i]) && ws[i + 1] == Exec(ws[i], es[i])
  }

  /** The runs without sharing are among them. */
  lemma RunIsShared(ws: seq<World>, es: seq<Event>)
    requires Run(ws, es)
    ensures SharedRun(ws, es)
  {
    hide Exec;
    forall i | 0 <= i < |es|
      ensures Possible(ws[i], es[i])
    {
      assert Enabled(ws[i], es[i]);
    }
  }

  predicate Tidy(w: World) {
    Unique(w.db.rows) && forall k :: k in w.db.pairs ==> k < w.nextId
  }

  // ---- Every event raises ----

  lemma MarkedPairRises(db: Db, id: int, now: int)
    ensures Rises(db.rows, MarkedPair(db, id, now).rows)
  {
  }

  lemma PromotedRises(rows: seq<Row>, g: Guard, loose: set<int>)
    ensures Rises(rows, Promoted(rows, g, loose))
  {
  }

  /** The roll command conserves the rows and raises their states, whatever is shared. */
  lemma {:induction false} RolledAllRises(db: Db, keys: seq<Row>, policy: Option<int>, now: int, loose: set<int>)
    ensures Rises(db.rows, RolledAll(db, keys, policy, now, loose).0.rows)
  {
    hide Rises, MarkedPair, Promoted, Extended;
    if keys == [] {
      RisesSelf(db.rows);
    } else {
      var front, key := keys[..|keys| - 1], keys[|keys| - 1];
      RolledAllRises(db, front, policy, now, loose);
      var (before, g) := RolledAll(db, front, policy, now, loose);
      var marked := MarkedPair(before, key.pair, now);
      MarkedPairRises(before, key.pair, now);
      RisesTrans(db.rows, before.rows, marked.rows);
      if key.kind.KSK? {
        var more := Extended(g, marked, key.pair, policy, now);
        PromotedRises(marked.rows, more, loose);
        RisesTrans(db.rows, marked.rows, Promoted(marked.rows, more, loose));
      }
    }
  }

  lemma RisesSelf(rows: seq<Row>)
    ensures Rises(rows, rows)
  {
  }

  /** Events that neither add nor drop rows conserve them and raise their states. */
  lemma EventConserves(w: World, e: Event)
    requires Possible(w, e) && !e.Allocate? && !e.Purge?
    ensures Rises(w.db.rows, Exec(w, e).db.rows)
  {
    hide Handled, RolledAll, Selection, Purged;
    match e
    case KeyRequest(kinds, rollover, c, newDs) =>
      RequestConservesKeys(w.db, kinds, rollover, c, newDs);
    case Roll(s, now, loose) =>
      RolledAllRises(w.db, Selection(w.db, s, w.db.rows), s.policy, now, loose);
    case _ =>
  }

  predicate StaysOrRises(r: Row, s: Row) {
    r.state == s.state || Rank(r.state) < Rank(s.state)
  }

  /** The row of a key before an event, and its row after it. */
  lemma EventRises(w: World, e: Event, i: nat, j: nat)
    requires Unique(w.db.rows) && Possible(w, e) && i < |w.db.rows| && j < |Exec(w, e).db.rows|
    requires IsKey(Exec(w, e).db.rows[j], w.db.rows[i].zone, w.db.rows[i].pair)
    ensures StaysOrRises(w.db.rows[i], Exec(w, e).db.rows[j])
  {
    hide Handled, KeyRolled, Without;
    var rows := Exec(w, e).db.rows;
    if e.Allocate? {
      assert j < |w.db.rows| ==> rows[j] == w.db.rows[j];
    } else if e.Purge? {
      WithoutMembers(w.db.rows, PurgeSet(w.db, e.owner, e.limit));
      assert rows[j] in rows;
      var m :| 0 <= m < |w.db.rows| && w.db.rows[m] == rows[j];
      assert m == i;
    } else {
      EventConserves(w, e);
      assert SameKey(w.db.rows[j], rows[j]);
    }
  }

  lemma UniqueRises(a: seq<Row>, b: seq<Row>)
    requires Unique(a) && Rises(a, b)
    ensures Unique(b)
  {
    assert forall i :: 0 <= i < |a| ==> SameKey(a[i], b[i]);
  }

  lemma StepTidy(w: World, e: Event)
    requires Tidy(w) && Possible(w, e)
    ensures Tidy(Exec(w, e))
  {
    hide Handled, RolledAll, Selection, Without;
    var w' := Exec(w, e);
    if e.Allocate? {
      assert forall i :: 0 <= i < |w.db.rows| ==> w'.db.rows[i] == w.db.rows[i];
    } else if e.Purge? {
      WithoutUnique(w.db.rows, PurgeSet(w.db, e.owner, e.limit));
    } else {
      EventConserves(w, e);
      UniqueRises(w.db.rows, w'.db.rows);
      if e.KeyRequest? {
        RequestConservesKeys(w.db, e.kinds, e.rollover, e.call, e.newDs);
        assert forall k :: k in w'.db.pairs.Keys ==> k in w.db.pairs.Keys;
      } else if e.Roll? {
        RollKeepsPairs(w.db, Selection(w.db, e.targets, w.db.rows), e.targets.policy, e.now, e.loose);
      }
    }
  }

  lemma {:induction false} RunTidy(ws: seq<World>, es: seq<Event>, n: nat)
    requires SharedRun(ws, es) && Tidy(ws[0]) && n < |ws|
    ensures Tidy(ws[n])
  {
    hide Tidy, Exec, Possible;
    if n > 0 {
      RunTidy(ws, es, n - 1);
      StepTidy(ws[n - 1], es[n - 1]);
    }
  }

  // ---- Histories of a key ----

  /** The key is in state s in world w. */
  predicate InState(w: World, zone: int, k: int, s: State) {
    exists i :: 0 <= i < |w.db.rows| && IsKey(w.db.rows[i], zone, k) && w.db.rows[i].state == s
  }

  /** In every world a key has at most one row, and so at most one state; and over any stretch of any run it changes
      its state at most seven times, each time upwards. */
  lemma AtMostSevenMoves(ws: seq<World>, es: seq<Event>, zone: int, k: int, start: nat, history: seq<State>)
    requires SharedRun(ws, es) && Tidy(ws[0])
    requires history != [] && start + |history| <= |ws|
    requires forall t :: 0 <= t < |history| ==> InState(ws[start + t], zone, k, history[t])
    ensures Unique(ws[start].db.rows) && Changes(history) <= 7
  {
    hide Exec, Possible;
    RunTidy(ws, es, start);
    forall t | 0 <= t < |history| - 1
      ensures history[t] == history[t + 1] || Rank(history[t]) < Rank(history[t + 1])
    {
      var w, e := ws[start + t], es[start + t];
      RunTidy(ws, es, start + t);
      assert InState(w, zone, k, history[t]);
      assert InState(ws[start + (t + 1)], zone, k, history[t + 1]);
      var i: nat :| i < |w.db.rows| && IsKey(w.db.rows[i], zone, k) && w.db.rows[i].state == history[t];
      var w' := ws[start + t + 1];
      var j: nat :| j < |w'.db.rows| && IsKey(w'.db.rows[j], zone, k) && w'.db.rows[j].state == history[t + 1];
      EventRises(w, e, i, j);
    }
    AtMostSevenChanges(history);
  }
}
